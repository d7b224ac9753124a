/**
 The table of known lobbies, as a value.  An address inside the table is the number of its slot.
 */
module LobbyTable {
  import opened Basics
  import opened Packets

  const NAME_SIZE: nat := 128
  const TICK_RANGE: nat := 0x1_0000_0000

  datatype Pointer = Null | StatusSlot | Slot(index: nat)

  /** What the host says about its game, apart from the name. */
  datatype GameFacts = GameFacts(
    host: NetAddress,
    state: nat,
    version: nat,
    description: string,
    turns: nat,
    extra: seq<byte>)

  datatype AdFile = AdFile(
    facts: GameFacts,
    gameName: string,
    hostLastTime: nat,
    gameIndex: nat,
    pNext: Pointer,
    pExtra: Pointer)

  datatype LobbyEntry = LobbyEntry(ad: AdFile, originalName: string)
  {
    function Host(): NetAddress {
      ad.facts.host
    }
  }

  /** The string in a character buffer: everything before the first NUL. */
  function CString(buffer: string): string {
    if buffer == "" || buffer[0] == '\0' then "" else [buffer[0]] + CString(buffer[1..])
  }

  function Hosts(es: seq<LobbyEntry>): (r: seq<NetAddress>)
    ensures |r| == |es| && forall i :: 0 <= i < |es| ==> r[i] == es[i].Host()
  {
    seq(|es|, i requires 0 <= i < |es| => es[i].Host())
  }

  function AdHosts(ads: seq<AdFile>): set<NetAddress> {
    set i | 0 <= i < |ads| :: ads[i].facts.host
  }

  // ----- update_lobbies -----

  /** The known lobbies that are still advertised. */
  function Survivors(es: seq<LobbyEntry>, hosts: set<NetAddress>): seq<LobbyEntry> {
    if es == [] then []
    else Survivors(es[..|es| - 1], hosts) + if es[|es| - 1].Host() in hosts then [es[|es| - 1]] else []
  }

  /** The slot of a host, or the end of the table. */
  function Find(es: seq<LobbyEntry>, host: NetAddress): (k: nat)
    ensures k <= |es|
    ensures k < |es| ==> es[k].Host() == host
    ensures forall i :: 0 <= i < k ==> es[i].Host() != host
  {
    if es == [] then 0 else if es[0].Host() == host then 0 else 1 + Find(es[1..], host)
  }

  function EntryFor(ad: AdFile): LobbyEntry {
    LobbyEntry(ad, CString(ad.gameName))
  }

  function Merge(es: seq<LobbyEntry>, ad: AdFile): seq<LobbyEntry> {
    var k := Find(es, ad.facts.host);
    if k == |es| then es + [EntryFor(ad)] else es[k := EntryFor(ad)]
  }

  function MergeAll(es: seq<LobbyEntry>, ads: seq<AdFile>): seq<LobbyEntry> {
    if ads == [] then es else Merge(MergeAll(es, ads[..|ads| - 1]), ads[|ads| - 1])
  }

  function Stamp(e: LobbyEntry, i: nat, now: nat): LobbyEntry {
    e.(ad := e.ad.(hostLastTime := now, gameIndex := i + 2, pExtra := Slot(i)))
  }

  function Restamp(es: seq<LobbyEntry>, now: nat): (r: seq<LobbyEntry>)
    ensures |r| == |es| && forall i :: 0 <= i < |es| ==> r[i] == Stamp(es[i], i, now)
  {
    seq(|es|, i requires 0 <= i < |es| => Stamp(es[i], i, now))
  }

  function Update(es: seq<LobbyEntry>, ads: seq<AdFile>, now: nat): seq<LobbyEntry> {
    Restamp(MergeAll(Survivors(es, AdHosts(ads)), ads), now)
  }

  // ----- What an update means -----

  /** The last ad of each host. */
  function LastAds(ads: seq<AdFile>): map<NetAddress, AdFile> {
    if ads == [] then map[] else LastAds(ads[..|ads| - 1])[ads[|ads| - 1].facts.host := ads[|ads| - 1]]
  }

  /** The hosts outside `known`, in the order of their first ads. */
  function NewHosts(ads: seq<AdFile>, known: set<NetAddress>): seq<NetAddress> {
    if ads == [] then []
    else
      var earlier := NewHosts(ads[..|ads| - 1], known);
      var host := ads[|ads| - 1].facts.host;
      if host in known || host in earlier then earlier else earlier + [host]
  }

  function Keep(hosts: seq<NetAddress>, wanted: set<NetAddress>): seq<NetAddress> {
    if hosts == [] then []
    else Keep(hosts[..|hosts| - 1], wanted) + if hosts[|hosts| - 1] in wanted then [hosts[|hosts| - 1]] else []
  }

  ghost predicate Distinct<T(!new)>(s: seq<T>) {
    forall i, j :: 0 <= i < j < |s| ==> s[i] != s[j]
  }

  /** Every entry of a host in `last` holds that ad; other entries are those of `before`. */
  ghost predicate Holds(es: seq<LobbyEntry>, before: seq<LobbyEntry>, last: map<NetAddress, AdFile>) {
    && |before| <= |es|
    && (forall i :: 0 <= i < |es| && es[i].Host() in last ==> es[i] == EntryFor(last[es[i].Host()]))
    && (forall i :: 0 <= i < |es| && es[i].Host() !in last ==> i < |before| && es[i] == before[i])
  }

  lemma {:induction false} LastAdsDomain(ads: seq<AdFile>)
    ensures LastAds(ads).Keys == AdHosts(ads)
    ensures forall h :: h in LastAds(ads) ==> LastAds(ads)[h].facts.host == h
  {
    if ads == [] {
    } else {
      var front := ads[..|ads| - 1];
      LastAdsDomain(front);
      assert AdHosts(ads) == AdHosts(front) + {ads[|ads| - 1].facts.host} by {
        forall h | h in AdHosts(ads) ensures h in AdHosts(front) + {ads[|ads| - 1].facts.host} {
          var i :| 0 <= i < |ads| && ads[i].facts.host == h;
          if i < |front| { assert front[i].facts.host == h; }
        }
        forall h | h in AdHosts(front) ensures h in AdHosts(ads) {
          var i :| 0 <= i < |front| && front[i].facts.host == h;
          assert ads[i].facts.host == h;
        }
        assert ads[|ads| - 1].facts.host in AdHosts(ads);
      }
    }
  }

  lemma MergeHosts(es: seq<LobbyEntry>, ad: AdFile)
    requires Distinct(Hosts(es))
    ensures
      var host := ad.facts.host;
      Hosts(Merge(es, ad)) == if host in Hosts(es) then Hosts(es) else Hosts(es) + [host]
    ensures Distinct(Hosts(Merge(es, ad)))
  {
    var k := Find(es, ad.facts.host);
    if k < |es| {
      assert Hosts(es)[k] == ad.facts.host;
      assert Hosts(Merge(es, ad)) == Hosts(es);
    } else {
      assert Hosts(Merge(es, ad)) == Hosts(es) + [ad.facts.host];
    }
  }

  lemma MergeHolds(es: seq<LobbyEntry>, before: seq<LobbyEntry>, last: map<NetAddress, AdFile>, ad: AdFile)
    requires Distinct(Hosts(es)) && Holds(es, before, last)
    ensures Holds(Merge(es, ad), before, last[ad.facts.host := ad])
  {
    var k := Find(es, ad.facts.host);
    var r := Merge(es, ad);
    forall i | 0 <= i < |r| && i != k ensures i < |es| && r[i] == es[i] && r[i].Host() != ad.facts.host {
      if k < |es| {
        assert Hosts(es)[i] != Hosts(es)[k];
      }
    }
  }

  lemma {:induction false} MergeAllHosts(es: seq<LobbyEntry>, ads: seq<AdFile>)
    requires Distinct(Hosts(es))
    ensures Hosts(MergeAll(es, ads)) == Hosts(es) + NewHosts(ads, set h | h in Hosts(es))
    ensures Distinct(Hosts(MergeAll(es, ads)))
  {
    if ads == [] {
      assert Hosts(es) + [] == Hosts(es);
    } else {
      var front, host := ads[..|ads| - 1], ads[|ads| - 1].facts.host;
      MergeAllHosts(es, front);
      MergeHosts(MergeAll(es, front), ads[|ads| - 1]);
      var known := set h | h in Hosts(es);
      var earlier := NewHosts(front, known);
      assert host in Hosts(es) + earlier <==> host in known || host in earlier;
      assert Hosts(es) + (earlier + [host]) == Hosts(es) + earlier + [host];
    }
  }

  lemma {:induction false} MergeAllHolds(es: seq<LobbyEntry>, ads: seq<AdFile>)
    requires Distinct(Hosts(es))
    ensures Holds(MergeAll(es, ads), es, LastAds(ads))
  {
    if ads == [] {
    } else {
      var front := ads[..|ads| - 1];
      MergeAllHolds(es, front);
      MergeAllHosts(es, front);
      MergeHolds(MergeAll(es, front), es, LastAds(front), ads[|ads| - 1]);
    }
  }

  lemma HostsAppend(es: seq<LobbyEntry>, e: LobbyEntry)
    ensures Hosts(es + [e]) == Hosts(es) + [e.Host()]
  {
  }

  lemma {:induction false} SurvivorsKeepHosts(es: seq<LobbyEntry>, hosts: set<NetAddress>)
    ensures Hosts(Survivors(es, hosts)) == Keep(Hosts(es), hosts)
  {
    if es == [] {
    } else {
      var front, last := es[..|es| - 1], es[|es| - 1];
      SurvivorsKeepHosts(front, hosts);
      HostsAppend(Survivors(front, hosts), last);
      assert Hosts(es)[..|es| - 1] == Hosts(front);
    }
  }

  lemma {:induction false} KeepIsSound(hosts: seq<NetAddress>, wanted: set<NetAddress>)
    ensures forall h :: h in Keep(hosts, wanted) ==> h in wanted && h in hosts
  {
    if hosts == [] {
    } else {
      KeepIsSound(hosts[..|hosts| - 1], wanted);
    }
  }

  lemma {:induction false} KeepIsDistinct(hosts: seq<NetAddress>, wanted: set<NetAddress>)
    requires Distinct(hosts)
    ensures Distinct(Keep(hosts, wanted))
  {
    if hosts == [] {
    } else {
      var front := hosts[..|hosts| - 1];
      KeepIsDistinct(front, wanted);
      KeepIsSound(front, wanted);
      assert hosts[|hosts| - 1] !in front;
    }
  }

  lemma SurvivorsMeaning(es: seq<LobbyEntry>, hosts: set<NetAddress>)
    requires Distinct(Hosts(es))
    ensures
      var r := Survivors(es, hosts);
      && Hosts(r) == Keep(Hosts(es), hosts)
      && (forall h :: h in Hosts(r) ==> h in hosts)
      && Distinct(Hosts(r))
  {
    SurvivorsKeepHosts(es, hosts);
    KeepIsSound(Hosts(es), hosts);
    KeepIsDistinct(Hosts(es), hosts);
  }

  lemma {:induction false} NewHostsAreHosts(ads: seq<AdFile>, known: set<NetAddress>)
    ensures forall h :: h in NewHosts(ads, known) <==> h in AdHosts(ads) && h !in known
  {
    if ads == [] {
    } else {
      var front := ads[..|ads| - 1];
      var last := ads[|ads| - 1].facts.host;
      NewHostsAreHosts(front, known);
      LastAdsDomain(ads);
      LastAdsDomain(front);
      assert AdHosts(ads) == AdHosts(front) + {last};
    }
  }

  /**
   The table after an update is a map from the advertised hosts to their last ads, in a definite order: the lobbies that
   were known already, in their old order, and then the new hosts in the order in which they appear.
   */
  lemma UpdateRefinesMap(es: seq<LobbyEntry>, ads: seq<AdFile>, now: nat)
    requires Distinct(Hosts(es))
    ensures
      var r := Update(es, ads, now);
      && Hosts(r) == Keep(Hosts(es), AdHosts(ads)) + NewHosts(ads, set h | h in Keep(Hosts(es), AdHosts(ads)))
      && Distinct(Hosts(r))
      && (set h | h in Hosts(r)) == AdHosts(ads) == LastAds(ads).Keys
      && forall i :: 0 <= i < |r| ==>
           r[i].Host() in LastAds(ads) && r[i] == Stamp(EntryFor(LastAds(ads)[r[i].Host()]), i, now)
  {
    var kept := Survivors(es, AdHosts(ads));
    var merged := MergeAll(kept, ads);
    SurvivorsMeaning(es, AdHosts(ads));
    MergeAllHosts(kept, ads);
    MergeAllHolds(kept, ads);
    LastAdsDomain(ads);
    MergedHosts(kept, ads);
    assert Hosts(Update(es, ads, now)) == Hosts(merged);
    forall i | 0 <= i < |merged| ensures merged[i].Host() in LastAds(ads) {
      assert Hosts(merged)[i] == merged[i].Host();
    }
  }

  lemma MergedHosts(kept: seq<LobbyEntry>, ads: seq<AdFile>)
    requires Distinct(Hosts(kept)) && forall h :: h in Hosts(kept) ==> h in AdHosts(ads)
    ensures (set h | h in Hosts(MergeAll(kept, ads))) == AdHosts(ads)
  {
    var known := set h | h in Hosts(kept);
    MergeAllHosts(kept, ads);
    NewHostsAreHosts(ads, known);
    forall h ensures h in Hosts(MergeAll(kept, ads)) <==> h in AdHosts(ads) {
      assert h in Hosts(kept) + NewHosts(ads, known) <==> h in Hosts(kept) || h in NewHosts(ads, known);
    }
  }

  /** The entry of an advertised host, field by field: its last ad, stamped with the time of the update and numbered. */
  predicate IsEntryOf(e: LobbyEntry, i: nat, ad: AdFile, now: nat) {
    && e.ad.facts == ad.facts && e.ad.gameName == ad.gameName && e.ad.pNext == ad.pNext
    && e.originalName == CString(ad.gameName)
    && e.ad.hostLastTime == now && e.ad.gameIndex == i + 2 && e.ad.pExtra == Slot(i)
  }

  lemma UpdateIsExact(es: seq<LobbyEntry>, ads: seq<AdFile>, now: nat)
    requires Distinct(Hosts(es))
    ensures
      var r := Update(es, ads, now);
      forall i :: 0 <= i < |r| ==> r[i].Host() in LastAds(ads) && IsEntryOf(r[i], i, LastAds(ads)[r[i].Host()], now)
  {
    UpdateRefinesMap(es, ads, now);
    LastAdsDomain(ads);
  }

  /** What a C string is: it ends before the first NUL, or with the buffer. */
  lemma {:induction false} CStringEndsAtNul(buffer: string)
    ensures
      var s := CString(buffer);
      && s <= buffer && (forall i :: 0 <= i < |s| ==> s[i] != '\0')
      && (|s| < |buffer| ==> buffer[|s|] == '\0')
  {
    if buffer == "" || buffer[0] == '\0' {
    } else {
      CStringEndsAtNul(buffer[1..]);
      assert buffer == [buffer[0]] + buffer[1..];
    }
  }

  /** A lobby that stays in the table never moves down. */
  lemma {:induction false} KeepMovesUp(hosts: seq<NetAddress>, wanted: set<NetAddress>, i: nat) returns (j: nat)
    requires i < |hosts| && hosts[i] in wanted
    ensures j <= i && j < |Keep(hosts, wanted)| && Keep(hosts, wanted)[j] == hosts[i]
    ensures |Keep(hosts, wanted)| <= |hosts|
  {
    KeepIsShorter(hosts[..|hosts| - 1], wanted);
    if i == |hosts| - 1 {
      j := |Keep(hosts[..|hosts| - 1], wanted)|;
    } else {
      j := KeepMovesUp(hosts[..|hosts| - 1], wanted, i);
    }
  }

  lemma {:induction false} KeepIsShorter(hosts: seq<NetAddress>, wanted: set<NetAddress>)
    ensures |Keep(hosts, wanted)| <= |hosts|
  {
    if hosts == [] {
    } else {
      KeepIsShorter(hosts[..|hosts| - 1], wanted);
    }
  }

  lemma SurvivorMovesUp(es: seq<LobbyEntry>, ads: seq<AdFile>, now: nat, i: nat) returns (j: nat)
    requires Distinct(Hosts(es)) && i < |es| && es[i].Host() in AdHosts(ads)
    ensures j <= i && j < |Update(es, ads, now)|
    ensures Update(es, ads, now)[j].Host() == es[i].Host() && Update(es, ads, now)[j].ad.gameIndex <= i + 2
  {
    UpdateRefinesMap(es, ads, now);
    j := KeepMovesUp(Hosts(es), AdHosts(ads), i);
    assert Hosts(Update(es, ads, now))[j] == Hosts(es)[i];
  }

  // ----- prune_lobbies_older_than -----

  /** The age of an entry, as an unsigned difference of ticks. */
  function Age(e: LobbyEntry, now: nat): nat {
    (now - e.ad.hostLastTime) % TICK_RANGE
  }

  /** Removes the entries that are too old. The clock is read once for each. */
  function Pruned(es: seq<LobbyEntry>, seconds: nat, clocks: seq<nat>): seq<LobbyEntry>
    requires |clocks| == |es|
  {
    if es == [] then []
    else
      var last := |es| - 1;
      Pruned(es[..last], seconds, clocks[..last]) + if Age(es[last], clocks[last]) > seconds then [] else [es[last]]
  }

  // ----- The invariant of the table -----

  /** One entry for each host, numbered from two, all stamped alike, each pointing at its own extra bytes. */
  ghost predicate Tidy(es: seq<LobbyEntry>) {
    && Distinct(Hosts(es))
    && (forall i, j :: 0 <= i < j < |es| ==> es[i].ad.hostLastTime == es[j].ad.hostLastTime)
    && (forall i :: 0 <= i < |es| ==> es[i].ad.gameIndex == i + 2 && es[i].ad.pExtra == Slot(i))
  }

  /** The clock does not go back while the table is pruned, and is not behind the last update. */
  predicate ClockFits(es: seq<LobbyEntry>, clocks: seq<nat>) {
    && |clocks| == |es|
    && (forall i, j :: 0 <= i < j < |clocks| ==> clocks[i] <= clocks[j])
    && (forall i :: 0 <= i < |es| ==> es[i].ad.hostLastTime <= clocks[i] < es[i].ad.hostLastTime + TICK_RANGE)
  }

  lemma PruneLast(es: seq<LobbyEntry>, stamp: nat, seconds: nat, clocks: seq<nat>)
    requires es != [] && ClockFits(es, clocks) && es[|es| - 1].ad.hostLastTime == stamp
    ensures
      var last := |es| - 1;
      Pruned(es, seconds, clocks) == Pruned(es[..last], seconds, clocks[..last])
        + if clocks[last] - stamp > seconds then [] else [es[last]]
    ensures ClockFits(es[..|es| - 1], clocks[..|es| - 1])
  {
    assert Age(es[|es| - 1], clocks[|es| - 1]) == clocks[|es| - 1] - stamp;
  }

  /** If the last entry is young enough, none before it was cut off, since the clock was not later for them. */
  lemma YoungLast(es: seq<LobbyEntry>, stamp: nat, seconds: nat, clocks: seq<nat>, k: nat)
    requires es != [] && ClockFits(es, clocks) && clocks[|es| - 1] - stamp <= seconds
    requires k <= |es| - 1 && (k < |es| - 1 ==> clocks[k] - stamp > seconds)
    ensures k == |es| - 1
    ensures forall i :: 0 <= i < |es| ==> clocks[i] - stamp <= seconds
  {
    forall i | 0 <= i < |es| - 1 ensures clocks[i] <= clocks[|es| - 1] {
    }
  }

  /** Pruning cuts the table off at the first entry that is too old. */
  lemma {:induction false} PruneAt(es: seq<LobbyEntry>, stamp: nat, seconds: nat, clocks: seq<nat>) returns (k: nat)
    requires ClockFits(es, clocks) && forall i :: 0 <= i < |es| ==> es[i].ad.hostLastTime == stamp
    ensures k <= |es| && Pruned(es, seconds, clocks) == es[..k]
    ensures forall i :: 0 <= i < k ==> clocks[i] - stamp <= seconds
    ensures k < |es| ==> clocks[k] - stamp > seconds
  {
    if es == [] {
      k := 0;
    } else {
      var last := |es| - 1;
      PruneLast(es, stamp, seconds, clocks);
      k := PruneAt(es[..last], stamp, seconds, clocks[..last]);
      if clocks[last] - stamp <= seconds {
        YoungLast(es, stamp, seconds, clocks, k);
        k := |es|;
        assert es[..last][..last] + [es[last]] == es[..k];
      } else {
        assert es[..last][..k] + [] == es[..k];
      }
    }
  }

  lemma PruningKeepsPrefix(es: seq<LobbyEntry>, seconds: nat, clocks: seq<nat>) returns (k: nat)
    requires Tidy(es) && ClockFits(es, clocks)
    ensures k <= |es| && Pruned(es, seconds, clocks) == es[..k]
    ensures forall i :: 0 <= i < |es| ==> (i < k <==> clocks[i] - es[i].ad.hostLastTime <= seconds)
  {
    k := PruneAt(es, if es == [] then 0 else es[0].ad.hostLastTime, seconds, clocks);
  }

  lemma PrefixIsTidy(es: seq<LobbyEntry>, k: nat)
    requires Tidy(es) && k <= |es|
    ensures Tidy(es[..k])
  {
    assert Hosts(es[..k]) == Hosts(es)[..k];
  }

  lemma UpdateIsTidy(es: seq<LobbyEntry>, ads: seq<AdFile>, now: nat)
    requires Distinct(Hosts(es))
    ensures Tidy(Update(es, ads, now))
  {
    UpdateRefinesMap(es, ads, now);
  }

  // ----- get_ad_by_index -----

  function AdByIndex(es: seq<LobbyEntry>, index: nat): Option<AdFile> {
    if es == [] then None
    else if es[0].ad.gameIndex == index then Some(es[0].ad)
    else AdByIndex(es[1..], index)
  }

  /** Looking up a number finds the ad in the slot two below it, and nothing for the status ad's number. */
  lemma LookupInvertsNumbering(es: seq<LobbyEntry>, index: nat)
    requires Tidy(es)
    ensures AdByIndex(es, index) == if 2 <= index < |es| + 2 then Some(es[index - 2].ad) else None
  {
    LookupFrom(es, 0, index);
    assert es[0..] == es;
  }

  lemma {:induction false} LookupFrom(es: seq<LobbyEntry>, from: nat, index: nat)
    requires from <= |es| && forall i :: 0 <= i < |es| ==> es[i].ad.gameIndex == i + 2
    ensures AdByIndex(es[from..], index) == if from + 2 <= index < |es| + 2 then Some(es[index - 2].ad) else None
    decreases |es| - from
  {
    if from == |es| {
    } else {
      LookupFrom(es, from + 1, index);
      assert es[from..][1..] == es[from + 1..];
    }
  }
}
