/**
 The list handed to the game: the status ad and the table, linked through `pNext`, with the names the player sees.
 */
module GameList {
  import opened Basics
  import opened LobbyTable

  /**
   What the display depends on besides the table: the status line, and the text shown before and after a lobby's own
   name, which comes from the state of its agents, the versions and the configuration.
   */
  datatype Display = Display(status: string, prefix: GameFacts -> string, suffix: GameFacts -> string)

  /** `strncpy` into the name field: cut to its size or filled up with NULs. */
  function NameBuffer(text: string): (r: string)
    ensures |r| == NAME_SIZE
  {
    if |text| >= NAME_SIZE then text[..NAME_SIZE] else text + seq(NAME_SIZE - |text|, _ => '\0')
  }

  function ShownName(e: LobbyEntry, d: Display): string {
    NameBuffer(d.prefix(e.ad.facts) + e.originalName + d.suffix(e.ad.facts))
  }

  /** The link of slot `i` in a table of `n`. */
  function NextSlot(i: nat, n: nat): Pointer {
    if i + 1 < n then Slot(i + 1) else Null
  }

  function Named(e: LobbyEntry, d: Display, editName: bool): LobbyEntry {
    if editName then e.(ad := e.ad.(gameName := ShownName(e, d))) else e
  }

  function Shown(e: LobbyEntry, i: nat, n: nat, d: Display, editName: bool): LobbyEntry {
    var named := Named(e, d, editName);
    named.(ad := named.ad.(pNext := NextSlot(i, n)))
  }

  /** The table after the names have been written and the entries linked. */
  function Displayed(es: seq<LobbyEntry>, d: Display, editName: bool): (r: seq<LobbyEntry>)
    ensures |r| == |es| && forall i :: 0 <= i < |es| ==> r[i] == Shown(es[i], i, |es|, d, editName)
  {
    seq(|es|, i requires 0 <= i < |es| => Shown(es[i], i, |es|, d, editName))
  }

  /** An empty status hides the ad by making it a game in progress. */
  function StatusShown(ad: AdFile, d: Display): AdFile {
    if d.status == "" then ad.(facts := ad.facts.(state := 12))
    else ad.(facts := ad.facts.(state := 0), gameName := NameBuffer(d.status))
  }

  datatype Manager = Manager(lobbies: seq<LobbyEntry>, status: AdFile, statusUsed: bool, editName: bool)

  /** The status ad is number one. */
  function NewManager(statusFacts: GameFacts): Manager {
    Manager([], AdFile(statusFacts, NameBuffer(""), 0, 1, Null, StatusSlot), true, true)
  }

  /** `ok` and the head of the list. */
  datatype Locked = Locked(manager: Manager, ok: bool, head: Pointer)

  function Lock(m: Manager, d: Display, clocks: seq<nat>): Locked
    requires |clocks| == |m.lobbies|
  {
    if !m.statusUsed && m.lobbies == [] then Locked(m, false, Null)
    else
      var shown := Displayed(Pruned(m.lobbies, 2, clocks), d, m.editName);
      var status := StatusShown(m.status, d).(pNext := if shown == [] then Null else Slot(0));
      var after := m.(lobbies := shown, status := status);
      if m.statusUsed then Locked(after, true, StatusSlot)
      else if shown != [] then Locked(after, true, Slot(0))
      else Locked(after, false, Null)
  }

  // ----- Walking the list -----

  /** What a reader meets who follows the links; None if a link leads outside the table or the steps run out. */
  function Walk(m: Manager, p: Pointer, steps: nat): Option<seq<Pointer>>
    decreases steps
  {
    match p
    case Null => Some([])
    case StatusSlot =>
      if steps == 0 then None
      else
        (match Walk(m, m.status.pNext, steps - 1)
         case None => None
         case Some(rest) => Some([p] + rest))
    case Slot(i) =>
      if steps == 0 || i >= |m.lobbies| then None
      else
        (match Walk(m, m.lobbies[i].ad.pNext, steps - 1)
         case None => None
         case Some(rest) => Some([p] + rest))
  }

  function Slots(from: nat, n: nat): (r: seq<Pointer>)
    requires from <= n
    ensures |r| == n - from && forall i :: 0 <= i < |r| ==> r[i] == Slot(from + i)
  {
    seq(n - from, i requires 0 <= i => Slot(from + i))
  }

  lemma {:induction false} WalkSlots(m: Manager, from: nat, steps: nat)
    requires from < |m.lobbies| && steps >= |m.lobbies| - from
    requires forall i :: 0 <= i < |m.lobbies| ==> m.lobbies[i].ad.pNext == NextSlot(i, |m.lobbies|)
    ensures Walk(m, Slot(from), steps) == Some(Slots(from, |m.lobbies|))
    decreases |m.lobbies| - from
  {
    var n := |m.lobbies|;
    if from + 1 < n {
      WalkSlots(m, from + 1, steps - 1);
      assert [Slot(from)] + Slots(from + 1, n) == Slots(from, n);
    } else {
      assert [Slot(from)] + [] == Slots(from, n);
    }
  }

  /**
   Whenever the list is handed out, following it from its head meets the status ad, if it is in use, and then every lobby
   once, in table order, and comes to an end.
   */
  lemma ListIsComplete(m: Manager, d: Display, clocks: seq<nat>, steps: nat)
    requires |clocks| == |m.lobbies|
    ensures
      var l := Lock(m, d, clocks);
      var n := |l.manager.lobbies|;
      l.ok && steps > n ==>
        Walk(l.manager, l.head, steps) == Some((if m.statusUsed then [StatusSlot] else []) + Slots(0, n))
  {
    var l := Lock(m, d, clocks);
    var n := |l.manager.lobbies|;
    if l.ok && steps > n {
      if m.statusUsed {
        if n > 0 { WalkSlots(l.manager, 0, steps - 1); } else { assert Slots(0, n) == []; }
      } else {
        WalkSlots(l.manager, 0, steps);
        assert [] + Slots(0, n) == Slots(0, n);
      }
    }
  }

  // ----- Names -----

  /** Names do not pile up: what is shown depends on the last display alone. */
  lemma LastDisplayCounts(es: seq<LobbyEntry>, first: Display, last: Display, editName: bool)
    ensures Displayed(Displayed(es, first, true), last, true) == Displayed(es, last, true)
    ensures Displayed(Displayed(es, last, editName), last, editName) == Displayed(es, last, editName)
  {
  }

  /** Locking again at once, with the same display, changes nothing. */
  lemma LockingTwiceIsLockingOnce(m: Manager, d: Display, clocks: seq<nat>, again: seq<nat>)
    requires |clocks| == |m.lobbies| && Lock(m, d, clocks).ok
    requires |again| == |Lock(m, d, clocks).manager.lobbies|
    requires forall i :: 0 <= i < |again| ==> Age(Lock(m, d, clocks).manager.lobbies[i], again[i]) <= 2
    ensures Lock(Lock(m, d, clocks).manager, d, again) == Lock(m, d, clocks)
  {
    var once := Lock(m, d, clocks).manager;
    NothingPruned(once.lobbies, 2, again);
    LastDisplayCounts(Pruned(m.lobbies, 2, clocks), d, d, m.editName);
  }

  lemma LastIsKept(es: seq<LobbyEntry>, seconds: nat, clocks: seq<nat>)
    requires es != [] && |clocks| == |es| && Age(es[|es| - 1], clocks[|es| - 1]) <= seconds
    ensures
      var last := |es| - 1;
      Pruned(es, seconds, clocks) == Pruned(es[..last], seconds, clocks[..last]) + [es[last]]
  {
  }

  lemma {:induction false} NothingPruned(es: seq<LobbyEntry>, seconds: nat, clocks: seq<nat>)
    requires |clocks| == |es| && forall i :: 0 <= i < |es| ==> Age(es[i], clocks[i]) <= seconds
    ensures Pruned(es, seconds, clocks) == es
  {
    if es == [] {
    } else {
      var last := |es| - 1;
      NothingPruned(es[..last], seconds, clocks[..last]);
      LastIsKept(es, seconds, clocks);
      assert es[..last] + [es[last]] == es;
    }
  }

  /** The names an update brings in, as the player will see them: the host's own name, decorated once. */
  lemma ShownNameIsHostsName(es: seq<LobbyEntry>, ads: seq<AdFile>, now: nat, d: Display, i: nat)
    requires Distinct(Hosts(es)) && i < |Update(es, ads, now)|
    ensures
      var e := Update(es, ads, now)[i];
      && e.Host() in LastAds(ads)
      && Displayed(Update(es, ads, now), d, true)[i].ad.gameName
         == NameBuffer(d.prefix(e.ad.facts) + CString(LastAds(ads)[e.Host()].gameName) + d.suffix(e.ad.facts))
  {
    UpdateRefinesMap(es, ads, now);
  }

  /** As much of a text as fits the name field. */
  function Cut(text: string): string {
    if |text| > NAME_SIZE then text[..NAME_SIZE] else text
  }

  lemma {:induction false} CStringOfFilled(s: string, rest: string)
    requires forall i :: 0 <= i < |s| ==> s[i] != '\0'
    requires rest != "" ==> rest[0] == '\0'
    ensures CString(s + rest) == s
  {
    if s == "" {
      assert s + rest == rest;
    } else {
      CStringOfFilled(s[1..], rest);
      assert (s + rest)[1..] == s[1..] + rest;
      assert [s[0]] + s[1..] == s;
    }
  }

  /** The name field holds the text, cut to its size. */
  lemma NameIsText(text: string)
    requires forall i :: 0 <= i < |text| ==> text[i] != '\0'
    ensures CString(NameBuffer(text)) == Cut(text)
  {
    if |text| >= NAME_SIZE {
      CStringOfFilled(text[..NAME_SIZE], "");
      assert text[..NAME_SIZE] + "" == NameBuffer(text);
      assert Cut(text) == text[..NAME_SIZE];
    } else {
      CStringOfFilled(text, seq(NAME_SIZE - |text|, _ => '\0'));
    }
  }

  // ----- What the player gets to see -----

  /**
   Locking leaves a table of the lobbies that are not too old. Each keeps what it holds, but for its link and, if names are
   edited, its name: the text before it, the host's own name, the text behind it.
   */
  lemma LockIsExact(m: Manager, d: Display, clocks: seq<nat>, i: nat)
    requires |clocks| == |m.lobbies| && i < |Lock(m, d, clocks).manager.lobbies| && !(m.lobbies == [] && !m.statusUsed)
    ensures
      var kept := Pruned(m.lobbies, 2, clocks);
      var after := Lock(m, d, clocks).manager.lobbies;
      var text := d.prefix(kept[i].ad.facts) + kept[i].originalName + d.suffix(kept[i].ad.facts);
      && |after| == |kept|
      && after[i].originalName == kept[i].originalName && after[i].ad.facts == kept[i].ad.facts
      && after[i].ad.hostLastTime == kept[i].ad.hostLastTime && after[i].ad.gameIndex == kept[i].ad.gameIndex
      && after[i].ad.pExtra == kept[i].ad.pExtra
      && (!m.editName ==> after[i].ad.gameName == kept[i].ad.gameName)
      && (m.editName && (forall k :: 0 <= k < |text| ==> text[k] != '\0') ==> CString(after[i].ad.gameName) == Cut(text))
  {
    var kept := Pruned(m.lobbies, 2, clocks);
    var text := d.prefix(kept[i].ad.facts) + kept[i].originalName + d.suffix(kept[i].ad.facts);
    if forall k :: 0 <= k < |text| ==> text[k] != '\0' { NameIsText(text); }
  }

  /** Locking succeeds exactly if there is something to show, and the head is the first of it. */
  lemma LockSucceeds(m: Manager, d: Display, clocks: seq<nat>)
    requires |clocks| == |m.lobbies|
    ensures
      var l := Lock(m, d, clocks);
      && (l.ok <==> m.statusUsed || Pruned(m.lobbies, 2, clocks) != [])
      && l.head == (if m.statusUsed then StatusSlot else if l.ok then Slot(0) else Null)
      && l.manager.statusUsed == m.statusUsed && l.manager.editName == m.editName
  {
    if m.lobbies == [] { assert Pruned(m.lobbies, 2, clocks) == []; }
  }

  /** The status ad is hidden as a game in progress if there is no status, and else is open under the status as its name. */
  lemma StatusIsShown(m: Manager, d: Display, clocks: seq<nat>)
    requires |clocks| == |m.lobbies| && Lock(m, d, clocks).ok
    requires forall i :: 0 <= i < |d.status| ==> d.status[i] != '\0'
    ensures
      var s := Lock(m, d, clocks).manager.status;
      && s.facts == m.status.facts.(state := if |d.status| == 0 then 12 else 0)
      && (if |d.status| == 0 then s.gameName == m.status.gameName else CString(s.gameName) == Cut(d.status))
      && s.gameIndex == m.status.gameIndex && s.hostLastTime == m.status.hostLastTime && s.pExtra == m.status.pExtra
  {
    NameIsText(d.status);
  }

  lemma {:induction false} AllPruned(es: seq<LobbyEntry>, seconds: nat, clocks: seq<nat>)
    requires |clocks| == |es| && forall i :: 0 <= i < |es| ==> Age(es[i], clocks[i]) > seconds
    ensures Pruned(es, seconds, clocks) == []
  {
    if es == [] {
    } else {
      AllPruned(es[..|es| - 1], seconds, clocks[..|es| - 1]);
    }
  }

  /** For two seconds after an update the player sees every host that was advertised, and no other. */
  lemma AdvertisedIsShown(m: Manager, ads: seq<AdFile>, now: nat, d: Display, clocks: seq<nat>)
    requires Distinct(Hosts(m.lobbies)) && |clocks| == |Update(m.lobbies, ads, now)|
    requires forall i :: 0 <= i < |clocks| ==> now <= clocks[i] <= now + 2
    ensures
      var l := Lock(m.(lobbies := Update(m.lobbies, ads, now)), d, clocks);
      (set h | h in Hosts(l.manager.lobbies)) == AdHosts(ads)
  {
    var es := Update(m.lobbies, ads, now);
    UpdateIsExact(m.lobbies, ads, now);
    UpdateRefinesMap(m.lobbies, ads, now);
    forall i | 0 <= i < |es| ensures Age(es[i], clocks[i]) <= 2 {
      assert (clocks[i] - now) % TICK_RANGE == clocks[i] - now;
    }
    YoungStay(m.(lobbies := es), d, clocks);
  }

  lemma YoungStay(m: Manager, d: Display, clocks: seq<nat>)
    requires |clocks| == |m.lobbies| && forall i :: 0 <= i < |m.lobbies| ==> Age(m.lobbies[i], clocks[i]) <= 2
    ensures Hosts(Lock(m, d, clocks).manager.lobbies) == Hosts(m.lobbies)
  {
    NothingPruned(m.lobbies, 2, clocks);
    assert Hosts(Displayed(m.lobbies, d, m.editName)) == Hosts(m.lobbies);
  }

  /** And after that, none of them. */
  lemma OldIsNotShown(m: Manager, ads: seq<AdFile>, now: nat, d: Display, clocks: seq<nat>)
    requires Distinct(Hosts(m.lobbies)) && |clocks| == |Update(m.lobbies, ads, now)|
    requires forall i :: 0 <= i < |clocks| ==> now + 2 < clocks[i] < now + TICK_RANGE
    ensures Lock(m.(lobbies := Update(m.lobbies, ads, now)), d, clocks).manager.lobbies == []
  {
    var es := Update(m.lobbies, ads, now);
    UpdateIsExact(m.lobbies, ads, now);
    forall i | 0 <= i < |es| ensures Age(es[i], clocks[i]) > 2 {
      assert (clocks[i] - now) % TICK_RANGE == clocks[i] - now;
    }
    AllPruned(es, 2, clocks);
  }

  /** A look at the table for the game's own list only counts lobbies of the last second. */
  lemma IteratedAreYoung(m: Manager, clocks: seq<nat>) returns (k: nat)
    requires Tidy(m.lobbies) && ClockFits(m.lobbies, clocks)
    ensures k <= |m.lobbies| && Next(m, ListIterated(clocks)) == m.(lobbies := m.lobbies[..k])
    ensures forall i :: 0 <= i < |m.lobbies| ==> (i < k <==> clocks[i] <= m.lobbies[i].ad.hostLastTime + 1)
  {
    k := PruningKeepsPrefix(m.lobbies, 1, clocks);
  }

  /** A new manager has a status ad and nothing else to show. */
  lemma NewListIsStatus(statusFacts: GameFacts, d: Display, steps: nat)
    requires steps > 0
    ensures
      var l := Lock(NewManager(statusFacts), d, []);
      && l.ok && l.head == StatusSlot && Walk(l.manager, l.head, steps) == Some([StatusSlot])
      && l.manager.status.gameIndex == 1 && l.manager.editName
  {
    ListIsComplete(NewManager(statusFacts), d, [], steps);
    assert [StatusSlot] + Slots(0, 0) == [StatusSlot];
  }

  // ----- Whole runs -----

  datatype TableEvent =
    | LobbiesArrive(ads: seq<AdFile>, now: nat)
    | ListLocked(display: Display, clocks: seq<nat>)
    | ListIterated(clocks: seq<nat>)
    | Configured(statusUsed: bool, editName: bool)

  /** Readings that do not fit the clock's assumptions do not occur: they leave the table alone. */
  function Next(m: Manager, e: TableEvent): Manager {
    match e
    case LobbiesArrive(ads, now) => m.(lobbies := Update(m.lobbies, ads, now))
    case ListLocked(d, clocks) => if ClockFits(m.lobbies, clocks) then Lock(m, d, clocks).manager else m
    case ListIterated(clocks) =>
      if ClockFits(m.lobbies, clocks) then m.(lobbies := Pruned(m.lobbies, 1, clocks)) else m
    case Configured(statusUsed, editName) => m.(statusUsed := statusUsed, editName := editName)
  }

  function Exec(m: Manager, run: seq<TableEvent>): Manager {
    if run == [] then m else Next(Exec(m, run[..|run| - 1]), run[|run| - 1])
  }

  lemma DisplayIsTidy(es: seq<LobbyEntry>, d: Display, editName: bool)
    requires Tidy(es)
    ensures Tidy(Displayed(es, d, editName))
  {
    assert Hosts(Displayed(es, d, editName)) == Hosts(es);
  }

  lemma NextIsTidy(m: Manager, e: TableEvent)
    requires Tidy(m.lobbies)
    ensures Tidy(Next(m, e).lobbies)
  {
    match e
    case LobbiesArrive(ads, now) => UpdateIsTidy(m.lobbies, ads, now);
    case ListLocked(d, clocks) =>
      if ClockFits(m.lobbies, clocks) {
        var k := PruningKeepsPrefix(m.lobbies, 2, clocks);
        PrefixIsTidy(m.lobbies, k);
        DisplayIsTidy(Pruned(m.lobbies, 2, clocks), d, m.editName);
      }
    case ListIterated(clocks) =>
      if ClockFits(m.lobbies, clocks) {
        var k := PruningKeepsPrefix(m.lobbies, 1, clocks);
        PrefixIsTidy(m.lobbies, k);
      }
    case Configured(_, _) =>
  }

  /** Numbers are unambiguous: the status ad has the first, and each lobby another. */
  ghost predicate Numbered(m: Manager) {
    && m.status.gameIndex == 1
    && (forall i :: 0 <= i < |m.lobbies| ==> m.lobbies[i].ad.gameIndex >= 2)
    && (forall i, j :: 0 <= i < j < |m.lobbies| ==> m.lobbies[i].ad.gameIndex != m.lobbies[j].ad.gameIndex)
  }

  lemma TidyIsNumbered(m: Manager)
    requires Tidy(m.lobbies) && m.status.gameIndex == 1
    ensures Numbered(m)
  {
  }

  lemma NextKeepsStatusNumber(m: Manager, e: TableEvent)
    ensures Next(m, e).status.gameIndex == m.status.gameIndex
  {
  }

  lemma {:induction false} RunsAreTidy(statusFacts: GameFacts, run: seq<TableEvent>)
    ensures Tidy(Exec(NewManager(statusFacts), run).lobbies) && Exec(NewManager(statusFacts), run).status.gameIndex == 1
  {
    if run == [] {
    } else {
      var before := Exec(NewManager(statusFacts), run[..|run| - 1]);
      RunsAreTidy(statusFacts, run[..|run| - 1]);
      NextIsTidy(before, run[|run| - 1]);
      NextKeepsStatusNumber(before, run[|run| - 1]);
    }
  }

  /** Through any run the table stays tidy, so a number the game was shown always finds the lobby in its slot. */
  lemma TableStaysTidy(statusFacts: GameFacts, run: seq<TableEvent>, index: nat)
    ensures
      var m := Exec(NewManager(statusFacts), run);
      && Tidy(m.lobbies) && Numbered(m)
      && AdByIndex(m.lobbies, index) == if 2 <= index < |m.lobbies| + 2 then Some(m.lobbies[index - 2].ad) else None
  {
    var m := Exec(NewManager(statusFacts), run);
    RunsAreTidy(statusFacts, run);
    TidyIsNumbered(m);
    LookupInvertsNumbering(m.lobbies, index);
  }
}
