/** The lobby table as the object changes it: erased, extended, restamped and linked in place, one entry at a time. */
module AdvertisementManagers {
  import opened Basics
  import opened GameList
  import opened LobbyTable
  import opened Packets

  function WithNext(es: seq<LobbyEntry>, i: nat, next: Pointer): seq<LobbyEntry>
    requires i < |es|
  {
    es[i := es[i].(ad := es[i].ad.(pNext := next))]
  }

  class AdvertisementManager {
    var lobbies: seq<LobbyEntry>
    var statusAd: AdFile
    var statusAdUsed: bool
    var editGameName: bool

    function State(): Manager
      reads this
    {
      Manager(lobbies, statusAd, statusAdUsed, editGameName)
    }

    constructor (statusFacts: GameFacts)
      ensures State() == NewManager(statusFacts)
    {
      lobbies, statusAdUsed, editGameName := [], true, true;
      statusAd := AdFile(statusFacts, NameBuffer(""), 0, 1, Null, StatusSlot);
    }

    /** Whether any of the ads is for the host. */
    static method AnyFor(ads: seq<AdFile>, host: NetAddress) returns (found: bool)
      ensures found <==> host in AdHosts(ads)
    {
      for i := 0 to |ads|
        invariant forall j :: 0 <= j < i ==> ads[j].facts.host != host
      {
        if ads[i].facts.host == host { return true; }
      }
      return false;
    }

    method EraseUnadvertised(ads: seq<AdFile>)
      modifies this
      ensures State() == old(State()).(lobbies := Survivors(old(lobbies), AdHosts(ads)))
    {
      var kept := [];
      for i := 0 to |lobbies|
        invariant State() == old(State())
        invariant kept == Survivors(lobbies[..i], AdHosts(ads))
      {
        var advertised := AnyFor(ads, lobbies[i].Host());
        assert lobbies[..i + 1][..i] == lobbies[..i];
        if advertised { kept := kept + [lobbies[i]]; }
      }
      assert lobbies[..|lobbies|] == lobbies;
      lobbies := kept;
    }

    method FindLobby(host: NetAddress) returns (k: nat)
      ensures k == Find(lobbies, host)
    {
      k := 0;
      while k < |lobbies| && lobbies[k].Host() != host
        invariant k <= |lobbies|
        invariant forall i :: 0 <= i < k ==> lobbies[i].Host() != host
      {
        k := k + 1;
      }
      var first := Find(lobbies, host);
      assert !(first < k) && !(k < first);
    }

    method MergeIncoming(ads: seq<AdFile>)
      modifies this
      ensures State() == old(State()).(lobbies := MergeAll(old(lobbies), ads))
    {
      for i := 0 to |ads|
        invariant State() == old(State()).(lobbies := MergeAll(old(lobbies), ads[..i]))
      {
        var known := FindLobby(ads[i].facts.host);
        assert ads[..i + 1][..i] == ads[..i];
        if known == |lobbies| {
          lobbies := lobbies + [EntryFor(ads[i])];
        } else {
          lobbies := lobbies[known := EntryFor(ads[i])];
        }
      }
      assert ads[..|ads|] == ads;
    }

    method RestampAll(now: nat)
      modifies this
      ensures State() == old(State()).(lobbies := Restamp(old(lobbies), now))
    {
      var index := 1;
      for i := 0 to |lobbies|
        invariant State() == old(State()).(lobbies := lobbies) && |lobbies| == |old(lobbies)| && index == i + 1
        invariant forall j :: 0 <= j < i ==> lobbies[j] == Stamp(old(lobbies)[j], j, now)
        invariant forall j :: i <= j < |lobbies| ==> lobbies[j] == old(lobbies)[j]
      {
        index := index + 1;
        var stamped := lobbies[i].ad.(hostLastTime := now, gameIndex := index, pExtra := Slot(i));
        lobbies := lobbies[i := lobbies[i].(ad := stamped)];
      }
      assert lobbies == Restamp(old(lobbies), now);
    }

    method UpdateLobbies(ads: seq<AdFile>, now: nat)
      modifies this
      ensures State() == old(State()).(lobbies := Update(old(lobbies), ads, now))
    {
      EraseUnadvertised(ads);
      MergeIncoming(ads);
      RestampAll(now);
    }

    /** `clocks` are the readings of the clock, one for each entry. */
    method PruneLobbiesOlderThan(seconds: nat, clocks: seq<nat>)
      requires |clocks| == |lobbies|
      modifies this
      ensures State() == old(State()).(lobbies := Pruned(old(lobbies), seconds, clocks))
    {
      var kept := [];
      for i := 0 to |lobbies|
        invariant State() == old(State())
        invariant kept == Pruned(lobbies[..i], seconds, clocks[..i])
      {
        assert lobbies[..i + 1][..i] == lobbies[..i] && clocks[..i + 1][..i] == clocks[..i];
        if Age(lobbies[i], clocks[i]) <= seconds { kept := kept + [lobbies[i]]; }
      }
      assert lobbies[..|lobbies|] == lobbies && clocks[..|lobbies|] == clocks;
      lobbies := kept;
    }

    method UpdateStatusAd(d: Display)
      modifies this
      ensures State() == old(State()).(status := StatusShown(old(statusAd), d))
    {
      if d.status == "" {
        statusAd := statusAd.(facts := statusAd.facts.(state := 12));
        return;
      }
      statusAd := statusAd.(facts := statusAd.facts.(state := 0), gameName := NameBuffer(d.status));
    }

    /** Writes the link of the ad at `p`. */
    method SetNext(p: Pointer, next: Pointer)
      requires p != Null && (p.Slot? ==> p.index < |lobbies|)
      modifies this
      ensures p.StatusSlot? ==> State() == old(State()).(status := old(statusAd).(pNext := next))
      ensures p.Slot? ==> State() == old(State()).(lobbies := WithNext(old(lobbies), p.index, next))
    {
      if p.StatusSlot? {
        statusAd := statusAd.(pNext := next);
      } else {
        lobbies := WithNext(lobbies, p.index, next);
      }
    }

    method LockGameList(d: Display, clocks: seq<nat>) returns (ok: bool, head: Pointer)
      requires |clocks| == |lobbies|
      modifies this
      ensures Locked(State(), ok, head) == Lock(old(State()), d, clocks)
    {
      if !statusAdUsed && lobbies == [] { return false, Null; }
      UpdateStatusAd(d);
      PruneLobbiesOlderThan(2, clocks);
      LinkAndName(d);
      if statusAdUsed { return true, StatusSlot; }
      if lobbies != [] { return true, Slot(0); }
      return false, Null;
    }

    method LinkAndName(d: Display)
      modifies this
      ensures State() == old(State()).(
                lobbies := Displayed(old(lobbies), d, editGameName),
                status := old(statusAd).(pNext := if old(lobbies) == [] then Null else Slot(0)))
    {
      var lastAd := StatusSlot;
      ghost var n := |lobbies|;
      for i := 0 to |lobbies|
        invariant |lobbies| == n && State() == old(State()).(lobbies := lobbies, status := statusAd)
        invariant lastAd == if i == 0 then StatusSlot else Slot(i - 1)
        invariant statusAd == old(statusAd).(pNext := if i == 0 then old(statusAd).pNext else Slot(0))
        invariant forall j :: 0 <= j < i - 1 ==> lobbies[j] == Shown(old(lobbies)[j], j, n, d, editGameName)
        invariant i > 0 ==> lobbies[i - 1] == Named(old(lobbies)[i - 1], d, editGameName)
        invariant forall j :: i <= j < n ==> lobbies[j] == old(lobbies)[j]
      {
        lobbies := lobbies[i := Named(lobbies[i], d, editGameName)];
        SetNext(lastAd, Slot(i));
        lastAd := Slot(i);
      }
      SetNext(lastAd, Null);
      assert lobbies == Displayed(old(lobbies), d, editGameName);
    }

    method GetAdByIndex(index: nat) returns (ad: Option<AdFile>)
      ensures ad == AdByIndex(lobbies, index)
    {
      for i := 0 to |lobbies|
        invariant AdByIndex(lobbies, index) == AdByIndex(lobbies[i..], index)
      {
        if lobbies[i].ad.gameIndex == index { return Some(lobbies[i].ad); }
        assert lobbies[i..][1..] == lobbies[i + 1..];
      }
      assert lobbies[|lobbies|..] == [];
      return None;
    }
  }
}
