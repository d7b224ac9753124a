/**
 What one connection request achieves from any reachable state with nothing in flight, however the state came
 about: by loss, repetition, reordering or failure.
 */
module Recovery {
  import opened Basics
  import opened JuiceSession
  import opened Signalling
  import opened Hygiene

  function Oldest(w: Net): Event {
    Deliver(if w.toCtl != [] then Ctl else Fol, 0)
  }

  /** Delivers `n` messages, oldest first. When nothing is in flight it changes nothing. */
  function Flush(w: Net, n: nat): Net
    decreases n
  {
    if n == 0 then w else Flush(Next(w, Oldest(w)), n - 1)
  }

  /**
   The controlling agent is in a session that the follower's counter does not renew. A request from the
   follower then achieves nothing, nor does one from the controlling agent if the follower has no session.
   */
  predicate Stuck(w: Net, side: Side) {
    && w.ctl.IsEngaged()
    && w.ctl.theirs == w.fol.ours
    && (side == Ctl ==> w.fol.state == Disconnected)
  }

  lemma FlushDrained(w: Net, n: nat)
    requires w.Drained()
    ensures Flush(w, n) == w
  {
  }

  /** A follower without a session takes the description and answers with its own. */
  lemma OfferIsAnswered(w: Net)
    requires Sound(w) && w.toCtl == [] && w.toFol == [LocalDescription(w.ctl.localSdp)]
    requires w.ctl.IsEngaged() && w.fol.state == Disconnected
    ensures
      var w' := Next(w, Deliver(Fol, 0));
      && w'.ctl == w.ctl && w'.fol.IsEngaged() && w'.fol.remoteSdp == w.ctl.localSdp
      && w'.fol.localSdp == DescriptionOf(w.fol.instance)
      && w'.toFol == [] && w'.toCtl == [LocalDescription(w'.fol.localSdp)]
  {
  }

  lemma AnswerIsTaken(w: Net)
    requires w.toFol == [] && w.toCtl == [LocalDescription(w.fol.localSdp)]
    requires w.ctl.IsEngaged() && w.ctl.remoteSdp == EMPTY && w.ctl.localSdp != EMPTY
    requires w.fol.IsEngaged() && w.fol.localSdp != EMPTY && w.fol.remoteSdp == w.ctl.localSdp
    ensures
      var w' := Next(w, Deliver(Ctl, 0));
      w'.Drained() && Agreement(w') && w'.ctl.IsEngaged() && w'.ctl.theirs == w.ctl.theirs
  {
  }

  /** Two deliveries from the controlling agent's description to agreement. */
  lemma OfferCompletes(w: Net, n: nat)
    requires Sound(w) && w.toCtl == [] && w.toFol == [LocalDescription(w.ctl.localSdp)] && n >= 2
    requires w.ctl.IsEngaged() && w.ctl.remoteSdp == EMPTY && w.fol.state == Disconnected
    ensures Flush(w, n).Drained() && Agreement(Flush(w, n))
  {
    OfferIsAnswered(w);
    var w1 := Next(w, Deliver(Fol, 0));
    AnswerIsTaken(w1);
    FlushDrained(Next(w1, Deliver(Ctl, 0)), n - 2);
  }

  /** A request that renews the controlling agent's session makes it announce an instance the follower does not hold. */
  lemma RequestRenews(w: Net, counter: nat)
    requires Sound(w) && w.toFol == [] && w.toCtl == [ConnectionRequest(counter)]
    requires w.ctl.theirs <= counter <= w.fol.ours && (w.ctl.IsEngaged() ==> w.ctl.theirs < counter)
    ensures
      var w' := Next(w, Deliver(Ctl, 0));
      && Sound(w') && w'.fol == w.fol && w'.ctl.IsEngaged() && w'.ctl.remoteSdp == EMPTY
      && w'.ctl.theirs == counter
      && w'.toCtl == [] && w'.toFol == [LocalDescription(w'.ctl.localSdp)]
      && w'.fol.remoteSdp != w'.ctl.localSdp
  {
    NextKeeps(w, Deliver(Ctl, 0));
  }

  /** With the follower DISCONNECTED, agreement is three deliveries away. */
  lemma RequestToCtlCompletes(w: Net, counter: nat, n: nat)
    requires Sound(w) && w.toFol == [] && w.toCtl == [ConnectionRequest(counter)] && n >= 3
    requires w.ctl.theirs <= counter <= w.fol.ours && (w.ctl.IsEngaged() ==> w.ctl.theirs < counter)
    requires w.fol.state == Disconnected
    ensures Flush(w, n).Drained() && Agreement(Flush(w, n))
  {
    RequestRenews(w, counter);
    OfferCompletes(Next(w, Deliver(Ctl, 0)), n - 1);
  }

  /** A follower in an older session sees a description it does not hold, starts over and asks anew. */
  lemma OfferReplaces(w: Net)
    requires Sound(w) && w.toCtl == [] && w.toFol == [LocalDescription(w.ctl.localSdp)]
    requires w.fol.state != Disconnected && w.fol.remoteSdp != w.ctl.localSdp
    ensures
      var w' := Next(w, Deliver(Fol, 0));
      && Sound(w') && w'.ctl == w.ctl && w'.fol == Reset(w.fol)
      && w'.toFol == [] && w'.toCtl == [ConnectionRequest(w'.fol.ours)]
  {
    NextKeeps(w, Deliver(Fol, 0));
  }

  lemma RequestToCtlReplaces(w: Net, counter: nat, n: nat)
    requires Sound(w) && w.toFol == [] && w.toCtl == [ConnectionRequest(counter)] && n >= 5
    requires w.ctl.theirs <= counter <= w.fol.ours && (w.ctl.IsEngaged() ==> w.ctl.theirs < counter)
    requires w.fol.state != Disconnected
    ensures Flush(w, n).Drained() && Agreement(Flush(w, n))
  {
    RequestRenews(w, counter);
    var w1 := Next(w, Deliver(Ctl, 0));
    OfferReplaces(w1);
    var w2 := Next(w1, Deliver(Fol, 0));
    RequestToCtlCompletes(w2, w2.fol.ours, n - 2);
  }

  /** A request to the controlling agent that does not renew its session has no effect. */
  lemma RequestToCtlIgnored(w: Net, n: nat)
    requires Sound(w) && w.toFol == [] && w.toCtl == [ConnectionRequest(w.fol.ours)] && n >= 1
    requires w.ctl.IsEngaged() && w.ctl.theirs == w.fol.ours
    ensures Flush(w, n) == w.(toCtl := []) && !Agreement(w)
  {
    FlushDrained(w.(toCtl := []), n - 1);
  }

  lemma FollowerRequest(w: Net, n: nat)
    requires Sound(w) && w.toFol == [] && w.toCtl == [ConnectionRequest(w.fol.ours)] && n >= 5
    ensures Flush(w, n).Drained()
    ensures Agreement(Flush(w, n)) <==> !(w.ctl.IsEngaged() && w.ctl.theirs == w.fol.ours)
  {
    if w.ctl.IsEngaged() && w.ctl.theirs == w.fol.ours { RequestToCtlIgnored(w, n); }
    else if w.fol.state == Disconnected { RequestToCtlCompletes(w, w.fol.ours, n); }
    else { RequestToCtlReplaces(w, w.fol.ours, n); }
  }

  /** The follower answers a request with one of its own. */
  lemma RequestToFol(w: Net)
    requires Sound(w) && w.toCtl == [] && w.toFol == [ConnectionRequest(w.ctl.ours)]
    ensures
      var w' := Next(w, Deliver(Fol, 0));
      && Sound(w') && w'.ctl == w.ctl && w'.toFol == [] && w'.toCtl == [ConnectionRequest(w'.fol.ours)]
      && (w'.ctl.IsEngaged() && w'.ctl.theirs == w'.fol.ours <==> Stuck(w, Ctl))
      && (w'.fol.state == Disconnected
          <==> w.fol.state == Disconnected || w.fol.state == Failed || w.fol.theirs < w.ctl.ours)
  {
    NextKeeps(w, Deliver(Fol, 0));
  }

  // ----- Main results -----

  /** A connection request leads to agreement, within six deliveries, exactly if the pair is not stuck. */
  lemma RequestRecoversUnlessStuck(w: Net, side: Side)
    requires Sound(w) && w.Drained()
    ensures
      var w' := Flush(Next(w, Request(side)), 6);
      w'.Drained() && (Agreement(w') <==> !Stuck(w, side))
  {
    var asked := Next(w, Request(side));
    NextKeeps(w, Request(side));
    if side == Fol {
      assert asked.toCtl == [ConnectionRequest(w.fol.ours)];
      FollowerRequest(asked, 6);
    } else {
      assert asked.toFol == [ConnectionRequest(w.ctl.ours)];
      RequestToFol(asked);
      FollowerRequest(Next(asked, Deliver(Fol, 0)), 5);
    }
  }

  /**
   A failed agent through which the game sends twice resets itself and then asks. Whatever session its peer is in,
   four deliveries later they agree.
   */
  lemma FailedAgentRecovers(w: Net, side: Side, first: seq<byte>, second: seq<byte>)
    requires Sound(w) && w.Drained() && w.At(side).state == Failed
    ensures
      var w' := Flush(Next(Next(w, SendData(side, first)), SendData(side, second)), 4);
      w'.Drained() && Agreement(w')
  {
    FailedSends(w, side, first, second);
    RenewedSideRecovers(Next(w, SendData(side, first)), side);
  }

  lemma FailedSends(w: Net, side: Side, first: seq<byte>, second: seq<byte>)
    requires Sound(w) && w.Drained() && w.At(side).state == Failed
    ensures
      var reset := Next(w, SendData(side, first));
      && Sound(reset) && reset.Drained()
      && reset.At(side).state == Disconnected && reset.Peer(side).theirs < reset.At(side).ours
      && Next(reset, SendData(side, second)) == Next(reset, Request(side))
  {
    NextKeeps(w, SendData(side, first));
  }

  /** The same for any agent that has been reset, since a reset makes its counter newer than any processed. */
  lemma RenewedSideRecovers(w: Net, side: Side)
    requires Sound(w) && w.Drained()
    requires w.At(side).state == Disconnected && w.Peer(side).theirs < w.At(side).ours
    ensures
      var w' := Flush(Next(w, Request(side)), 4);
      w'.Drained() && Agreement(w')
  {
    NextKeeps(w, Request(side));
    NewRequestRecovers(Next(w, Request(side)), side);
  }

  /** The same for an agent that has been made again, if its peer has processed older counters only. */
  lemma RestartedSideRecovers(w: Net, side: Side, kind: AgentType, tick: Tick)
    requires Sound(w) && w.Drained() && w.Peer(side).theirs < tick
    ensures
      var w' := Flush(Remade(w, side, kind, tick), 4);
      w'.Drained() && Agreement(w')
  {
    RemadeIsSound(w, side, kind, tick);
    NewRequestRecovers(Remade(w, side, kind, tick), side);
  }

  lemma NewRequestRecovers(asked: Net, side: Side)
    requires Sound(asked) && StartsOver(asked, side)
    ensures Flush(asked, 4).Drained() && Agreement(Flush(asked, 4))
  {
    if side == Fol {
      RequestToCtlCompletes(asked, asked.fol.ours, 4);
    } else {
      RequestToFol(asked);
      var w1 := Next(asked, Deliver(Fol, 0));
      RequestToCtlCompletes(w1, w1.fol.ours, 3);
    }
  }

  // ----- An agent made again while the clock shows any time -----

  /**
   The clock with which the new agent starts lets its peer follow: it has passed the counter the peer has processed, or it
   shows just that counter and the peer has no session to hold on to.
   */
  predicate ClockServes(w: Net, side: Side, tick: Tick) {
    || w.Peer(side).theirs < tick
    || (w.Peer(side).theirs == tick && (side == Ctl || !w.ctl.IsEngaged()))
  }

  /** The peer ignores a request older than one it has processed. */
  lemma OldRequestIgnored(w: Net, side: Side, kind: AgentType, tick: Tick, n: nat)
    requires Sound(w) && w.Drained() && tick < w.Peer(side).theirs && n >= 1
    ensures
      var w' := Flush(Remade(w, side, kind, tick), n);
      w'.Drained() && !Agreement(w')
  {
    var asked := Remade(w, side, kind, tick);
    var peer := if side == Ctl then Fol else Ctl;
    assert asked.Inbox(peer) == [ConnectionRequest(tick)] && asked.Inbox(side) == [];
    var w1 := Next(asked, Deliver(peer, 0));
    assert w1.Drained() && w1.At(side).state == Disconnected;
    FlushDrained(w1, n - 1);
  }

  /**
   After an agent is made again, with any type and any reading of the clock, the pair comes to rest within six deliveries.
   It then agrees exactly if the clock serves.
   */
  lemma RestartRecoversIfClockServes(w: Net, side: Side, kind: AgentType, tick: Tick)
    requires Sound(w) && w.Drained()
    ensures
      var w' := Flush(Remade(w, side, kind, tick), 6);
      w'.Drained() && (Agreement(w') <==> ClockServes(w, side, tick))
  {
    var asked := Remade(w, side, kind, tick);
    if tick < w.Peer(side).theirs {
      OldRequestIgnored(w, side, kind, tick, 6);
    } else {
      RemadeIsSound(w, side, kind, tick);
      if side == Fol {
        assert asked.toCtl == [ConnectionRequest(asked.fol.ours)];
        FollowerRequest(asked, 6);
      } else {
        assert asked.toFol == [ConnectionRequest(asked.ctl.ours)];
        RequestToFol(asked);
        FollowerRequest(Next(asked, Deliver(Fol, 0)), 5);
      }
    }
  }

  lemma {:induction false} FlushAdds(w: Net, m: nat, n: nat)
    ensures Flush(w, m + n) == Flush(Flush(w, m), n)
    decreases m
  {
    if m == 0 {
    } else {
      FlushAdds(Next(w, Oldest(w)), m - 1, n);
      assert Flush(w, m) == Flush(Next(w, Oldest(w)), m - 1);
      assert Flush(w, m + n) == Flush(Next(w, Oldest(w)), m - 1 + n);
    }
  }

  /** Both agents start when the clock shows `tick`. After three deliveries there is only a description in flight. */
  lemma FreshOffer(kind: AgentType, tick: Tick)
    ensures
      var w := Flush(Start(kind, tick, tick), 3);
      && w.toCtl == [] && w.toFol == [LocalDescription(w.ctl.localSdp)]
      && w.ctl.IsEngaged() && w.ctl.remoteSdp == EMPTY && w.ctl.theirs == tick && w.fol.state == Disconnected
  {
    var w0 := Start(kind, tick, tick);
    var w1 := Next(w0, Deliver(Ctl, 0));
    assert w1.toCtl == [] && w1.toFol == [ConnectionRequest(tick), LocalDescription(w1.ctl.localSdp)];
    var w2 := Next(w1, Deliver(Fol, 0));
    assert w2.toCtl == [ConnectionRequest(tick)] && w2.toFol == [LocalDescription(w1.ctl.localSdp)];
    var w3 := Next(w2, Deliver(Ctl, 0));
    assert w3.toCtl == [] && w3.toFol == [LocalDescription(w1.ctl.localSdp)] && w3.ctl == w2.ctl;
  }

  lemma FreshDeliveries(kind: AgentType, tick: Tick)
    ensures
      var w := Flush(Start(kind, tick, tick), 5);
      && Sound(w) && w.Drained() && Agreement(w) && w.ctl.IsEngaged() && w.ctl.theirs == tick
  {
    var w := Flush(Start(kind, tick, tick), 3);
    StartIsSound(kind, tick, tick);
    FlushKeeps(Start(kind, tick, tick), 3);
    FlushKeeps(w, 2);
    FlushAdds(Start(kind, tick, tick), 3, 2);
    FreshOffer(kind, tick);
    OfferIsAnswered(w);
    var w1 := Next(w, Deliver(Fol, 0));
    AnswerIsTaken(w1);
    assert Flush(w, 2) == Next(w1, Deliver(Ctl, 0));
  }

  lemma {:induction false} FlushKeeps(w: Net, n: nat)
    requires Sound(w)
    ensures Sound(Flush(w, n))
    decreases n
  {
    if n == 0 {
    } else {
      NextKeeps(w, Oldest(w));
      FlushKeeps(Next(w, Oldest(w)), n - 1);
    }
  }

  /**
   The clock counts whole seconds and can be set back. Two agents made in one second agree; if the follower is made again
   while the clock shows that second, its request is taken for one already processed and the pair is deadlocked.
   */
  lemma SameSecondStrands(kind: AgentType, tick: Tick)
    ensures
      var w := Flush(Start(kind, tick, tick), 5);
      Agreement(w) && w.Drained() && Deadlocked(Flush(Remade(w, Fol, kind, tick), 6))
  {
    FreshDeliveries(kind, tick);
    var w := Flush(Start(kind, tick, tick), 5);
    RemadeIsSound(w, Fol, kind, tick);
    RequestToCtlIgnored(Remade(w, Fol, kind, tick), 6);
  }

  lemma ResetRenews(w: Net, side: Side)
    requires Sound(w)
    ensures
      var w' := Next(w, ChangeType(side, w.At(side).kind));
      Sound(w') && w'.At(side).state == Disconnected && w'.Peer(side).theirs < w'.At(side).ours
  {
    NextKeeps(w, ChangeType(side, w.At(side).kind));
  }

  /** Losing one description is enough to get stuck: then the follower may ask as often as it likes. */
  lemma LostDescriptionSticks(kind: AgentType, ctlTick: Tick, folTick: Tick)
    ensures
      var w := Exec(Start(kind, ctlTick, folTick), [Deliver(Ctl, 0), Deliver(Fol, 0), Drop(Fol, 0), Deliver(Ctl, 0)]);
      Sound(w) && w.Drained() && Stuck(w, Fol) && Stuck(w, Ctl) && Deadlocked(w)
  {
    var s := Start(kind, ctlTick, folTick);
    FourEvents(s, Deliver(Ctl, 0), Deliver(Fol, 0), Drop(Fol, 0), Deliver(Ctl, 0));
    StartIsSound(kind, ctlTick, folTick);
    ExecKeeps(s, [Deliver(Ctl, 0), Deliver(Fol, 0), Drop(Fol, 0), Deliver(Ctl, 0)]);
    LostDescriptionSteps(kind, ctlTick, folTick);
  }

  lemma TwoEvents(w: Net, run: seq<Event>, a: Event, b: Event)
    ensures Exec(w, run + [a, b]) == Next(Next(Exec(w, run), a), b)
  {
    ExecAppend(w, run, a);
    ExecAppend(w, run + [a], b);
    assert run + [a] + [b] == run + [a, b];
  }

  lemma FourEvents(w: Net, a: Event, b: Event, c: Event, d: Event)
    ensures Exec(w, [a, b, c, d]) == Next(Next(Next(Next(w, a), b), c), d)
  {
    TwoEvents(w, [], a, b);
    TwoEvents(w, [a, b], c, d);
    assert [] + [a, b] == [a, b] && [a, b] + [c, d] == [a, b, c, d];
  }

  lemma LostDescriptionSteps(kind: AgentType, ctlTick: Tick, folTick: Tick)
    ensures
      var s := Start(kind, ctlTick, folTick);
      var w := Next(Next(Next(Next(s, Deliver(Ctl, 0)), Deliver(Fol, 0)), Drop(Fol, 0)), Deliver(Ctl, 0));
      w.Drained() && Stuck(w, Fol) && Stuck(w, Ctl)
  {
    var w1 := Next(Start(kind, ctlTick, folTick), Deliver(Ctl, 0));
    assert w1.toCtl == [] && w1.toFol == [ConnectionRequest(ctlTick), LocalDescription(w1.ctl.localSdp)];
    var w2 := Next(w1, Deliver(Fol, 0));
    assert w2.toCtl == [ConnectionRequest(folTick)] && w2.toFol == [LocalDescription(w1.ctl.localSdp)];
    var w3 := Next(w2, Drop(Fol, 0));
    assert w3.toCtl == [ConnectionRequest(folTick)] && w3.toFol == [];
  }

  // ----- A stuck pair stays stuck -----

  /** The follower has no session and no description is on its way to it. */
  ghost predicate Deadlocked(w: Net) {
    && w.ctl.IsEngaged() && w.fol.state == Disconnected
    && w.ctl.theirs == w.fol.ours
    && (forall m :: m in w.toCtl ==> m.ConnectionRequest? || m.Candidate? || m.GatheringDone?)
    && (forall m :: m in w.toFol ==> m.ConnectionRequest? || m.Candidate? || m.GatheringDone?)
  }

  /** With nothing in flight, a pair that no request from either side helps is one. */
  lemma StuckIsDeadlocked(w: Net)
    requires Sound(w) && w.Drained()
    ensures Deadlocked(w) <==> Stuck(w, Ctl)
  {
  }

  /** libjuice reports no failure, and nobody resets an agent or makes it again. */
  predicate Uneventful(e: Event) {
    !e.ChangeType? && !e.Restarted? && !(e.JuiceStateChanged? && e.state == Failed)
  }

  lemma DeadlockDelivers(w: Net, to: Side, i: nat)
    requires Sound(w) && Deadlocked(w) && i < |w.Inbox(to)|
    ensures Deadlocked(Next(w, Deliver(to, i)))
  {
    var m := w.Inbox(to)[i];
    assert Genuine(m, w.Peer(to));
    assert m in w.Inbox(to);
    assert forall x :: x in Without(w.Inbox(to), i) ==> x in w.Inbox(to);
  }

  lemma DeadlockKeeps(w: Net, e: Event)
    requires Sound(w) && Deadlocked(w) && Uneventful(e)
    ensures Deadlocked(Next(w, e))
  {
    if e.Deliver? && e.index < |w.Inbox(e.to)| {
      DeadlockDelivers(w, e.to, e.index);
    }
  }

  /** Until libjuice fails or an agent is reset or made again, no requests, retries or orderings get the pair out. */
  lemma {:induction false} DeadlockLasts(w: Net, run: seq<Event>)
    requires Sound(w) && Deadlocked(w) && forall e :: e in run ==> Uneventful(e)
    ensures Deadlocked(Exec(w, run)) && !Agreement(Exec(w, run))
  {
    if run == [] {
    } else {
      var front := run[..|run| - 1];
      DeadlockLasts(w, front);
      ExecKeeps(w, front);
      DeadlockKeeps(Exec(w, front), run[|run| - 1]);
    }
  }
}
