/**
 Agreement over every interleaving.  The server keeps the order of messages and loses none, libjuice does not
 fail, and a connection request is only made while the agent is DISCONNECTED.  Then the two sides pass through the
 phases below, one after the other, and can only come to rest in the last one.
 */
module Agreement {
  import opened Basics
  import opened JuiceSession
  import opened Packets
  import opened Signalling
  import opened Hygiene

  // ----- Runs without loss, reordering or failure -----

  predicate Orderly(w: Net, e: Event) {
    match e
    case Deliver(_, i) => i == 0
    case Drop(_, _) => false
    case Repeat(_, _) => false
    case Request(at) => w.At(at).state == Disconnected
    case SendData(_, _) => true
    case JuiceStateChanged(_, state) => state != Failed
    case GatheredCandidate(_, _) => true
    case FinishedGathering(_) => true
    case ChangeType(_, _) => false
    case Restarted(_, _, _) => false
  }

  function OrderlyNext(w: Net, e: Event): Net {
    if Orderly(w, e) then Next(w, e) else w
  }

  function OrderlyExec(w: Net, run: seq<Event>): Net {
    if run == [] then w else OrderlyNext(OrderlyExec(w, run[..|run| - 1]), run[|run| - 1])
  }

  // ----- What is in flight -----

  /** Messages that only concern the candidates of an instance. */
  predicate Chatter(m: Message) {
    m.Candidate? || m.GatheringDone?
  }

  /** A request with a counter from `lo` to `hi`; chatter from an earlier session too, if there was one. */
  predicate Asking(m: Message, lo: nat, hi: nat, stale: bool) {
    (m.ConnectionRequest? && lo <= m.counter <= hi) || (stale && Chatter(m))
  }

  ghost predicate AllAsking(ms: seq<Message>, lo: nat, hi: nat, stale: bool) {
    forall i :: 0 <= i < |ms| ==> Asking(ms[i], lo, hi, stale)
  }

  ghost predicate AllChatter(ms: seq<Message>) {
    forall i :: 0 <= i < |ms| ==> Chatter(ms[i])
  }

  ghost predicate SomeRequest(ms: seq<Message>) {
    exists i :: 0 <= i < |ms| && ms[i].ConnectionRequest?
  }

  /** Requests, then the description `sdp`, then the candidates of its instance. */
  ghost predicate Carrying(ms: seq<Message>, k: nat, sdp: Sdp, lo: nat, hi: nat, stale: bool) {
    && k < |ms| && ms[k] == LocalDescription(sdp)
    && (forall i :: 0 <= i < k ==> Asking(ms[i], lo, hi, stale))
    && (forall i :: k < i < |ms| ==> Chatter(ms[i]))
  }

  // ----- Phases -----

  /** Nobody has announced anything; a request is on its way. */
  ghost predicate Waiting(w: Net, stale: bool) {
    && w.ctl.state == Disconnected && w.fol.state == Disconnected
    && AllAsking(w.toFol, w.ctl.ours, w.ctl.ours, stale)
    && AllAsking(w.toCtl, w.fol.ours, w.fol.ours, stale)
    && (SomeRequest(w.toFol) || SomeRequest(w.toCtl))
  }

  /** The controlling agent starts over; the follower is still in an earlier session. */
  ghost predicate StaleFollower(w: Net) {
    && w.ctl.state == Disconnected && w.fol.state != Disconnected
    && w.fol.theirs < w.ctl.ours
    && AllAsking(w.toFol, w.ctl.ours, w.ctl.ours, true) && SomeRequest(w.toFol)
    && AllChatter(w.toCtl)
  }

  /** The follower starts over; the controlling agent is still in an earlier session. */
  ghost predicate StaleController(w: Net) {
    && w.fol.state == Disconnected && w.ctl.state != Disconnected
    && w.ctl.theirs < w.fol.ours
    && AllAsking(w.toCtl, w.fol.ours, w.fol.ours, true) && SomeRequest(w.toCtl)
    && AllChatter(w.toFol)
  }

  /** The controlling agent's description is on its way. */
  ghost predicate Offered(w: Net, stale: bool) {
    && w.ctl.IsEngaged() && w.ctl.remoteSdp == EMPTY && w.fol.state == Disconnected
    && w.ctl.theirs == w.fol.ours
    && AllAsking(w.toCtl, w.fol.ours, w.fol.ours, stale)
    && exists k: nat :: Carrying(w.toFol, k, w.ctl.localSdp, 0, w.ctl.ours, stale)
  }

  /** The follower has it, and the follower's description is on its way. */
  ghost predicate Answered(w: Net, stale: bool) {
    && w.ctl.IsEngaged() && w.fol.IsEngaged()
    && w.ctl.remoteSdp == EMPTY && w.fol.remoteSdp == w.ctl.localSdp
    && AllChatter(w.toFol)
    && exists k: nat :: Carrying(w.toCtl, k, w.fol.localSdp, w.ctl.theirs, w.ctl.theirs, stale)
  }

  ghost predicate Settled(w: Net) {
    && Agreement(w) && w.ctl.IsEngaged() && w.fol.IsEngaged()
    && AllChatter(w.toCtl) && AllChatter(w.toFol)
  }

  /**
   Some phase, with no instance newer than `ctlLimit` and `folLimit`.  An agent still in an earlier session has
   one reset left.
   */
  ghost predicate InPhase(w: Net, stale: bool, ctlLimit: nat, folLimit: nat) {
    && Sound(w)
    && w.ctl.instance <= ctlLimit && w.fol.instance <= folLimit
    && (|| Waiting(w, stale)
        || (stale && StaleFollower(w) && w.fol.instance < folLimit)
        || (stale && StaleController(w) && w.ctl.instance < ctlLimit)
        || Offered(w, stale)
        || Answered(w, stale)
        || Settled(w))
  }

  // ----- Each delivery -----

  lemma RequestStays(ms: seq<Message>)
    requires SomeRequest(ms) && !ms[0].ConnectionRequest?
    ensures SomeRequest(Without(ms, 0))
  {
    var i :| 0 <= i < |ms| && ms[i].ConnectionRequest?;
    assert Without(ms, 0)[i - 1] == ms[i];
  }

  lemma ChatterIsQuiet(w: Net, to: Side)
    requires w.Inbox(to) != [] && Chatter(w.Inbox(to)[0])
    ensures
      var w' := Next(w, Deliver(to, 0));
      && w'.At(to) == w.At(to).(calls := w'.At(to).calls) && w'.Peer(to) == w.Peer(to)
      && w'.Inbox(to) == Without(w.Inbox(to), 0)
      && w'.toCtl == (if to == Ctl then Without(w.toCtl, 0) else w.toCtl)
      && w'.toFol == (if to == Fol then Without(w.toFol, 0) else w.toFol)
  {
  }

  lemma WaitingDelivers(w: Net, to: Side, stale: bool, c: nat, f: nat)
    requires InPhase(w, stale, c, f) && Waiting(w, stale) && w.Inbox(to) != []
    ensures InPhase(Next(w, Deliver(to, 0)), stale, c, f)
  {
    var w' := Next(w, Deliver(to, 0));
    NextKeeps(w, Deliver(to, 0));
    var m := w.Inbox(to)[0];
    if m.ConnectionRequest? {
      if to == Ctl {
        assert Carrying(w'.toFol, |w.toFol|, w'.ctl.localSdp, 0, w'.ctl.ours, stale);
      } else {
        assert w'.toCtl[|w.toCtl|].ConnectionRequest?;
      }
    } else {
      ChatterIsQuiet(w, to);
      if SomeRequest(w.Inbox(to)) { RequestStays(w.Inbox(to)); }
    }
  }

  lemma StaleFollowerDelivers(w: Net, to: Side, c: nat, f: nat)
    requires InPhase(w, true, c, f) && StaleFollower(w) && w.fol.instance < f && w.Inbox(to) != []
    ensures InPhase(Next(w, Deliver(to, 0)), true, c, f)
  {
    var w' := Next(w, Deliver(to, 0));
    NextKeeps(w, Deliver(to, 0));
    var m := w.Inbox(to)[0];
    if to == Fol && m.ConnectionRequest? {
      assert w'.toCtl[|w.toCtl|].ConnectionRequest?;
      assert Waiting(w', true);
    } else {
      ChatterIsQuiet(w, to);
      if to == Fol { RequestStays(w.toFol); }
    }
  }

  lemma StaleControllerDelivers(w: Net, to: Side, c: nat, f: nat)
    requires InPhase(w, true, c, f) && StaleController(w) && w.ctl.instance < c && w.Inbox(to) != []
    ensures InPhase(Next(w, Deliver(to, 0)), true, c, f)
  {
    var w' := Next(w, Deliver(to, 0));
    NextKeeps(w, Deliver(to, 0));
    var m := w.Inbox(to)[0];
    if to == Ctl && m.ConnectionRequest? {
      assert Carrying(w'.toFol, |w.toFol|, w'.ctl.localSdp, 0, w'.ctl.ours, true);
    } else {
      ChatterIsQuiet(w, to);
      if to == Ctl { RequestStays(w.toCtl); }
    }
  }

  /** The controlling agent does not restart for the requests it has already processed. */
  lemma OfferedToCtl(w: Net, stale: bool, c: nat, f: nat)
    requires InPhase(w, stale, c, f) && Offered(w, stale) && w.toCtl != []
    ensures InPhase(Next(w, Deliver(Ctl, 0)), stale, c, f)
  {
    var w' := Next(w, Deliver(Ctl, 0));
    NextKeeps(w, Deliver(Ctl, 0));
    var k: nat :| Carrying(w.toFol, k, w.ctl.localSdp, 0, w.ctl.ours, stale);
    assert Asking(w.toCtl[0], w.fol.ours, w.fol.ours, stale);
    assert w'.toFol == w.toFol && w'.ctl == w.ctl.(calls := w'.ctl.calls);
    assert Carrying(w'.toFol, k, w'.ctl.localSdp, 0, w'.ctl.ours, stale);
  }

  lemma OfferedDelivers(w: Net, to: Side, stale: bool, c: nat, f: nat)
    requires InPhase(w, stale, c, f) && Offered(w, stale) && w.Inbox(to) != []
    ensures InPhase(Next(w, Deliver(to, 0)), stale, c, f)
  {
    if to == Ctl { OfferedToCtl(w, stale, c, f); } else { OfferedToFol(w, stale, c, f); }
  }

  lemma OfferedToFol(w: Net, stale: bool, c: nat, f: nat)
    requires InPhase(w, stale, c, f) && Offered(w, stale) && w.toFol != []
    ensures InPhase(Next(w, Deliver(Fol, 0)), stale, c, f)
  {
    var w' := Next(w, Deliver(Fol, 0));
    NextKeeps(w, Deliver(Fol, 0));
    var k: nat :| Carrying(w.toFol, k, w.ctl.localSdp, 0, w.ctl.ours, stale);
    if k == 0 {
      assert Carrying(w'.toCtl, |w.toCtl|, w'.fol.localSdp, w'.ctl.theirs, w'.ctl.theirs, stale);
    } else {
      assert Carrying(w'.toFol, k - 1, w'.ctl.localSdp, 0, w'.ctl.ours, stale);
    }
  }

  lemma AnsweredToFol(w: Net, stale: bool, c: nat, f: nat)
    requires InPhase(w, stale, c, f) && Answered(w, stale) && w.toFol != []
    ensures InPhase(Next(w, Deliver(Fol, 0)), stale, c, f)
  {
    var w' := Next(w, Deliver(Fol, 0));
    NextKeeps(w, Deliver(Fol, 0));
    var k: nat :| Carrying(w.toCtl, k, w.fol.localSdp, w.ctl.theirs, w.ctl.theirs, stale);
    assert w'.toCtl == w.toCtl && w'.fol == w.fol.(calls := w'.fol.calls);
    assert Carrying(w'.toCtl, k, w'.fol.localSdp, w'.ctl.theirs, w'.ctl.theirs, stale);
  }

  lemma AnsweredToCtl(w: Net, stale: bool, c: nat, f: nat)
    requires InPhase(w, stale, c, f) && Answered(w, stale) && w.toCtl != []
    ensures InPhase(Next(w, Deliver(Ctl, 0)), stale, c, f)
  {
    var w' := Next(w, Deliver(Ctl, 0));
    NextKeeps(w, Deliver(Ctl, 0));
    var k: nat :| Carrying(w.toCtl, k, w.fol.localSdp, w.ctl.theirs, w.ctl.theirs, stale);
    if k == 0 {
      assert Settled(w');
    } else {
      assert Carrying(w'.toCtl, k - 1, w'.fol.localSdp, w'.ctl.theirs, w'.ctl.theirs, stale);
    }
  }

  lemma AnsweredDelivers(w: Net, to: Side, stale: bool, c: nat, f: nat)
    requires InPhase(w, stale, c, f) && Answered(w, stale) && w.Inbox(to) != []
    ensures InPhase(Next(w, Deliver(to, 0)), stale, c, f)
  {
    if to == Ctl { AnsweredToCtl(w, stale, c, f); } else { AnsweredToFol(w, stale, c, f); }
  }

  lemma DeliveryKeepsPhase(w: Net, to: Side, stale: bool, c: nat, f: nat)
    requires InPhase(w, stale, c, f) && w.Inbox(to) != []
    ensures InPhase(Next(w, Deliver(to, 0)), stale, c, f)
  {
    if Waiting(w, stale) { WaitingDelivers(w, to, stale, c, f); }
    else if stale && StaleFollower(w) { StaleFollowerDelivers(w, to, c, f); }
    else if stale && StaleController(w) { StaleControllerDelivers(w, to, c, f); }
    else if Offered(w, stale) { OfferedDelivers(w, to, stale, c, f); }
    else if Answered(w, stale) { AnsweredDelivers(w, to, stale, c, f); }
    else { NextKeeps(w, Deliver(to, 0)); }
  }

  // ----- Everything else -----

  /** What an agent may add to its outgoing channel without a delivery. */
  predicate MaySend(a: Agent, m: Message) {
    if a.state == Disconnected then m == ConnectionRequest(a.ours) else Chatter(m)
  }

  lemma SendingKeepsPhase(w: Net, at: Side, sent: seq<Message>, stale: bool, c: nat, f: nat)
    requires InPhase(w, stale, c, f) && forall i :: 0 <= i < |sent| ==> MaySend(w.At(at), sent[i])
    requires Sound(w.Take(at, Step(w.At(at), sent)))
    ensures InPhase(w.Take(at, Step(w.At(at), sent)), stale, c, f)
  {
    var w' := w.Take(at, Step(w.At(at), sent));
    assert forall i :: 0 <= i < |w.toFol| ==> w'.toFol[i] == w.toFol[i];
    assert forall i :: 0 <= i < |w.toCtl| ==> w'.toCtl[i] == w.toCtl[i];
    if Offered(w, stale) {
      var k: nat :| Carrying(w.toFol, k, w.ctl.localSdp, 0, w.ctl.ours, stale);
      assert Carrying(w'.toFol, k, w'.ctl.localSdp, 0, w'.ctl.ours, stale);
    } else if Answered(w, stale) {
      var k: nat :| Carrying(w.toCtl, k, w.fol.localSdp, w.ctl.theirs, w.ctl.theirs, stale);
      assert Carrying(w'.toCtl, k, w'.fol.localSdp, w'.ctl.theirs, w'.ctl.theirs, stale);
    }
  }

  /** A report from libjuice, or a datagram handed to it: only the state or the log of calls changes. */
  lemma LocalChangeKeepsPhase(w: Net, at: Side, b: Agent, stale: bool, c: nat, f: nat)
    requires InPhase(w, stale, c, f)
    requires w.At(at).IsEngaged() && b.IsEngaged() && b == w.At(at).(state := b.state, calls := b.calls)
    requires Sound(w.Take(at, Step(b, [])))
    ensures InPhase(w.Take(at, Step(b, [])), stale, c, f)
  {
    var w' := w.Take(at, Step(b, []));
    assert w'.toFol == w.toFol && w'.toCtl == w.toCtl;
  }

  /** A failed agent resets itself when the game sends through it. Only a session from before can have failed. */
  lemma SelfResetKeepsPhase(w: Net, at: Side, stale: bool, c: nat, f: nat)
    requires InPhase(w, stale, c, f) && w.At(at).state == Failed
    requires Sound(w.Take(at, Step(Reset(w.At(at)), [])))
    ensures InPhase(w.Take(at, Step(Reset(w.At(at)), [])), stale, c, f)
  {
    var w' := w.Take(at, Step(Reset(w.At(at)), []));
    assert w'.toFol == w.toFol && w'.toCtl == w.toCtl;
    assert Waiting(w', stale);
  }

  lemma SendDataKeepsPhase(w: Net, at: Side, data: seq<byte>, stale: bool, c: nat, f: nat)
    requires InPhase(w, stale, c, f)
    ensures InPhase(Next(w, SendData(at, data)), stale, c, f)
  {
    NextKeeps(w, SendData(at, data));
    var s := SendMessage(w.At(at), data);
    if w.At(at).state == Failed { SelfResetKeepsPhase(w, at, stale, c, f); }
    else if w.At(at).state == Disconnected { SendingKeepsPhase(w, at, s.sent, stale, c, f); }
    else { LocalChangeKeepsPhase(w, at, s.agent, stale, c, f); }
  }

  lemma ReportKeepsPhase(w: Net, at: Side, state: JuiceState, stale: bool, c: nat, f: nat)
    requires InPhase(w, stale, c, f) && state != Failed
    ensures InPhase(Next(w, JuiceStateChanged(at, state)), stale, c, f)
  {
    NextKeeps(w, JuiceStateChanged(at, state));
    if MayReport(w.At(at), state) {
      LocalChangeKeepsPhase(w, at, StateChanged(w.At(at), state), stale, c, f);
    }
  }

  lemma GatheringKeepsPhase(w: Net, at: Side, sent: seq<Message>, stale: bool, c: nat, f: nat)
    requires InPhase(w, stale, c, f) && w.At(at).state != Disconnected && AllChatter(sent)
    ensures InPhase(w.Take(at, Step(w.At(at), sent)), stale, c, f)
  {
    SendingKeeps(w, at, sent);
    SendingKeepsPhase(w, at, sent, stale, c, f);
  }

  lemma RequestKeepsPhase(w: Net, at: Side, stale: bool, c: nat, f: nat)
    requires InPhase(w, stale, c, f) && w.At(at).state == Disconnected
    ensures InPhase(Next(w, Request(at)), stale, c, f)
  {
    NextKeeps(w, Request(at));
    SendingKeepsPhase(w, at, [ConnectionRequest(w.At(at).ours)], stale, c, f);
  }

  lemma NextKeepsPhase(w: Net, e: Event, stale: bool, c: nat, f: nat)
    requires InPhase(w, stale, c, f) && Orderly(w, e)
    ensures InPhase(Next(w, e), stale, c, f)
  {
    match e
    case Deliver(to, i) => if w.Inbox(to) != [] { DeliveryKeepsPhase(w, to, stale, c, f); }
    case Request(at) => RequestKeepsPhase(w, at, stale, c, f);
    case SendData(at, data) => SendDataKeepsPhase(w, at, data, stale, c, f);
    case JuiceStateChanged(at, state) => ReportKeepsPhase(w, at, state, stale, c, f);
    case GatheredCandidate(at, candidate) =>
      if w.At(at).state != Disconnected {
        GatheringKeepsPhase(w, at, LocalCandidate(w.At(at), candidate), stale, c, f);
      }
    case FinishedGathering(at) =>
      if w.At(at).state != Disconnected { GatheringKeepsPhase(w, at, [GatheringDone], stale, c, f); }
  }

  lemma {:induction false} ExecKeepsPhase(w: Net, run: seq<Event>, stale: bool, c: nat, f: nat)
    requires InPhase(w, stale, c, f)
    ensures InPhase(OrderlyExec(w, run), stale, c, f)
  {
    if run == [] {
    } else {
      var before := OrderlyExec(w, run[..|run| - 1]);
      ExecKeepsPhase(w, run[..|run| - 1], stale, c, f);
      if Orderly(before, run[|run| - 1]) {
        NextKeepsPhase(before, run[|run| - 1], stale, c, f);
      }
    }
  }

  // ----- Main results -----

  /**
   From two fresh agents: no run resets either of them, and once nothing is in flight they agree.
   */
  lemma FreshAgentsAgree(kind: AgentType, ctlTick: Tick, folTick: Tick, run: seq<Event>)
    ensures
      var w := OrderlyExec(Start(kind, ctlTick, folTick), run);
      && w.ctl.instance == 0 && w.fol.instance == 0
      && (w.Drained() ==> Agreement(w))
  {
    var start := Start(kind, ctlTick, folTick);
    StartIsSound(kind, ctlTick, folTick);
    assert start.toFol[0].ConnectionRequest?;
    assert Waiting(start, false);
    ExecKeepsPhase(start, run, false, 0, 0);
  }

  /**
   A side has no session, and the request that its peer has not processed is all there is in flight. Then no run resets
   that side, none resets its peer more than once, and when nothing is in flight they agree.
   */
  lemma RequestAgrees(asked: Net, side: Side, run: seq<Event>)
    requires Sound(asked) && StartsOver(asked, side)
    ensures
      var w := OrderlyExec(asked, run);
      && w.At(side).instance == asked.At(side).instance
      && asked.Peer(side).instance <= w.Peer(side).instance <= asked.Peer(side).instance + 1
      && (w.Drained() ==> Agreement(w))
  {
    var c := asked.ctl.instance + if side == Ctl then 0 else 1;
    var f := asked.fol.instance + if side == Fol then 0 else 1;
    StartsInPhase(asked, side);
    ExecKeepsPhase(asked, run, true, c, f);
    OrderlyEvolves(asked, run, Ctl);
    OrderlyEvolves(asked, run, Fol);
  }

  lemma StartsInPhase(w: Net, side: Side)
    requires Sound(w) && StartsOver(w, side)
    ensures
      var c := w.ctl.instance + if side == Ctl then 0 else 1;
      var f := w.fol.instance + if side == Fol then 0 else 1;
      InPhase(w, true, c, f)
  {
    assert w.Inbox(if side == Ctl then Fol else Ctl)[0].ConnectionRequest?;
  }

  /**
   From any reachable state with nothing in flight, whatever session the peer is in: once one side has reset itself
   and asked for a connection, no run resets that side again, none resets its peer more than once, and when
   nothing is in flight they agree.
   */
  lemma ResetAndRequestAgree(w: Net, side: Side, run: seq<Event>)
    requires Sound(w) && w.Drained()
    ensures
      var reset := Next(w, ChangeType(side, w.At(side).kind));
      var w' := OrderlyExec(Next(reset, Request(side)), run);
      && w'.At(side).instance == w.At(side).instance + 1
      && w.Peer(side).instance <= w'.Peer(side).instance <= w.Peer(side).instance + 1
      && (w'.Drained() ==> Agreement(w'))
  {
    var reset := Next(w, ChangeType(side, w.At(side).kind));
    NextKeeps(w, ChangeType(side, w.At(side).kind));
    NextKeeps(reset, Request(side));
    RequestAgrees(Next(reset, Request(side)), side, run);
  }

  /** The same for a side that has been made again, if its peer has processed older counters only: its request is enough. */
  lemma RestartAgrees(w: Net, side: Side, kind: AgentType, tick: Tick, run: seq<Event>)
    requires Sound(w) && w.Drained() && w.Peer(side).theirs < tick
    ensures
      var w' := OrderlyExec(Remade(w, side, kind, tick), run);
      && w'.At(side).instance == w.At(side).instance + 1
      && w.Peer(side).instance <= w'.Peer(side).instance <= w.Peer(side).instance + 1
      && (w'.Drained() ==> Agreement(w'))
  {
    RemadeIsSound(w, side, kind, tick);
    RequestAgrees(Remade(w, side, kind, tick), side, run);
  }

  lemma {:induction false} OrderlyEvolves(w: Net, run: seq<Event>, side: Side)
    requires Sound(w)
    ensures Sound(OrderlyExec(w, run)) && Evolves(w.At(side), OrderlyExec(w, run).At(side))
  {
    if run == [] {
    } else {
      var before := OrderlyExec(w, run[..|run| - 1]);
      OrderlyEvolves(w, run[..|run| - 1], side);
      NextKeeps(before, run[|run| - 1]);
      NextEvolves(before, run[|run| - 1], side);
    }
  }

  // ----- Candidates follow descriptions -----

  /** Whatever is applied to an instance comes after its remote description. */
  ghost predicate AppliedInOrder(calls: seq<JuiceCall>) {
    forall q :: 0 <= q < |calls| && (calls[q].AddRemoteCandidate? || calls[q].SetRemoteGatheringDone?)
      ==> exists p :: 0 <= p < q && calls[p].SetRemoteDescription? && calls[p].instance == calls[q].instance
  }

  /** The candidates at the head of a channel find their sender's description already in place. */
  lemma ChatterFindsDescription(w: Net, to: Side, c: nat, f: nat)
    requires InPhase(w, false, c, f) && w.Inbox(to) != [] && Chatter(w.Inbox(to)[0])
    ensures w.At(to).remoteSdp == w.Peer(to).localSdp != EMPTY
  {
  }

  lemma AppendInOrder(calls: seq<JuiceCall>, call: JuiceCall)
    requires AppliedInOrder(calls)
    requires call.AddRemoteCandidate? || call.SetRemoteGatheringDone?
             ==> exists s :: SetRemoteDescription(call.instance, s) in calls
    ensures AppliedInOrder(calls + [call])
  {
    var all := calls + [call];
    forall q | 0 <= q < |all| && (all[q].AddRemoteCandidate? || all[q].SetRemoteGatheringDone?)
      ensures exists p :: 0 <= p < q && all[p].SetRemoteDescription? && all[p].instance == all[q].instance
    {
      if q < |calls| {
        var p :| 0 <= p < q && calls[p].SetRemoteDescription? && calls[p].instance == calls[q].instance;
        assert all[p] == calls[p];
      } else {
        var s :| SetRemoteDescription(call.instance, s) in calls;
        var p :| 0 <= p < |calls| && calls[p] == SetRemoteDescription(call.instance, s);
        assert all[p] == calls[p];
      }
    }
  }

  lemma HandleKeepsOrder(a: Agent, m: Message)
    requires Coherent(a) && AppliedInOrder(a.calls) && (Chatter(m) ==> a.remoteSdp != EMPTY)
    ensures AppliedInOrder(Handle(a, m).agent.calls)
  {
    match m
    case ConnectionRequest(counter) => AppendInOrder(a.calls, GatherCandidates(AdmitRequest(a, counter).instance));
    case LocalDescription(sdp) =>
      var given := SetRemoteDescription(a.instance, sdp);
      AppendInOrder(a.calls, given);
      AppendInOrder(a.calls + [given], GatherCandidates(a.instance));
      AppendInOrder(a.calls + [given], GatherCandidates(a.instance + 1));
    case Candidate(c) => AppendInOrder(a.calls, AddRemoteCandidate(a.instance, c));
    case GatheringDone => AppendInOrder(a.calls, SetRemoteGatheringDone(a.instance));
    case Pong =>
  }

  lemma NextKeepsOrder(w: Net, e: Event, side: Side, c: nat, f: nat)
    requires InPhase(w, false, c, f) && Orderly(w, e) && AppliedInOrder(w.At(side).calls)
    ensures AppliedInOrder(Next(w, e).At(side).calls)
  {
    match e
    case Deliver(to, i) =>
      if to == side && w.Inbox(to) != [] {
        if Chatter(w.Inbox(to)[0]) { ChatterFindsDescription(w, to, c, f); }
        HandleKeepsOrder(w.At(to), w.Inbox(to)[0]);
      }
    case SendData(at, data) => AppendInOrder(w.At(side).calls, SendDatagram(w.At(side).instance, GameData(data)));
    case _ =>
  }

  /** From two fresh agents, no candidate is applied to an instance before that instance has its description. */
  lemma {:induction false} CandidatesFollowDescriptions(
    kind: AgentType, ctlTick: Tick, folTick: Tick, run: seq<Event>, side: Side)
    ensures
      var w := OrderlyExec(Start(kind, ctlTick, folTick), run);
      && AppliedInOrder(w.At(side).calls)
      && (w.Inbox(side) != [] && Chatter(w.Inbox(side)[0]) ==> w.At(side).remoteSdp == w.Peer(side).localSdp != EMPTY)
  {
    var start := Start(kind, ctlTick, folTick);
    StartIsSound(kind, ctlTick, folTick);
    assert start.toFol[0].ConnectionRequest?;
    assert Waiting(start, false);
    ExecKeepsPhase(start, run, false, 0, 0);
    var w := OrderlyExec(start, run);
    if w.Inbox(side) != [] && Chatter(w.Inbox(side)[0]) {
      ChatterFindsDescription(w, side, 0, 0);
    }
    if run == [] {
    } else {
      var before := OrderlyExec(start, run[..|run| - 1]);
      CandidatesFollowDescriptions(kind, ctlTick, folTick, run[..|run| - 1], side);
      ExecKeepsPhase(start, run[..|run| - 1], false, 0, 0);
      if Orderly(before, run[|run| - 1]) {
        NextKeepsOrder(before, run[|run| - 1], side, 0, 0);
      }
    }
  }
}
