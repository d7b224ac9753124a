/** What every run keeps, whatever the network loses, repeats or reorders and whenever libjuice fails. */
module Hygiene {
  import opened Basics
  import opened JuiceSession
  import opened Signalling

  // ----- One session -----

  /** No libjuice instance is given a second remote description. */
  ghost predicate OneDescriptionPerInstance(calls: seq<JuiceCall>) {
    forall p, q :: 0 <= p < q < |calls| && calls[p].SetRemoteDescription? && calls[q].SetRemoteDescription?
      ==> calls[p].instance < calls[q].instance
  }

  /** The instances that have their remote description are `limit` or older. */
  ghost predicate DescribedUpTo(calls: seq<JuiceCall>, limit: int) {
    forall p :: 0 <= p < |calls| && calls[p].SetRemoteDescription? ==> calls[p].instance <= limit
  }

  /** A session on its own: the descriptions it holds match its state and its calls into libjuice. */
  ghost predicate Coherent(a: Agent) {
    && (a.state == Disconnected <==> a.localSdp == EMPTY)
    && (a.localSdp != EMPTY ==> a.localSdp == DescriptionOf(a.instance))
    && (a.state == Disconnected ==> a.remoteSdp == EMPTY)
    && (!a.controlling && a.state != Disconnected ==> a.remoteSdp != EMPTY)
    && OneDescriptionPerInstance(a.calls)
    && DescribedUpTo(a.calls, if a.remoteSdp == EMPTY then a.instance - 1 else a.instance)
    && (a.remoteSdp != EMPTY ==> SetRemoteDescription(a.instance, a.remoteSdp) in a.calls)
  }

  // ----- A session and its peer -----

  /** `a` has sent `sdp`: it belongs to an earlier instance, or to the current one and is already public. */
  predicate Announced(a: Agent, sdp: Sdp) {
    && EMPTY < sdp <= DescriptionOf(a.instance)
    && (sdp == DescriptionOf(a.instance) ==> a.localSdp == sdp)
  }

  /** `m` is a message the agent `from` has sent at some time. */
  predicate Genuine(m: Message, from: Agent) {
    match m
    case ConnectionRequest(counter) => counter <= from.ours
    case LocalDescription(sdp) => Announced(from, sdp)
    case Candidate(_) => true
    case GatheringDone => true
    case Pong => true
  }

  /** What `a` knows of its peer is no newer than the peer. */
  predicate Trails(a: Agent, peer: Agent) {
    a.theirs <= peer.ours && (a.remoteSdp != EMPTY ==> Announced(peer, a.remoteSdp))
  }

  /** Nothing the agent made public is taken back. */
  predicate Evolves(a: Agent, b: Agent) {
    && b.controlling == a.controlling
    && a.ours <= b.ours && a.instance <= b.instance
    && (a.instance == b.instance ==> a.localSdp == EMPTY || b.localSdp == a.localSdp)
  }

  lemma StillGenuine(m: Message, a: Agent, b: Agent)
    requires Coherent(a) && Evolves(a, b) && Genuine(m, a)
    ensures Genuine(m, b)
  {
  }

  lemma StillTrails(x: Agent, a: Agent, b: Agent)
    requires Coherent(a) && Evolves(a, b) && Trails(x, a)
    ensures Trails(x, b)
  {
  }

  // ----- What each handler does to a session -----

  lemma AnnounceKeeps(a: Agent)
    requires a.state == Disconnected && a.localSdp == EMPTY
    requires OneDescriptionPerInstance(a.calls)
    requires DescribedUpTo(a.calls, if a.remoteSdp == EMPTY then a.instance - 1 else a.instance)
    requires a.remoteSdp != EMPTY ==> SetRemoteDescription(a.instance, a.remoteSdp) in a.calls
    requires !a.controlling ==> a.remoteSdp != EMPTY
    ensures Coherent(Announce(a).agent) && Evolves(a, Announce(a).agent)
    ensures Announce(a).sent == [LocalDescription(DescriptionOf(a.instance))]
    ensures Announced(Announce(a).agent, DescriptionOf(a.instance))
  {
  }

  lemma RequestKeeps(a: Agent, peer: Agent, counter: nat)
    requires Coherent(a) && Trails(a, peer) && counter <= peer.ours
    ensures
      var s := HandleConnectionRequest(a, counter);
      && Coherent(s.agent) && Trails(s.agent, peer) && Evolves(a, s.agent)
      && forall m :: m in s.sent ==> Genuine(m, s.agent)
  {
    var admitted := AdmitRequest(a, counter);
    assert Coherent(admitted) && Trails(admitted, peer) && Evolves(a, admitted);
    if admitted.theirs == counter && admitted.controlling && admitted.state == Disconnected {
      AnnounceKeeps(admitted);
    }
  }

  lemma DescriptionKeeps(a: Agent, peer: Agent, sdp: Sdp)
    requires Coherent(a) && Trails(a, peer) && Announced(peer, sdp)
    ensures
      var s := HandleLocalDescription(a, sdp);
      && Coherent(s.agent) && Trails(s.agent, peer) && Evolves(a, s.agent)
      && forall m :: m in s.sent ==> Genuine(m, s.agent)
  {
    if a.remoteSdp == EMPTY {
      var described := a.(remoteSdp := sdp, calls := a.calls + [SetRemoteDescription(a.instance, sdp)]);
      assert SetRemoteDescription(a.instance, sdp) == described.calls[|a.calls|];
      assert OneDescriptionPerInstance(described.calls) && DescribedUpTo(described.calls, a.instance);
      if a.state == Disconnected {
        AnnounceKeeps(described);
      } else if a.state == Failed {
        AnnounceKeeps(Reset(described));
      }
    }
  }

  lemma HandleKeeps(a: Agent, peer: Agent, m: Message)
    requires Coherent(a) && Trails(a, peer) && Genuine(m, peer)
    ensures
      var s := Handle(a, m);
      && Coherent(s.agent) && Trails(s.agent, peer) && Evolves(a, s.agent)
      && forall n :: n in s.sent ==> Genuine(n, s.agent)
  {
    match m
    case ConnectionRequest(counter) => RequestKeeps(a, peer, counter);
    case LocalDescription(sdp) => DescriptionKeeps(a, peer, sdp);
    case Candidate(_) =>
    case GatheringDone =>
    case Pong =>
  }

  // ----- The invariant of a run -----

  ghost predicate AllGenuine(ms: seq<Message>, from: Agent) {
    forall m :: m in ms ==> Genuine(m, from)
  }

  /**
   How far the sides can be out of step.  A follower session whose counter the controlling side has already
   processed does not hold that side's description, and has not processed that side's counter.
   */
  predicate Skewed(ctl: Agent, fol: Agent) {
    ctl.theirs == fol.ours && fol.state != Disconnected
    ==> fol.remoteSdp != DescriptionOf(ctl.instance) && fol.theirs < ctl.ours
  }

  ghost predicate Sound(w: Net) {
    && w.ctl.controlling && !w.fol.controlling
    && w.ctl.ours > 0 && w.fol.ours > 0
    && Coherent(w.ctl) && Coherent(w.fol)
    && Trails(w.ctl, w.fol) && Trails(w.fol, w.ctl)
    && AllGenuine(w.toCtl, w.fol) && AllGenuine(w.toFol, w.ctl)
    && Skewed(w.ctl, w.fol)
  }

  lemma StartIsSound(kind: AgentType, ctlTick: Tick, folTick: Tick)
    ensures Sound(Start(kind, ctlTick, folTick))
  {
  }

  /** A step of either agent that suits that agent, keeps what it made public and keeps the skew suits the pair. */
  lemma TakeKeeps(w: Net, side: Side, s: Step)
    requires Sound(w)
    requires Coherent(s.agent) && Trails(s.agent, w.Peer(side)) && Evolves(w.At(side), s.agent)
    requires AllGenuine(s.sent, s.agent)
    requires Skewed(w.Take(side, s).ctl, w.Take(side, s).fol)
    ensures Sound(w.Take(side, s))
  {
    var before := w.At(side);
    StillTrails(w.Peer(side), before, s.agent);
    forall m | m in w.Inbox(if side == Ctl then Fol else Ctl) ensures Genuine(m, s.agent) {
      StillGenuine(m, before, s.agent);
    }
  }

  lemma SkewAfterCtl(w: Net, m: Message)
    requires Sound(w) && Genuine(m, w.fol)
    ensures Skewed(Handle(w.ctl, m).agent, w.fol)
  {
  }

  lemma SkewAfterFol(w: Net, m: Message)
    requires Sound(w) && Genuine(m, w.ctl)
    ensures Skewed(w.ctl, Handle(w.fol, m).agent)
  {
  }

  lemma ResetKeeps(w: Net, side: Side, kind: AgentType)
    requires Sound(w)
    ensures Sound(w.Take(side, Step(SetAgentType(w.At(side), kind), [])))
  {
    TakeKeeps(w, side, Step(SetAgentType(w.At(side), kind), []));
  }

  /** An agent that is made again forgets what it has processed; its peer still trails it. */
  lemma RestartKeeps(w: Net, side: Side, kind: AgentType, tick: Tick)
    requires Sound(w) && w.At(side).ours < tick
    ensures Sound(Remade(w, side, kind, tick))
  {
    TakeKeeps(w, side, Restart(w.At(side), kind, tick));
  }

  /** With nothing in flight it is enough that the peer has not processed a newer counter than the clock shows. */
  lemma RemadeIsSound(w: Net, side: Side, kind: AgentType, tick: Tick)
    requires Sound(w) && w.Drained() && w.Peer(side).theirs <= tick
    ensures Sound(Remade(w, side, kind, tick))
  {
  }

  lemma DeliverKeeps(w: Net, to: Side, i: nat)
    requires Sound(w) && i < |w.Inbox(to)|
    ensures Sound(Next(w, Deliver(to, i)))
  {
    var m := w.Inbox(to)[i];
    var rest := w.WithInbox(to, Without(w.Inbox(to), i));
    assert Sound(rest);
    HandleKeeps(w.At(to), w.Peer(to), m);
    if to == Ctl { SkewAfterCtl(w, m); } else { SkewAfterFol(w, m); }
    TakeKeeps(rest, to, Handle(w.At(to), m));
  }

  lemma LossAndRepetitionKeep(w: Net, to: Side, i: nat)
    requires Sound(w) && i < |w.Inbox(to)|
    ensures Sound(w.WithInbox(to, Without(w.Inbox(to), i)))
    ensures Sound(w.WithInbox(to, w.Inbox(to) + [w.Inbox(to)[i]]))
  {
  }

  lemma SendDataKeeps(w: Net, at: Side, data: seq<byte>)
    requires Sound(w)
    ensures Sound(w.Take(at, SendMessage(w.At(at), data)))
  {
    if w.At(at).state == Failed {
      ResetKeeps(w, at, w.At(at).kind);
    } else {
      TakeKeeps(w, at, SendMessage(w.At(at), data));
    }
  }

  lemma ReportKeeps(w: Net, at: Side, state: JuiceState)
    requires Sound(w) && MayReport(w.At(at), state)
    ensures Sound(w.Take(at, Step(StateChanged(w.At(at), state), [])))
  {
    TakeKeeps(w, at, Step(StateChanged(w.At(at), state), []));
  }

  /** Messages that carry neither a counter nor a description, or the sender's own counter. */
  lemma SendingKeeps(w: Net, at: Side, sent: seq<Message>)
    requires Sound(w)
    requires forall m :: m in sent ==> m.Candidate? || m.GatheringDone? || m == ConnectionRequest(w.At(at).ours)
    ensures Sound(w.Take(at, Step(w.At(at), sent)))
  {
    TakeKeeps(w, at, Step(w.At(at), sent));
  }

  lemma ActKeeps(w: Net, e: Event, side: Side, s: Step)
    requires Sound(w) && !e.Deliver? && Act(w, e) == Some((side, s))
    ensures Sound(w.Take(side, s))
  {
    match e
    case Request(at) => SendingKeeps(w, at, [ConnectionRequest(w.At(at).ours)]);
    case SendData(at, data) => SendDataKeeps(w, at, data);
    case JuiceStateChanged(at, state) => ReportKeeps(w, at, state);
    case GatheredCandidate(at, c) => SendingKeeps(w, at, LocalCandidate(w.At(at), c));
    case FinishedGathering(at) => SendingKeeps(w, at, [GatheringDone]);
    case ChangeType(at, kind) => ResetKeeps(w, at, kind);
    case Restarted(at, kind, tick) => RestartKeeps(w, at, kind, tick);
  }

  lemma NextKeeps(w: Net, e: Event)
    requires Sound(w)
    ensures Sound(Next(w, e))
  {
    match e
    case Deliver(to, i) => if i < |w.Inbox(to)| { DeliverKeeps(w, to, i); }
    case Drop(to, i) => if i < |w.Inbox(to)| { LossAndRepetitionKeep(w, to, i); }
    case Repeat(to, i) => if i < |w.Inbox(to)| { LossAndRepetitionKeep(w, to, i); }
    case _ =>
      match Act(w, e) {
        case None =>
        case Some((side, s)) => ActKeeps(w, e, side, s);
      }
  }

  lemma {:induction false} ExecKeeps(w: Net, run: seq<Event>)
    requires Sound(w)
    ensures Sound(Exec(w, run))
  {
    if run == [] {
    } else {
      ExecKeeps(w, run[..|run| - 1]);
      NextKeeps(Exec(w, run[..|run| - 1]), run[|run| - 1]);
    }
  }

  // ----- Main results -----

  /** Every instance gets at most one remote description, and no agent has processed a request its peer has not made. */
  lemma SessionHygiene(kind: AgentType, ctlTick: Tick, folTick: Tick, run: seq<Event>, side: Side)
    ensures
      var w := Exec(Start(kind, ctlTick, folTick), run);
      && OneDescriptionPerInstance(w.At(side).calls)
      && w.At(side).theirs <= w.Peer(side).ours
      && (w.At(side).remoteSdp != EMPTY ==> Announced(w.Peer(side), w.At(side).remoteSdp))
  {
    StartIsSound(kind, ctlTick, folTick);
    ExecKeeps(Start(kind, ctlTick, folTick), run);
  }

  /** Handling a request clears the remote description exactly if the request is new or the instance had failed. */
  lemma NewerRequestForgets(a: Agent, counter: nat)
    requires Coherent(a)
    ensures
      var b := HandleConnectionRequest(a, counter).agent;
      && b.theirs == (if a.theirs < counter then counter else a.theirs)
      && b.remoteSdp == (if a.theirs < counter || a.state == Failed then EMPTY else a.remoteSdp)
      && (b.instance != a.instance <==> a.state == Failed || (a.theirs < counter && a.state != Disconnected))
  {
  }

  lemma HandleKeepsProcessed(a: Agent, m: Message)
    ensures a.theirs <= Handle(a, m).agent.theirs
  {
  }

  lemma NextEvolves(w: Net, e: Event, side: Side)
    requires Sound(w)
    ensures Evolves(w.At(side), Next(w, e).At(side))
    ensures !(e.Restarted? && e.at == side) ==> w.At(side).theirs <= Next(w, e).At(side).theirs
  {
    if e.Deliver? && e.index < |w.Inbox(e.to)| {
      HandleKeeps(w.At(e.to), w.Peer(e.to), w.Inbox(e.to)[e.index]);
      HandleKeepsProcessed(w.At(e.to), w.Inbox(e.to)[e.index]);
    } else if Act(w, e).Some? {
      OwnStepEvolves(w, e, Act(w, e).value.0, Act(w, e).value.1);
    }
  }

  lemma OwnStepEvolves(w: Net, e: Event, side: Side, s: Step)
    requires Sound(w) && !e.Deliver? && Act(w, e) == Some((side, s))
    ensures Evolves(w.At(side), s.agent) && (!e.Restarted? ==> w.At(side).theirs <= s.agent.theirs)
  {
  }

  /** The agent of a side is made again somewhere in the run. */
  predicate RestartsIn(run: seq<Event>, side: Side) {
    exists e :: e in run && e.Restarted? && e.at == side
  }

  /**
   Counters and instances never go back, in any part of any run. Only the counter that was processed starts anew, and only
   with a new agent.
   */
  lemma {:induction false} CountersNeverGoBack(w: Net, run: seq<Event>, side: Side)
    requires Sound(w)
    ensures Evolves(w.At(side), Exec(w, run).At(side))
    ensures !RestartsIn(run, side) ==> w.At(side).theirs <= Exec(w, run).At(side).theirs
  {
    if run == [] {
    } else {
      var front := run[..|run| - 1];
      CountersNeverGoBack(w, front, side);
      assert run[|run| - 1] in run && forall e :: e in front ==> e in run;
      ExecKeeps(w, front);
      NextEvolves(Exec(w, front), run[|run| - 1], side);
    }
  }

  /** The descriptions `side` sends in a run, each with the instance that was live after the handler that sent it. */
  function Descriptions(w: Net, run: seq<Event>, side: Side): seq<(nat, Sdp)> {
    if run == [] then []
    else
      var front := run[..|run| - 1];
      var before := Exec(w, front);
      Descriptions(w, front, side) + Announcement(before, run[|run| - 1], side)
  }

  function Announcement(w: Net, e: Event, side: Side): seq<(nat, Sdp)> {
    match Act(w, e)
    case None => []
    case Some((actor, step)) =>
      if actor == side && step.sent != [] && step.sent[0].LocalDescription?
      then [(step.agent.instance, step.sent[0].sdp)] else []
  }

  lemma SentDescriptionIsOwn(w: Net, e: Event, side: Side, step: Step)
    requires Sound(w) && Act(w, e) == Some((side, step))
    ensures |step.sent| <= 1
    ensures step.sent != [] && step.sent[0].LocalDescription?
            ==> step.sent[0].sdp == DescriptionOf(step.agent.instance) == step.agent.localSdp
  {
    match e
    case Deliver(to, i) => if i < |w.Inbox(to)| { HandleKeeps(w.At(to), w.Peer(to), w.Inbox(to)[i]); }
    case _ =>
  }

  /**
   Between two resets an agent sends one description at most: of two that it sends, the later belongs to a newer instance
   and is a different one.
   */
  lemma OneDescriptionBetweenResets(w: Net, run: seq<Event>, side: Side, p: nat, q: nat)
    requires Sound(w) && p < |Descriptions(w, run, side)| && q < |Descriptions(w, run, side)|
    ensures
      var ds := Descriptions(w, run, side);
      && (p < q <==> ds[p].0 < ds[q].0)
      && (p == q <==> ds[p].1 == ds[q].1)
  {
    var ds := Descriptions(w, run, side);
    DescriptionsGrow(w, run, side);
    DescriptionsAreOwn(w, run, side);
    assert ds[p] in ds && ds[q] in ds;
  }

  /** Each announcement is of a newer instance than the one before, none of a newer one than the agent's. */
  ghost predicate InOrder(ds: seq<(nat, Sdp)>, a: Agent) {
    && (forall i, j :: 0 <= i < j < |ds| ==> ds[i].0 < ds[j].0)
    && (forall i :: 0 <= i < |ds| ==> if a.state == Disconnected then ds[i].0 < a.instance else ds[i].0 <= a.instance)
  }

  /** A description comes from an agent that had no session, or from a new instance. */
  lemma HandleAnnounces(a: Agent, m: Message)
    requires Coherent(a)
    ensures
      var s := Handle(a, m);
      && (s.agent.instance == a.instance && a.state != Disconnected ==> s.agent.state != Disconnected)
      && (s.sent != [] && s.sent[0].LocalDescription? ==>
            && s.agent.state != Disconnected
            && (s.agent.instance > a.instance || a.state == Disconnected))
  {
  }

  lemma NextAnnounces(w: Net, e: Event, side: Side, ds: seq<(nat, Sdp)>)
    requires Sound(w) && InOrder(ds, w.At(side))
    ensures InOrder(ds + Announcement(w, e, side), Next(w, e).At(side))
  {
    NextEvolves(w, e, side);
    if e.Deliver? && e.index < |w.Inbox(e.to)| {
      HandleAnnounces(w.At(e.to), w.Inbox(e.to)[e.index]);
    }
  }

  lemma {:induction false} DescriptionsGrow(w: Net, run: seq<Event>, side: Side)
    requires Sound(w)
    ensures InOrder(Descriptions(w, run, side), Exec(w, run).At(side))
  {
    if run == [] {
    } else {
      var front := run[..|run| - 1];
      DescriptionsGrow(w, front, side);
      ExecKeeps(w, front);
      NextAnnounces(Exec(w, front), run[|run| - 1], side, Descriptions(w, front, side));
    }
  }

  lemma {:induction false} DescriptionsAreOwn(w: Net, run: seq<Event>, side: Side)
    requires Sound(w)
    ensures forall d :: d in Descriptions(w, run, side) ==> d.1 == DescriptionOf(d.0)
  {
    if run == [] {
    } else {
      var front := run[..|run| - 1];
      var before := Exec(w, front);
      DescriptionsAreOwn(w, front, side);
      ExecKeeps(w, front);
      match Act(before, run[|run| - 1])
      case None =>
      case Some((actor, step)) => SentDescriptionIsOwn(before, run[|run| - 1], actor, step);
    }
  }

  // ----- Candidates keep to their path -----

  /** A direct agent has nothing to do with relays and a relay agent only with them; Radmin is never used. */
  ghost predicate KeepsToPath(w: Net, side: Side, kind: AgentType) {
    && w.At(side).kind == kind
    && (forall call :: call in w.At(side).calls && call.AddRemoteCandidate? ==> OnPath(kind, call.candidate))
    && (forall m :: m in w.Inbox(side) && m.Candidate? ==> OnPath(kind, m.candidate))
  }

  predicate OnPath(kind: AgentType, c: IceCandidate) {
    match kind
    case P2P => !c.radmin && !c.relay
    case Relay => !c.radmin && c.relay
    case RelayFallback => !c.radmin
  }

  predicate KeepsType(e: Event, kind: AgentType) {
    (e.ChangeType? || e.Restarted?) ==> e.kind == kind
  }

  lemma HandleKeepsToPath(a: Agent, m: Message)
    requires forall call :: call in a.calls && call.AddRemoteCandidate? ==> OnPath(a.kind, call.candidate)
    ensures
      var s := Handle(a, m);
      && s.agent.kind == a.kind
      && (forall call :: call in s.agent.calls && call.AddRemoteCandidate? ==> OnPath(a.kind, call.candidate))
      && (forall n :: n in s.sent ==> !n.Candidate?)
  {
  }

  lemma ActKeepsToPath(w: Net, e: Event, kind: AgentType, side: Side, step: Step)
    requires KeepsToPath(w, Ctl, kind) && KeepsToPath(w, Fol, kind)
    requires KeepsType(e, kind) && Act(w, e) == Some((side, step))
    ensures step.agent.kind == kind
    ensures forall call :: call in step.agent.calls && call.AddRemoteCandidate? ==> OnPath(kind, call.candidate)
    ensures forall m :: m in step.sent && m.Candidate? ==> OnPath(kind, m.candidate)
  {
    match e
    case Deliver(to, i) => HandleKeepsToPath(w.At(to), w.Inbox(to)[i]);
    case _ =>
  }

  lemma NothingNewInTransport(w: Net, e: Event, side: Side)
    ensures forall m :: m in Transport(w, e).Inbox(side) ==> m in w.Inbox(side)
    ensures Transport(w, e).At(side) == w.At(side)
  {
  }

  lemma NextKeepsToPath(w: Net, e: Event, kind: AgentType)
    requires KeepsToPath(w, Ctl, kind) && KeepsToPath(w, Fol, kind) && KeepsType(e, kind)
    ensures KeepsToPath(Next(w, e), Ctl, kind) && KeepsToPath(Next(w, e), Fol, kind)
  {
    NothingNewInTransport(w, e, Ctl);
    NothingNewInTransport(w, e, Fol);
    match Act(w, e)
    case None =>
    case Some((side, step)) => ActKeepsToPath(w, e, kind, side, step);
  }

  /** What either side applies or announces in a run are candidates of the path its type stands for. */
  lemma {:induction false} CandidatesKeepToPath(kind: AgentType, ctlTick: Tick, folTick: Tick, run: seq<Event>)
    requires forall e :: e in run ==> KeepsType(e, kind)
    ensures
      var w := Exec(Start(kind, ctlTick, folTick), run);
      KeepsToPath(w, Ctl, kind) && KeepsToPath(w, Fol, kind)
  {
    if run == [] {
    } else {
      CandidatesKeepToPath(kind, ctlTick, folTick, run[..|run| - 1]);
      NextKeepsToPath(Exec(Start(kind, ctlTick, folTick), run[..|run| - 1]), run[|run| - 1], kind);
    }
  }
}
