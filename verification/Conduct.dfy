/**
 What an agent does, said from the outside: for every event of a run, which calls it makes into libjuice, which messages it
 sends and what its session is afterwards, in terms of what it held and what happened.
 */
module Conduct {
  import opened Basics
  import opened JuiceSession
  import opened Packets
  import opened Signalling
  import opened Hygiene

  // ----- One message -----

  /** The message makes the agent give up its instance for a new one. */
  predicate Renews(a: Agent, m: Message) {
    match m
    case ConnectionRequest(counter) => a.state == Failed || (a.theirs < counter && a.state != Disconnected)
    case LocalDescription(sdp) => if a.remoteSdp == EMPTY then a.state == Failed else a.remoteSdp != sdp
    case _ => false
  }

  /** The message makes the agent announce its description and start gathering. */
  predicate Announces(a: Agent, m: Message) {
    match m
    case ConnectionRequest(counter) => a.controlling && a.theirs <= counter && (a.IsEngaged() ==> a.theirs < counter)
    case LocalDescription(_) => a.remoteSdp == EMPTY && !a.IsEngaged()
    case _ => false
  }

  /** The message makes the agent ask for a connection itself. */
  predicate Asks(a: Agent, m: Message) {
    match m
    case ConnectionRequest(counter) => !a.controlling && a.theirs <= counter
    case LocalDescription(sdp) => a.remoteSdp != EMPTY && a.remoteSdp != sdp
    case _ => false
  }

  function One(b: bool): nat {
    if b then 1 else 0
  }

  function InstanceAfter(a: Agent, m: Message): nat {
    a.instance + One(Renews(a, m))
  }

  function CounterAfter(a: Agent, m: Message): nat {
    a.ours + One(Renews(a, m)) + One(Announces(a, m))
  }

  /** The calls that carry over what the peer has said. */
  function PassedOn(a: Agent, m: Message): seq<JuiceCall> {
    match m
    case Candidate(c) => if OnPath(a.kind, c) then [AddRemoteCandidate(a.instance, c)] else []
    case GatheringDone => [SetRemoteGatheringDone(a.instance)]
    case LocalDescription(sdp) => if a.remoteSdp == EMPTY then [SetRemoteDescription(a.instance, sdp)] else []
    case _ => []
  }

  function CallsFor(a: Agent, m: Message): seq<JuiceCall> {
    PassedOn(a, m) + if Announces(a, m) then [GatherCandidates(InstanceAfter(a, m))] else []
  }

  function AnswerTo(a: Agent, m: Message): seq<Message> {
    if Announces(a, m) then [LocalDescription(DescriptionOf(InstanceAfter(a, m)))]
    else if Asks(a, m) then [ConnectionRequest(CounterAfter(a, m))]
    else []
  }

  /** The whole outcome of a message: what is sent, what libjuice is told, and each part of the session. */
  lemma HandleIsExact(a: Agent, m: Message)
    requires Coherent(a)
    ensures
      var s := Handle(a, m);
      && s.sent == AnswerTo(a, m)
      && s.agent.calls == a.calls + CallsFor(a, m)
      && s.agent.instance == InstanceAfter(a, m) && s.agent.ours == CounterAfter(a, m)
      && s.agent.theirs == (if m.ConnectionRequest? && a.theirs < m.counter then m.counter else a.theirs)
      && s.agent.state == (if Announces(a, m) then Gathering else if Renews(a, m) then Disconnected else a.state)
      && s.agent.localSdp == (if Announces(a, m) then DescriptionOf(InstanceAfter(a, m))
                              else if Renews(a, m) then EMPTY else a.localSdp)
      && s.agent.remoteSdp == (if Renews(a, m) then EMPTY
                               else if m.LocalDescription? && a.remoteSdp == EMPTY then m.sdp else a.remoteSdp)
      && s.agent.kind == a.kind && s.agent.controlling == a.controlling
  {
    match m
    case ConnectionRequest(_) =>
    case LocalDescription(sdp) =>
      var given := SetRemoteDescription(a.instance, sdp);
      assert a.calls + [given] + [GatherCandidates(InstanceAfter(a, m))]
          == a.calls + ([given] + [GatherCandidates(InstanceAfter(a, m))]);
    case _ =>
  }

  // ----- One event of another kind -----

  /** The session after it has started over. */
  function StartedOver(a: Agent, kind: AgentType): Agent {
    Agent(kind, a.controlling, Disconnected, EMPTY, EMPTY, a.ours + 1, a.theirs, a.instance + 1, a.calls)
  }

  /** An event that is not a delivery touches at most one side, and of that only what the event is about. */
  lemma OwnStepIsExact(w: Net, e: Event, side: Side)
    requires !e.Deliver?
    ensures
      var a := w.At(side);
      Next(w, e).At(side) ==
      match e
      case SendData(at, data) =>
        if at != side then a
        else if a.state == Failed then StartedOver(a, a.kind)
        else if a.IsConnected() then a.(calls := a.calls + [SendDatagram(a.instance, GameData(data))])
        else a
      case JuiceStateChanged(at, state) => if at == side && MayReport(a, state) then a.(state := state) else a
      case ChangeType(at, kind) => if at == side then StartedOver(a, kind) else a
      case Restarted(at, kind, tick) =>
        if at == side && a.ours < tick
        then Agent(kind, a.controlling, Disconnected, EMPTY, EMPTY, tick, 0, a.instance + 1, a.calls) else a
      case _ => a
  {
  }

  // ----- Whole runs -----

  /** The message an event delivers to a side. */
  function Heard(w: Net, e: Event, side: Side): Option<Message> {
    if e.Deliver? && e.to == side && e.index < |w.Inbox(side)| then Some(w.Inbox(side)[e.index]) else None
  }

  /** The calls a side makes because of an event. */
  function CallsOf(w: Net, e: Event, side: Side): seq<JuiceCall> {
    var a := w.At(side);
    if Heard(w, e, side).Some? then CallsFor(a, Heard(w, e, side).value)
    else if e.SendData? && e.at == side && a.IsConnected() then [SendDatagram(a.instance, GameData(e.data))]
    else []
  }

  /** The messages a side sends because of an event. */
  function MessagesOf(w: Net, e: Event, side: Side): seq<Message> {
    var a := w.At(side);
    match e
    case Deliver(_, _) => if Heard(w, e, side).Some? then AnswerTo(a, Heard(w, e, side).value) else []
    case Request(at) => if at == side then [ConnectionRequest(a.ours)] else []
    case SendData(at, _) => if at == side && a.state == Disconnected then [ConnectionRequest(a.ours)] else []
    case GatheredCandidate(at, c) =>
      if at == side && a.state != Disconnected && OnPath(a.kind, c) then [Candidate(c)] else []
    case FinishedGathering(at) => if at == side && a.state != Disconnected then [GatheringDone] else []
    case Restarted(at, _, tick) => if at == side && a.ours < tick then [ConnectionRequest(tick)] else []
    case _ => []
  }

  function CallsIn(w: Net, run: seq<Event>, side: Side): seq<JuiceCall> {
    if run == [] then []
    else CallsIn(w, run[..|run| - 1], side) + CallsOf(Exec(w, run[..|run| - 1]), run[|run| - 1], side)
  }

  function MessagesIn(w: Net, run: seq<Event>, side: Side): seq<Message> {
    if run == [] then []
    else MessagesIn(w, run[..|run| - 1], side) + MessagesOf(Exec(w, run[..|run| - 1]), run[|run| - 1], side)
  }

  lemma StepCalls(w: Net, e: Event, side: Side)
    requires Sound(w)
    ensures Next(w, e).At(side).calls == w.At(side).calls + CallsOf(w, e, side)
  {
    if Heard(w, e, side).Some? {
      HandleIsExact(w.At(side), Heard(w, e, side).value);
    }
  }

  lemma StepMessages(w: Net, e: Event, side: Side)
    requires Sound(w)
    ensures MessagesOf(w, e, side)
         == (if Act(w, e).Some? && Act(w, e).value.0 == side then Act(w, e).value.1.sent else [])
  {
    if Heard(w, e, side).Some? {
      HandleIsExact(w.At(side), Heard(w, e, side).value);
    }
  }

  /**
   In every run, with loss, repetition, reordering, failures and restarts, the calls a side makes into libjuice are
   exactly these, in this order and on the instance live at the time: each candidate of its path and each end of
   gathering it hears, each description it hears while it holds none, one start of gathering for each description it
   announces, and the game's data while it is connected.
   */
  lemma {:induction false} CallsAreExact(w: Net, run: seq<Event>, side: Side)
    requires Sound(w)
    ensures Exec(w, run).At(side).calls == w.At(side).calls + CallsIn(w, run, side)
  {
    if run == [] {
      assert w.At(side).calls + [] == w.At(side).calls;
    } else {
      var front := run[..|run| - 1];
      CallsAreExact(w, front, side);
      ExecKeeps(w, front);
      StepCalls(Exec(w, front), run[|run| - 1], side);
      Associates(w.At(side).calls, CallsIn(w, front, side), CallsOf(Exec(w, front), run[|run| - 1], side));
    }
  }

  lemma Associates<T>(a: seq<T>, b: seq<T>, c: seq<T>)
    ensures a + b + c == a + (b + c)
  {
  }

  // ----- Channels -----

  /** Messages are delivered oldest first, and none is lost or repeated. */
  predicate Lossless(e: Event) {
    !e.Drop? && !e.Repeat? && (e.Deliver? ==> e.index == 0)
  }

  function HeardIn(w: Net, run: seq<Event>, side: Side): seq<Message> {
    if run == [] then []
    else
      HeardIn(w, run[..|run| - 1], side) + HeardOf(Exec(w, run[..|run| - 1]), run[|run| - 1], side)
  }

  function HeardOf(w: Net, e: Event, side: Side): seq<Message> {
    if Heard(w, e, side).Some? then [Heard(w, e, side).value] else []
  }

  function Other(side: Side): Side {
    if side == Ctl then Fol else Ctl
  }

  lemma StepChannel(w: Net, e: Event, side: Side)
    requires Sound(w) && Lossless(e)
    ensures
      HeardOf(w, e, side) + Next(w, e).Inbox(side)
      == w.Inbox(side) + MessagesOf(w, e, Other(side))
  {
    StepMessages(w, e, Other(side));
    if Heard(w, e, side).Some? {
      assert w.Inbox(side) == [w.Inbox(side)[0]] + Without(w.Inbox(side), 0);
      assert Next(w, e).Inbox(side) == Without(w.Inbox(side), 0);
    } else {
      assert Transport(w, e).Inbox(side) == w.Inbox(side);
    }
  }

  /**
   Without loss, what a side has heard and what is still on its way to it are exactly the messages its peer has sent, in
   order: the announcements, requests, candidates and ends of gathering that each event calls for.
   */
  lemma {:induction false} MessagesAreExact(w: Net, run: seq<Event>, side: Side)
    requires Sound(w) && forall e :: e in run ==> Lossless(e)
    ensures HeardIn(w, run, side) + Exec(w, run).Inbox(side) == w.Inbox(side) + MessagesIn(w, run, Other(side))
  {
    if run == [] {
      assert [] + w.Inbox(side) == w.Inbox(side) + [];
    } else {
      var front, e := run[..|run| - 1], run[|run| - 1];
      assert e in run && forall x :: x in front ==> x in run;
      MessagesAreExact(w, front, side);
      ExecKeeps(w, front);
      var before := Exec(w, front);
      var sent := MessagesOf(before, e, Other(side));
      StepChannel(before, e, side);
      Chain(HeardIn(w, front, side), HeardOf(before, e, side), before.Inbox(side), Next(before, e).Inbox(side),
            w.Inbox(side) + MessagesIn(w, front, Other(side)), sent);
      Associates(w.Inbox(side), MessagesIn(w, front, Other(side)), sent);
    }
  }

  lemma Chain<T>(heard: seq<T>, now: seq<T>, before: seq<T>, after: seq<T>, all: seq<T>, sent: seq<T>)
    requires heard + before == all && now + after == before + sent
    ensures heard + now + after == all + sent
  {
    assert heard + now + after == heard + (now + after);
    assert heard + (before + sent) == heard + before + sent;
  }
}
