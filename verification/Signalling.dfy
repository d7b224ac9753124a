/**
 Two agents with opposite roles and the two message channels between them.

 The network may deliver any message in flight, and may drop or repeat it; either agent may send a connection
 request or a datagram, change its type, be made again, or be called back by libjuice at any time.  An event that is not
 possible in a state leaves it as it is, so every list of events is a run.
 */
module Signalling {
  import opened Basics
  import opened JuiceSession

  datatype Side = Ctl | Fol

  /** `ctl` is the agent with the smaller id; `toCtl` holds the messages on their way to it, oldest first. */
  datatype Net = Net(ctl: Agent, fol: Agent, toCtl: seq<Message>, toFol: seq<Message>)
  {
    function At(side: Side): Agent {
      if side == Ctl then ctl else fol
    }

    function Peer(side: Side): Agent {
      if side == Ctl then fol else ctl
    }

    function Inbox(side: Side): seq<Message> {
      if side == Ctl then toCtl else toFol
    }

    predicate Drained() {
      toCtl == [] && toFol == []
    }

    function WithInbox(side: Side, inbox: seq<Message>): Net {
      if side == Ctl then this.(toCtl := inbox) else this.(toFol := inbox)
    }

    /** The agent on `side` takes a step and its messages join the other channel. */
    function Take(side: Side, step: Step): Net {
      if side == Ctl
      then this.(ctl := step.agent, toFol := toFol + step.sent)
      else this.(fol := step.agent, toCtl := toCtl + step.sent)
    }
  }

  datatype Event =
    | Deliver(to: Side, index: nat)
    | Drop(to: Side, index: nat)
    | Repeat(to: Side, index: nat)
    | Request(at: Side)
    | SendData(at: Side, data: seq<byte>)
    | JuiceStateChanged(at: Side, state: JuiceState)
    | GatheredCandidate(at: Side, candidate: IceCandidate)
    | FinishedGathering(at: Side)
    | ChangeType(at: Side, kind: AgentType)
    | Restarted(at: Side, kind: AgentType, tick: Tick)

  function Without<T>(s: seq<T>, i: nat): (r: seq<T>)
    requires i < |s|
    ensures |r| == |s| - 1
    ensures forall k {:trigger r[k]} :: 0 <= k < |r| ==> r[k] == s[if k < i then k else k + 1]
  {
    s[..i] + s[i + 1..]
  }

  /** libjuice reports progress only for an instance that is gathering or later, and none after a failure. */
  predicate MayReport(a: Agent, state: JuiceState) {
    a.IsEngaged() && state != Disconnected && state != Gathering
  }

  /**
   The agent that acts in an event, if any, and what it does. When an agent is made again, the clock has passed the
   counter of the one before.
   */
  function Act(w: Net, e: Event): Option<(Side, Step)> {
    match e
    case Deliver(to, i) => if i < |w.Inbox(to)| then Some((to, Handle(w.At(to), w.Inbox(to)[i]))) else None
    case Drop(_, _) => None
    case Repeat(_, _) => None
    case Request(at) => Some((at, SendConnectionRequest(w.At(at))))
    case SendData(at, data) => Some((at, SendMessage(w.At(at), data)))
    case JuiceStateChanged(at, state) =>
      if MayReport(w.At(at), state) then Some((at, Step(StateChanged(w.At(at), state), []))) else None
    case GatheredCandidate(at, c) =>
      if w.At(at).state != Disconnected then Some((at, Step(w.At(at), LocalCandidate(w.At(at), c)))) else None
    case FinishedGathering(at) =>
      if w.At(at).state != Disconnected then Some((at, Step(w.At(at), [GatheringDone]))) else None
    case ChangeType(at, kind) => Some((at, Step(SetAgentType(w.At(at), kind), [])))
    case Restarted(at, kind, tick) =>
      if w.At(at).ours < tick then Some((at, Restart(w.At(at), kind, tick))) else None
  }

  /** What an event does to the messages in flight before anyone acts. */
  function Transport(w: Net, e: Event): Net {
    match e
    case Deliver(to, i) => if i < |w.Inbox(to)| then w.WithInbox(to, Without(w.Inbox(to), i)) else w
    case Drop(to, i) => if i < |w.Inbox(to)| then w.WithInbox(to, Without(w.Inbox(to), i)) else w
    case Repeat(to, i) => if i < |w.Inbox(to)| then w.WithInbox(to, w.Inbox(to) + [w.Inbox(to)[i]]) else w
    case _ => w
  }

  function Next(w: Net, e: Event): Net {
    match Act(w, e)
    case None => Transport(w, e)
    case Some((side, step)) => Transport(w, e).Take(side, step)
  }

  /** The state after a run. */
  function Exec(w: Net, run: seq<Event>): Net {
    if run == [] then w else Next(Exec(w, run[..|run| - 1]), run[|run| - 1])
  }

  /** Both constructors have run and their requests are in flight. */
  function Start(kind: AgentType, ctlTick: Tick, folTick: Tick): Net {
    var c := Construct(kind, true, ctlTick);
    var f := Construct(kind, false, folTick);
    Net(c.agent, f.agent, f.sent, c.sent)
  }

  /** Each side holds the description the other side's current instance announced. */
  predicate Agreement(w: Net) {
    && w.ctl.state != Disconnected && w.fol.state != Disconnected
    && w.ctl.localSdp != EMPTY && w.fol.localSdp != EMPTY
    && w.ctl.remoteSdp == w.fol.localSdp
    && w.fol.remoteSdp == w.ctl.localSdp
  }

  /** The agent of a side is made again, whatever the clock shows. */
  function Remade(w: Net, side: Side, kind: AgentType, tick: Tick): Net {
    w.Take(side, Restart(w.At(side), kind, tick))
  }

  lemma RestartedIsRemade(w: Net, side: Side, kind: AgentType, tick: Tick)
    requires w.At(side).ours < tick
    ensures Next(w, Restarted(side, kind, tick)) == Remade(w, side, kind, tick)
  {
  }

  /** A side without a session has sent a request that its peer has not processed, and nothing else is in flight. */
  predicate StartsOver(w: Net, side: Side) {
    && w.At(side).state == Disconnected && w.Peer(side).theirs < w.At(side).ours
    && w.Inbox(side) == [] && w.Inbox(if side == Ctl then Fol else Ctl) == [ConnectionRequest(w.At(side).ours)]
  }

  lemma ExecAppend(w: Net, run: seq<Event>, e: Event)
    ensures Exec(w, run + [e]) == Next(Exec(w, run), e)
  {
    assert (run + [e])[..|run|] == run;
  }
}
