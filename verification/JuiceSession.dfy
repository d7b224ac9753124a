/**
 The signalling session of one `JuiceAgent`, as a value: every handler is a function from the session
 before to the session after and the messages it sends to the peer through the server.

 libjuice is an environment.  Each `juice_create` starts a new instance, whose local description is
 fresh and non-empty; `juice_gather_candidates` runs the state callback with GATHERING before it returns;
 the other calls only go into a log.
 */
module JuiceSession {
  import opened Basics
  import opened Packets

  /** In libjuice's order, so "later than DISCONNECTED" is "other than DISCONNECTED". */
  datatype JuiceState = Disconnected | Gathering | Connecting | Connected | Completed | Failed

  datatype AgentType = RelayFallback | P2P | Relay

  /** A session description. The empty string is EMPTY. */
  type Sdp = nat

  const EMPTY: Sdp := 0

  /** What `juice_get_local_description` yields for the given libjuice instance. */
  function DescriptionOf(instance: nat): Sdp {
    instance + 1
  }

  /** A reading of the clock in seconds. */
  type Tick = t: nat | t > 0 witness 1

  /** An ICE candidate line; the two flags are what the candidate filters look for in it. */
  datatype IceCandidate = IceCandidate(text: nat, radmin: bool, relay: bool)

  /** An agent never sends a pong, but a peer may. */
  datatype Message =
    | ConnectionRequest(counter: nat)
    | LocalDescription(sdp: Sdp)
    | Candidate(candidate: IceCandidate)
    | GatheringDone
    | Pong

  /** A call into libjuice, with the instance it was made on. */
  datatype JuiceCall =
    | SetRemoteDescription(instance: nat, sdp: Sdp)
    | GatherCandidates(instance: nat)
    | AddRemoteCandidate(instance: nat, candidate: IceCandidate)
    | SetRemoteGatheringDone(instance: nat)
    | SendDatagram(instance: nat, datagram: Datagram)

  datatype Agent = Agent(
    kind: AgentType,
    controlling: bool,
    state: JuiceState,
    localSdp: Sdp,
    remoteSdp: Sdp,
    ours: nat,
    theirs: nat,
    instance: nat,
    calls: seq<JuiceCall>)
  {
    predicate IsConnected() {
      state == Connected || state == Completed
    }

    /** A negotiation is under way or done: the instance neither waits nor has failed. */
    predicate IsEngaged() {
      state != Disconnected && state != Failed
    }
  }

  /** The outcome of one handler. */
  datatype Step = Step(agent: Agent, sent: seq<Message>)

  /** The session a constructor leaves; its connection request is already on the way. */
  function Construct(kind: AgentType, controlling: bool, tick: nat): Step {
    Step(Agent(kind, controlling, Disconnected, EMPTY, EMPTY, tick, 0, 0, []), [ConnectionRequest(tick)])
  }

  /**
   The peer's agent is cleared away and made again, or its program restarted: a new session with its own instance, whose
   counter starts from the clock.  The log of calls goes on, over all instances of that side.
   */
  function Restart(a: Agent, kind: AgentType, tick: Tick): Step {
    var s := Construct(kind, a.controlling, tick);
    Step(s.agent.(instance := a.instance + 1, calls := a.calls), s.sent)
  }

  function Reset(a: Agent): Agent {
    a.(instance := a.instance + 1, ours := a.ours + 1, localSdp := EMPTY, remoteSdp := EMPTY, state := Disconnected)
  }

  function StateChanged(a: Agent, state: JuiceState): Agent {
    a.(state := state, ours := if state == Gathering then a.ours + 1 else a.ours)
  }

  /** The DISCONNECTED case of `try_initialize`: the description goes out before gathering starts. */
  function Announce(a: Agent): Step {
    var sdp := if a.localSdp == EMPTY then DescriptionOf(a.instance) else a.localSdp;
    var asked := a.(localSdp := sdp, calls := a.calls + [GatherCandidates(a.instance)]);
    Step(StateChanged(asked, Gathering), [LocalDescription(sdp)])
  }

  function TryInitialize(a: Agent): Step {
    match a.state
    case Completed => Step(a, [])
    case Connected => Step(a, [])
    case Gathering => Step(a, [])
    case Connecting => Step(a, [])
    case Failed => Announce(Reset(a))
    case Disconnected => Announce(a)
  }

  /** The session after a connection request has been weighed against the last one processed. */
  function AdmitRequest(a: Agent, counter: nat): Agent {
    var live := if a.state == Failed then Reset(a) else a;
    if live.theirs < counter
    then (if live.state != Disconnected then Reset(live) else live).(theirs := counter)
    else live
  }

  function HandleConnectionRequest(a: Agent, counter: nat): Step {
    var admitted := AdmitRequest(a, counter);
    if admitted.theirs > counter then Step(admitted, [])
    else if !admitted.controlling then Step(admitted, [ConnectionRequest(admitted.ours)])
    else TryInitialize(admitted)
  }

  function HandleLocalDescription(a: Agent, sdp: Sdp): Step {
    if a.remoteSdp == EMPTY then
      TryInitialize(a.(remoteSdp := sdp, calls := a.calls + [SetRemoteDescription(a.instance, sdp)]))
    else if a.remoteSdp == sdp then Step(a, [])
    else Step(Reset(a), [ConnectionRequest(Reset(a).ours)])
  }

  predicate ShouldUseCandidate(kind: AgentType, c: IceCandidate) {
    !c.radmin && (kind == Relay ==> c.relay) && (kind == P2P ==> !c.relay)
  }

  function HandleCandidate(a: Agent, c: IceCandidate): Step {
    Step(if ShouldUseCandidate(a.kind, c) then a.(calls := a.calls + [AddRemoteCandidate(a.instance, c)]) else a, [])
  }

  function HandleGatheringDone(a: Agent): Step {
    Step(a.(calls := a.calls + [SetRemoteGatheringDone(a.instance)]), [])
  }

  /** All four branches of `handle_crownlink_message`, and the message for which there is none. */
  function Handle(a: Agent, m: Message): Step {
    match m
    case ConnectionRequest(counter) => HandleConnectionRequest(a, counter)
    case LocalDescription(sdp) => HandleLocalDescription(a, sdp)
    case Candidate(c) => HandleCandidate(a, c)
    case GatheringDone => HandleGatheringDone(a)
    case Pong => Step(a, [])
  }

  function SendConnectionRequest(a: Agent): Step {
    Step(a, [ConnectionRequest(a.ours)])
  }

  /** `send_message`; libjuice decides whether a datagram handed to it leaves the machine. */
  function SendMessage(a: Agent, data: seq<byte>): Step {
    match a.state
    case Connected => Step(a.(calls := a.calls + [SendDatagram(a.instance, GameData(data))]), [])
    case Completed => Step(a.(calls := a.calls + [SendDatagram(a.instance, GameData(data))]), [])
    case Disconnected => SendConnectionRequest(a)
    case Failed => Step(Reset(a), [])
    case Connecting => Step(a, [])
    case Gathering => Step(a, [])
  }

  function SetAgentType(a: Agent, kind: AgentType): Agent {
    Reset(a.(kind := kind))
  }

  function LocalCandidate(a: Agent, c: IceCandidate): seq<Message> {
    if ShouldUseCandidate(a.kind, c) then [Candidate(c)] else []
  }
}
