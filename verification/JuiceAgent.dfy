/**
 The agent as an object.  `Link` is its value: the session, the messages it has sent to the server and its average
 latency.  Each method of the class changes the value as a function says.
 */
module JuiceAgents {
  import opened Basics
  import opened Ema
  import opened JuiceSession
  import opened Packets

  const LATENCY_SAMPLES := 10

  // ----- Roles -----

  /** Byte-wise order from position `i` on. */
  predicate LessFrom(a: NetAddress, b: NetAddress, i: nat)
    requires i <= 16
    decreases 16 - i
  {
    i < 16 && (a[i] < b[i] || (a[i] == b[i] && LessFrom(a, b, i + 1)))
  }

  predicate Controls(self: NetAddress, peer: NetAddress) {
    LessFrom(self, peer, 0)
  }

  lemma {:induction false} LessFromIsStrict(a: NetAddress, b: NetAddress, i: nat)
    requires i <= 16
    ensures a[i..] == b[i..] ==> !LessFrom(a, b, i) && !LessFrom(b, a, i)
    ensures a[i..] != b[i..] ==> LessFrom(a, b, i) != LessFrom(b, a, i)
    decreases 16 - i
  {
    if i == 16 {
    } else {
      LessFromIsStrict(a, b, i + 1);
      assert a[i..] == [a[i]] + a[i + 1..] && b[i..] == [b[i]] + b[i + 1..];
    }
  }

  /** The first byte in which the two differ is smaller. */
  predicate SmallerAt(a: NetAddress, b: NetAddress, i: nat) {
    i < 16 && a[i] < b[i] && a[..i] == b[..i]
  }

  lemma {:induction false} LessFromFindsByte(a: NetAddress, b: NetAddress, i: nat)
    requires i <= 16 && a[..i] == b[..i] && LessFrom(a, b, i)
    ensures exists k :: SmallerAt(a, b, k)
    decreases 16 - i
  {
    if a[i] < b[i] {
      assert SmallerAt(a, b, i);
    } else {
      assert a[..i + 1] == a[..i] + [a[i]] && b[..i + 1] == b[..i] + [b[i]];
      LessFromFindsByte(a, b, i + 1);
    }
  }

  /** Of two agents with different ids exactly one controls, the one with the smaller id; with equal ids, neither does. */
  lemma ExactlyOneControls(a: NetAddress, b: NetAddress)
    ensures a != b ==> Controls(a, b) != Controls(b, a)
    ensures a == b ==> !Controls(a, b) && !Controls(b, a)
    ensures Controls(a, b) ==> exists k :: SmallerAt(a, b, k)
  {
    LessFromIsStrict(a, b, 0);
    assert a[0..] == a && b[0..] == b;
    if Controls(a, b) { LessFromFindsByte(a, b, 0); }
  }

  // ----- The value of an agent -----

  datatype Link = Link(session: Agent, outbox: seq<Message>, latency: Average)
  {
    function Take(step: Step): Link {
      this.(session := step.agent, outbox := outbox + step.sent)
    }

    predicate IsConnected() {
      session.IsConnected()
    }

    function SendMessage(data: seq<byte>): Link {
      Take(JuiceSession.SendMessage(session, data))
    }

    function SendCustomMessage(subType: PacketSubType, data: seq<byte>, size: nat): Link
      requires |data| <= MAX_PAYLOAD_SIZE && (size <= MAX_PAYLOAD_SIZE ==> size <= |data|)
    {
      if size > MAX_PAYLOAD_SIZE || !IsConnected() then this
      else
        var packet := CrownLinkData(size + HEADER_SIZE, subType, data[..size]);
        this.(session := session.(calls := session.calls + [SendDatagram(session.instance, packet)]))
    }

    function SendPing(now: nat): Link {
      SendCustomMessage(Ping, TimestampBytes(now), TIMESTAMP_SIZE)
    }

    function HandlePingResponse(packet: GamePacket, now: nat): Link {
      match ElapsedTime(packet, now)
      case None => this
      case Some(delta) => this.(latency := latency.Update(delta as real))
    }
  }

  /** What becomes of a received packet: a change of the agent, a packet for the worker, or one for the game. */
  datatype Received = Received(link: Link, response: Option<CustomPacket<AgentType>>, forGame: bool)

  function ReceivePacket(l: Link, address: NetAddress, packet: GamePacket, now: nat): Received {
    if packet.header.kind != CrownLink then Received(l, None, true)
    else
      match packet.header.subType
      case Ping =>
        var size := ClaimedPayload(packet.header);
        Received(l, Some(MakeCustomPacket(address, l.session.kind, PingResponse, packet.payload, size)), false)
      case PingResponse => Received(l.HandlePingResponse(packet, now), None, false)
      case Other => Received(l, None, false)
  }

  function FreshLink(kind: AgentType, controlling: bool, tick: nat): Link {
    var s := Construct(kind, controlling, tick);
    Link(s.agent, s.sent, Initial(LATENCY_SAMPLES, None))
  }

  // ----- The object -----

  class JuiceAgent {
    var agentType: AgentType
    var controlling: bool
    var lastLocalSdp: Sdp
    var lastRemoteSdp: Sdp
    var p2pState: JuiceState
    var attemptCounterOurs: nat
    var attemptCounterTheirs: nat
    const latency: EMA

    /** The libjuice instance behind `m_agent`, the calls made to libjuice, and the messages sent to the server. */
    var instance: nat
    var calls: seq<JuiceCall>
    var outbox: seq<Message>

    function Session(): Agent
      reads this
    {
      Agent(agentType, controlling, p2pState, lastLocalSdp, lastRemoteSdp, attemptCounterOurs, attemptCounterTheirs,
            instance, calls)
    }

    function State(): Link
      reads this, latency
    {
      Link(Session(), outbox, latency.State())
    }

    constructor (self: NetAddress, peer: NetAddress, kind: AgentType, tick: nat)
      ensures State() == FreshLink(kind, Controls(self, peer), tick) && fresh(latency)
    {
      agentType := kind;
      lastLocalSdp, lastRemoteSdp := EMPTY, EMPTY;
      p2pState := Disconnected;
      attemptCounterOurs, attemptCounterTheirs := tick, 0;
      latency := new EMA(LATENCY_SAMPLES, None);
      instance := 0;
      calls, outbox := [], [];
      controlling := Controls(self, peer);
      new;
      SendConnectionRequest();
    }

    method SendConnectionRequest()
      modifies this
      ensures State() == old(State()).Take(JuiceSession.SendConnectionRequest(old(Session())))
    {
      outbox := outbox + [ConnectionRequest(attemptCounterOurs)];
    }

    method ResetAgent()
      modifies this
      ensures State() == old(State()).(session := Reset(old(Session())))
    {
      attemptCounterOurs := attemptCounterOurs + 1;
      lastLocalSdp := EMPTY;
      lastRemoteSdp := EMPTY;
      p2pState := Disconnected;
      instance := instance + 1;
    }

    method OnStateChanged(state: JuiceState)
      modifies this
      ensures State() == old(State()).(session := StateChanged(old(Session()), state))
    {
      p2pState := state;
      if state == Gathering {
        attemptCounterOurs := attemptCounterOurs + 1;
      }
    }

    method TryInitialize()
      modifies this
      ensures State() == old(State()).Take(JuiceSession.TryInitialize(old(Session())))
    {
      match p2pState
      case Completed => assert outbox + [] == outbox;
      case Connected => assert outbox + [] == outbox;
      case Gathering => assert outbox + [] == outbox;
      case Connecting => assert outbox + [] == outbox;
      case Failed =>
        ResetAgent();
        Announce();
      case Disconnected =>
        Announce();
    }

    /** Sends the local description and starts gathering, which calls back before it returns. */
    method Announce()
      modifies this
      ensures State() == old(State()).Take(JuiceSession.Announce(old(Session())))
    {
      if lastLocalSdp == EMPTY {
        lastLocalSdp := DescriptionOf(instance);
      }
      outbox := outbox + [LocalDescription(lastLocalSdp)];
      calls := calls + [GatherCandidates(instance)];
      OnStateChanged(Gathering);
    }

    method HandleCrownlinkMessage(message: Message)
      modifies this
      ensures State() == old(State()).Take(Handle(old(Session()), message))
    {
      match message
      case ConnectionRequest(counter) =>
        if p2pState == Failed { ResetAgent(); }
        if attemptCounterTheirs > counter {
          assert outbox + [] == outbox;
          return;
        }
        if attemptCounterTheirs < counter {
          if p2pState != Disconnected { ResetAgent(); }
          attemptCounterTheirs := counter;
        }
        if !controlling {
          SendConnectionRequest();
          return;
        }
        TryInitialize();
      case LocalDescription(sdp) =>
        if lastRemoteSdp == EMPTY {
          lastRemoteSdp := sdp;
          calls := calls + [SetRemoteDescription(instance, sdp)];
          TryInitialize();
          return;
        }
        if lastRemoteSdp == sdp {
          assert outbox + [] == outbox;
          return;
        }
        ResetAgent();
        SendConnectionRequest();
      case Candidate(candidate) =>
        assert outbox + [] == outbox;
        if ShouldUseCandidate(agentType, candidate) {
          calls := calls + [AddRemoteCandidate(instance, candidate)];
        }
      case GatheringDone =>
        assert outbox + [] == outbox;
        calls := calls + [SetRemoteGatheringDone(instance)];
      case Pong =>
        assert outbox + [] == outbox;
    }

    method OnCandidate(candidate: IceCandidate)
      modifies this
      ensures State() == old(State()).Take(Step(old(Session()), LocalCandidate(old(Session()), candidate)))
    {
      assert outbox + [] == outbox;
      if ShouldUseCandidate(agentType, candidate) {
        outbox := outbox + [Candidate(candidate)];
      }
    }

    method OnGatheringDone()
      modifies this
      ensures State() == old(State()).Take(Step(old(Session()), [GatheringDone]))
    {
      outbox := outbox + [GatheringDone];
    }

    method SetAgentType(kind: AgentType)
      modifies this
      ensures State() == old(State()).(session := JuiceSession.SetAgentType(old(Session()), kind))
    {
      agentType := kind;
      ResetAgent();
    }

    /** `accepted` is libjuice's answer, should the datagram be handed to it. */
    method SendMessage(data: seq<byte>, accepted: bool) returns (ok: bool)
      modifies this
      ensures State() == old(State()).SendMessage(data)
      ensures ok == (old(Session()).IsConnected() && accepted)
    {
      assert outbox + [] == outbox;
      ok := false;
      match p2pState
      case Connected =>
        calls := calls + [SendDatagram(instance, GameData(data))];
        ok := accepted;
      case Completed =>
        calls := calls + [SendDatagram(instance, GameData(data))];
        ok := accepted;
      case Disconnected => SendConnectionRequest();
      case Failed => ResetAgent();
      case Connecting =>
      case Gathering =>
    }

    method SendCustomMessage(subType: PacketSubType, data: seq<byte>, size: nat, accepted: bool) returns (ok: bool)
      requires |data| <= MAX_PAYLOAD_SIZE && (size <= MAX_PAYLOAD_SIZE ==> size <= |data|)
      modifies this
      ensures State() == old(State()).SendCustomMessage(subType, data, size)
      ensures ok == (size <= MAX_PAYLOAD_SIZE && old(Session()).IsConnected() && accepted)
    {
      if size > MAX_PAYLOAD_SIZE { return false; }
      if p2pState != Connected && p2pState != Completed { return false; }
      calls := calls + [SendDatagram(instance, CrownLinkData(size + HEADER_SIZE, subType, data[..size]))];
      ok := accepted;
    }

    method SendPing(now: nat, accepted: bool)
      modifies this
      ensures State() == old(State()).SendPing(now)
    {
      var _ := SendCustomMessage(Ping, TimestampBytes(now), TIMESTAMP_SIZE, accepted);
    }

    /** The packet queued for the worker thread in answer to a ping. */
    method HandlePing(address: NetAddress, packet: GamePacket) returns (response: CustomPacket<AgentType>)
      ensures response.address == address && response.kind == agentType && response.subType == PingResponse
      ensures response.dataSize == ClaimedPayload(packet.header)
      ensures response.dataSize <= MAX_PAYLOAD_SIZE ==>
                && response.data[..response.dataSize] == packet.payload[..response.dataSize]
                && response.data[response.dataSize..] == Zeros(MAX_PAYLOAD_SIZE - response.dataSize)
      ensures response.dataSize > MAX_PAYLOAD_SIZE ==> response.data == Zeros(MAX_PAYLOAD_SIZE)
    {
      response := MakeCustomPacket(address, agentType, PingResponse, packet.payload, ClaimedPayload(packet.header));
    }

    method HandlePingResponse(packet: GamePacket, now: nat)
      modifies latency
      ensures State() == old(State()).HandlePingResponse(packet, now)
    {
      if ClaimedPayload(packet.header) != TIMESTAMP_SIZE { return; }
      var elapsed := ElapsedTime(packet, now);
      if elapsed.None? { return; }
      var _ := latency.Update(elapsed.value as real);
    }

    /** The libjuice callback. The caller queues the response, or passes the packet to the game. */
    method OnRecv(address: NetAddress, packet: GamePacket, now: nat)
      returns (response: Option<CustomPacket<AgentType>>, forGame: bool)
      modifies latency
      ensures Received(State(), response, forGame) == ReceivePacket(old(State()), address, packet, now)
    {
      response, forGame := None, packet.header.kind != CrownLink;
      if packet.header.kind == CrownLink {
        if packet.header.subType == Ping {
          var r := HandlePing(address, packet);
          var n := if r.dataSize <= MAX_PAYLOAD_SIZE then r.dataSize else 0;
          assert r.data == r.data[..n] + r.data[n..];
          response := Some(r);
        } else if packet.header.subType == PingResponse {
          HandlePingResponse(packet, now);
        }
      }
    }
  }
}
