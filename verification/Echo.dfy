/**
 The way of a ping's answer: from the agent that received the ping, through the manager's queue and its worker, to the
 pair of the peer and the agent of that pair.
 */
module Echoes {
  import opened Basics
  import opened JuiceAgents
  import opened JuiceManagers
  import opened JuiceSession
  import opened Packets
  import opened PairProperties
  import opened PairState
  import Pings

  predicate IsPing(packet: GamePacket) {
    packet.header.kind == CrownLink && packet.header.subType == Ping
  }

  /** The agent with one more answer in its log. */
  function Answered(l: Link, size: nat, payload: seq<byte>): Link {
    var answer := CrownLinkData(size, PingResponse, payload);
    l.(session := l.session.(calls := l.session.calls + [SendDatagram(l.session.instance, answer)]))
  }

  /** In a coherent pair the type of an agent leads back to it. */
  lemma EchoTakesSamePath(p: Pair, path: Path, response: CustomPacket<AgentType>)
    requires LegacyCoherent(p) && p.At(path).Some? && response.kind == p.At(path).value.session.kind
    ensures SendCustomPacket(p, response)
         == p.With(path, p.At(path).value.SendCustomMessage(response.subType, response.data, response.dataSize))
  {
  }

  /** With nothing waiting, one round of the worker answers a ping. */
  lemma PingIsAnsweredAtOnce(m: Manager, path: Path, packet: GamePacket, now: nat)
    requires packet.sender in m.pairs && m.queue == [] && IsPing(packet)
    requires LegacyCoherent(m.pairs[packet.sender]) && m.pairs[packet.sender].At(path).Some?
    ensures Worked(After(m, PacketReceived(path, packet, now))) == AfterAnswer(m, path, packet)
  {
    var p := m.pairs[packet.sender];
    var l := p.At(path).value;
    var response := ReceivePacket(l, packet.sender, packet, now).response.value;
    Pings.PingIsEchoedOrRefused(l, packet.sender, packet, now);
    EchoTakesSamePath(p, path, response);
    PingIsQueued(m, path, packet, now);
    assert p.With(path, l) == p;
    assert m.pairs[packet.sender := p] == m.pairs;
  }

  /** The agent that received the ping has given its answer, if it is connected and the size is possible. */
  function AfterAnswer(m: Manager, path: Path, packet: GamePacket): Manager
    requires packet.sender in m.pairs && m.pairs[packet.sender].At(path).Some?
  {
    var p := m.pairs[packet.sender];
    var l := p.At(path).value;
    var size := packet.header.size;
    if HEADER_SIZE <= size <= MAX_PACKET_SIZE && l.IsConnected()
    then WithPair(m, packet.sender, p.With(path, Answered(l, size, packet.payload[..size - HEADER_SIZE])))
    else m
  }

  /** The worker runs `n` times. */
  function Rounds(m: Manager, n: nat): Manager {
    if n == 0 then m else Worked(Rounds(m, n - 1))
  }

  function Queue(m: Manager, response: CustomPacket<AgentType>): Manager {
    m.(queue := m.queue + [response])
  }

  /** An answer at the end of the queue does not disturb those before it. */
  lemma {:induction false} LastWaits(m: Manager, response: CustomPacket<AgentType>, n: nat)
    requires n <= |m.queue|
    ensures |Rounds(m, n).queue| == |m.queue| - n
    ensures Rounds(Queue(m, response), n) == Queue(Rounds(m, n), response)
  {
    if n == 0 {
    } else {
      LastWaits(m, response, n - 1);
      WorkedBefore(Rounds(m, n - 1), response);
    }
  }

  lemma WorkedBefore(m: Manager, response: CustomPacket<AgentType>)
    requires m.queue != []
    ensures Worked(Queue(m, response)) == Queue(Worked(m), response)
  {
    assert (m.queue + [response])[1..] == m.queue[1..] + [response];
  }

  /** The worker's rounds leave every agent where it is, of its type and as connected as it was. */
  predicate SameAgents(p: Pair, q: Pair) {
    && SameKinds(p, q)
    && q.p2p.session.state == p.p2p.session.state
    && (p.relay.Some? ==> q.relay.value.session.state == p.relay.value.session.state)
  }

  lemma CustomKeepsAgents(p: Pair, response: CustomPacket<AgentType>)
    ensures SameAgents(p, SendCustomPacket(p, response))
  {
  }

  lemma {:induction false} RoundsKeepAgents(m: Manager, n: nat, peer: NetAddress)
    requires peer in m.pairs
    ensures peer in Rounds(m, n).pairs && SameAgents(m.pairs[peer], Rounds(m, n).pairs[peer])
  {
    if n == 0 {
    } else {
      RoundsKeepAgents(m, n - 1, peer);
      var before := Rounds(m, n - 1);
      if before.queue != [] && before.queue[0].address == peer {
        CustomKeepsAgents(before.pairs[peer], before.queue[0]);
      }
    }
  }

  /**
   A ping of any claimed size, received by either agent of a pair, comes back from the worker, once it has dealt with what
   waits before it, as one answer with exactly its payload through the agent it came to, if that is connected and the size
   is possible. Apart from that everything is as if there had been no ping.
   */
  lemma PingIsAnswered(m: Manager, path: Path, packet: GamePacket, now: nat)
    requires packet.sender in m.pairs && IsPing(packet)
    requires LegacyCoherent(m.pairs[packet.sender]) && m.pairs[packet.sender].At(path).Some?
    ensures
      var without := Rounds(m, |m.queue|);
      && without.queue == []
      && packet.sender in without.pairs && without.pairs[packet.sender].At(path).Some?
      && without.pairs[packet.sender].Connected(path) == m.pairs[packet.sender].Connected(path)
      && Rounds(After(m, PacketReceived(path, packet, now)), |m.queue| + 1) == AfterAnswer(without, path, packet)
  {
    var l := m.pairs[packet.sender].At(path).value;
    var response := ReceivePacket(l, packet.sender, packet, now).response.value;
    var without := Rounds(m, |m.queue|);
    RoundsKeepAgents(m, |m.queue|, packet.sender);
    PingIsQueued(m, path, packet, now);
    LastWaits(m, response, |m.queue|);
    PingIsQueued(without, path, packet, now);
    PingIsAnsweredAtOnce(without, path, packet, now);
  }

  /** A ping changes nothing but the queue. */
  lemma PingIsQueued(m: Manager, path: Path, packet: GamePacket, now: nat)
    requires packet.sender in m.pairs && IsPing(packet) && m.pairs[packet.sender].At(path).Some?
    ensures
      var l := m.pairs[packet.sender].At(path).value;
      After(m, PacketReceived(path, packet, now)) ==
      m.(queue := m.queue + [ReceivePacket(l, packet.sender, packet, now).response.value])
  {
    var p := m.pairs[packet.sender];
    assert p.With(path, p.At(path).value) == p;
    assert m.pairs[packet.sender := p] == m.pairs;
  }

  // ----- Whole runs -----

  /** An answer as it goes out: to whom, through which agent, with what. */
  datatype Answer = Answer(peer: NetAddress, path: Path, size: nat, payload: seq<byte>)

  predicate Echoes(call: JuiceCall, a: Answer) {
    call.SendDatagram? && call.datagram == CrownLinkData(a.size, PingResponse, a.payload)
  }

  function EchoesIn(calls: seq<JuiceCall>, a: Answer): nat {
    if calls == [] then 0
    else EchoesIn(calls[..|calls| - 1], a) + if Echoes(calls[|calls| - 1], a) then 1 else 0
  }

  /** How often the answer has been given by the agent on its path. */
  function EchoesOf(p: Pair, a: Answer): nat {
    if p.At(a.path).Some? then EchoesIn(p.At(a.path).value.session.calls, a) else 0
  }

  function Given(m: Manager, a: Answer): nat {
    if a.peer in m.pairs then EchoesOf(m.pairs[a.peer], a) else 0
  }

  predicate Waits(response: CustomPacket<AgentType>, a: Answer) {
    && response.address == a.peer && response.subType == PingResponse
    && (response.kind == Relay <==> a.path == RelayPath)
    && response.dataSize <= MAX_PAYLOAD_SIZE && response.dataSize + HEADER_SIZE == a.size
    && response.data[..response.dataSize] == a.payload
  }

  function Waiting(queue: seq<CustomPacket<AgentType>>, a: Answer): nat {
    if queue == [] then 0 else (if Waits(queue[0], a) then 1 else 0) + Waiting(queue[1..], a)
  }

  /** The event is a ping that calls for this answer. */
  predicate Asks(m: Manager, e: ManagerEvent, a: Answer) {
    && e.PacketReceived? && IsPing(e.packet) && e.packet.sender == a.peer && e.path == a.path
    && a.peer in m.pairs && m.pairs[a.peer].At(a.path).Some?
    && HEADER_SIZE <= e.packet.header.size <= MAX_PACKET_SIZE
    && a.size == e.packet.header.size && a.payload == e.packet.payload[..a.size - HEADER_SIZE]
  }

  function Asked(m: Manager, run: seq<ManagerEvent>, a: Answer): nat {
    if run == [] then 0
    else
      var before := JuiceManagers.Exec(m, run[..|run| - 1]);
      Asked(m, run[..|run| - 1], a) + if Asks(before, run[|run| - 1], a) then 1 else 0
  }

  predicate HasAgent(m: Manager, a: Answer) {
    a.peer in m.pairs && m.pairs[a.peer].At(a.path).Some?
  }

  /** It is the answer's turn, but its agent is gone or not connected. */
  predicate Refuses(m: Manager, e: ManagerEvent, a: Answer) {
    && e.WorkerRuns? && m.queue != [] && Waits(m.queue[0], a)
    && !(a.peer in m.pairs && m.pairs[a.peer].Connected(a.path))
  }

  function Refused(m: Manager, run: seq<ManagerEvent>, a: Answer): nat {
    if run == [] then 0
    else
      var before := JuiceManagers.Exec(m, run[..|run| - 1]);
      Refused(m, run[..|run| - 1], a) + if Refuses(before, run[|run| - 1], a) then 1 else 0
  }

  /** What an agent had given when it went, with its pair or in a downgrade. */
  function Gone(m: Manager, m': Manager, a: Answer): nat {
    if HasAgent(m', a) then 0 else Given(m, a)
  }

  function Forgotten(m: Manager, run: seq<ManagerEvent>, a: Answer): nat {
    if run == [] then 0
    else
      var before := JuiceManagers.Exec(m, run[..|run| - 1]);
      Forgotten(m, run[..|run| - 1], a) + Gone(before, After(before, run[|run| - 1]), a)
  }

  lemma EchoesAppend(calls: seq<JuiceCall>, call: JuiceCall, a: Answer)
    ensures EchoesIn(calls + [call], a) == EchoesIn(calls, a) + if Echoes(call, a) then 1 else 0
  {
    assert (calls + [call])[..|calls|] == calls;
  }

  lemma {:induction false} WaitingAppend(
    queue: seq<CustomPacket<AgentType>>, response: CustomPacket<AgentType>, a: Answer)
    ensures Waiting(queue + [response], a) == Waiting(queue, a) + if Waits(response, a) then 1 else 0
  {
    if queue != [] {
      WaitingAppend(queue[1..], response, a);
      assert (queue + [response])[1..] == queue[1..] + [response];
    } else {
      assert queue + [response] == [response];
    }
  }

  // ----- Nothing but the worker answers -----

  predicate SameEchoes(p: Pair, q: Pair, a: Answer) {
    EchoesOf(q, a) == EchoesOf(p, a)
  }

  lemma TransmitEchoes(p: Pair, path: Path, data: seq<byte>, a: Answer)
    ensures SameEchoes(p, p.Transmit(path, data), a)
  {
    if p.Connected(path) {
      var s := p.At(path).value.session;
      EchoesAppend(s.calls, SendDatagram(s.instance, GameData(data)), a);
    }
  }

  lemma PingEchoes(p: Pair, path: Path, now: nat, a: Answer)
    ensures SameEchoes(p, p.Ping(path, now), a)
  {
    if p.Connected(path) {
      var s := p.At(path).value.session;
      var ping := CrownLinkData(TIMESTAMP_SIZE + HEADER_SIZE, PacketSubType.Ping, TimestampBytes(now)[..TIMESTAMP_SIZE]);
      EchoesAppend(s.calls, SendDatagram(s.instance, ping), a);
    }
  }

  lemma PingsEchoes(p: Pair, now: nat, a: Answer)
    ensures SameEchoes(p, SendPings(p, now), a)
  {
    PingEchoes(p, DirectPath, now, a);
    PingEchoes(p.Ping(DirectPath, now), RelayPath, now, a);
  }

  lemma RoutedEchoes(p: Pair, now: nat, a: Answer)
    ensures SameEchoes(p, Routed(p, now), a)
  {
    var counted := p.(sendCounter := p.sendCounter + 1);
    CountingEchoes(p, counted, a);
    PingedEchoes(counted, now, a);
  }

  lemma CountingEchoes(p: Pair, counted: Pair, a: Answer)
    requires counted == p.(sendCounter := counted.sendCounter)
    ensures SameEchoes(p, counted, a)
  {
  }

  lemma PingedEchoes(p: Pair, now: nat, a: Answer)
    ensures SameEchoes(p, Pinged(p, now), a)
  {
    PingsEchoes(p, now, a);
  }

  lemma RedundantEchoes(p: Pair, data: seq<byte>, env: Env, a: Answer)
    ensures SameEchoes(p, SendRedundant(p, data, env).pair, a)
  {
    TransmitEchoes(p, DirectPath, data, a);
    TransmitEchoes(if p.Connected(DirectPath) then p.Transmit(DirectPath, data) else p, RelayPath, data, a);
  }

  lemma PreferenceEchoes(p: Pair, first: Path, second: Path, data: seq<byte>, env: Env, a: Answer)
    ensures SameEchoes(p, SendWithPreference(p, first, second, data, env).pair, a)
  {
    TransmitEchoes(p, first, data, a);
    TransmitEchoes(if p.Connected(first) then p.Transmit(first, data) else p, second, data, a);
  }

  lemma BestEchoes(p: Pair, data: seq<byte>, env: Env, a: Answer)
    ensures SameEchoes(p, SendBest(p, data, env).pair, a)
  {
    TransmitEchoes(p.(stats := p.stats.(p2p := p.stats.p2p + 1)), DirectPath, data, a);
    TransmitEchoes(p.(stats := p.stats.(relay := p.stats.relay + 1)), RelayPath, data, a);
  }

  lemma SendEchoes(p: Pair, data: seq<byte>, env: Env, a: Answer)
    ensures SameEchoes(p, SendP2P(p, data, env).pair, a)
  {
    var q := Routed(p, env.now);
    RoutedEchoes(p, env.now, a);
    RedundantEchoes(CountRedundant(q), data, env, a);
    PreferenceEchoes(q, DirectPath, RelayPath, data, env, a);
    PreferenceEchoes(q, RelayPath, DirectPath, data, env, a);
    BestEchoes(q, data, env, a);
    TransmitEchoes(q, DirectPath, data, a);
  }

  lemma {:induction false} QuietCalls(before: seq<JuiceCall>, after: seq<JuiceCall>, a: Answer)
    requires before <= after && forall i :: |before| <= i < |after| ==> !after[i].SendDatagram?
    ensures EchoesIn(after, a) == EchoesIn(before, a)
  {
    if |before| < |after| {
      QuietCalls(before, after[..|after| - 1], a);
    } else {
      assert before == after;
    }
  }

  /** The agent on the answer's path has given it as often as before, if it is still there. */
  predicate KeepsEchoes(p: Pair, q: Pair, a: Answer) {
    q.At(a.path).Some? ==> EchoesOf(q, a) == EchoesOf(p, a)
  }

  lemma MessageEchoes(p: Pair, kind: AgentType, message: Message, a: Answer)
    ensures KeepsEchoes(p, HandleCrownlinkMessage(p, kind, message), a)
  {
    var q := if kind == RelayFallback && !p.legacy then Downgrade(p) else p;
    Pings.HandleOnlyCalls(q.p2p.session, message);
    QuietCalls(q.p2p.session.calls, Handle(q.p2p.session, message).agent.calls, a);
    if q.relay.Some? {
      Pings.HandleOnlyCalls(q.relay.value.session, message);
      QuietCalls(q.relay.value.session.calls, Handle(q.relay.value.session, message).agent.calls, a);
    }
  }

  lemma ArrivalEchoes(p: Pair, path: Path, packet: GamePacket, now: nat, a: Answer)
    ensures SameEchoes(p, ReceiveOn(p, path, packet, now).pair, a)
  {
  }

  // ----- One event of the manager -----

  /** From `m` to `m'`, answers only move between those that wait, are given, refused or gone, except for those asked for. */
  predicate Balances(m: Manager, m': Manager, asked: nat, refused: nat, a: Answer) {
    Given(m', a) + Waiting(m'.queue, a) + refused + Gone(m, m', a) == Given(m, a) + Waiting(m.queue, a) + asked
  }

  lemma AgentKeepsGiven(m: Manager, peer: NetAddress, ticks: Ticks, a: Answer)
    ensures Given(WithAgent(m, peer, ticks), a) == Given(m, a) && WithAgent(m, peer, ticks).queue == m.queue
    ensures HasAgent(m, a) ==> HasAgent(WithAgent(m, peer, ticks), a)
  {
  }

  lemma PairBalances(m: Manager, ensured: Manager, peer: NetAddress, p: Pair, a: Answer)
    requires Given(ensured, a) == Given(m, a) && ensured.queue == m.queue
    requires peer in ensured.pairs && KeepsEchoes(ensured.pairs[peer], p, a)
    requires HasAgent(m, a) ==> HasAgent(ensured, a)
    ensures Balances(m, WithPair(ensured, peer, p), 0, 0, a)
  {
  }

  lemma SendingBalances(m: Manager, peer: NetAddress, data: seq<byte>, env: Env, ticks: Ticks, a: Answer)
    ensures Balances(m, SentTo(m, peer, data, env, ticks).manager, 0, 0, a)
  {
    AgentKeepsGiven(m, peer, ticks, a);
    var ensured := WithAgent(m, peer, ticks);
    SendEchoes(ensured.pairs[peer], data, env, a);
    PairBalances(m, ensured, peer, SendP2P(ensured.pairs[peer], data, env).pair, a);
  }

  lemma MessageBalances(m: Manager, peer: NetAddress, kind: AgentType, message: Message, ticks: Ticks, a: Answer)
    ensures Balances(m, Told(m, peer, kind, message, ticks), 0, 0, a)
  {
    AgentKeepsGiven(m, peer, ticks, a);
    var ensured := WithAgent(m, peer, ticks);
    MessageEchoes(ensured.pairs[peer], kind, message, a);
    PairBalances(m, ensured, peer, HandleCrownlinkMessage(ensured.pairs[peer], kind, message), a);
  }

  lemma RequestBalances(m: Manager, peer: NetAddress, ticks: Ticks, a: Answer)
    ensures Balances(m, Requested(m, peer, ticks), 0, 0, a)
  {
    AgentKeepsGiven(m, peer, ticks, a);
    var ensured := WithAgent(m, peer, ticks);
    PairBalances(m, ensured, peer, RequestConnection(ensured.pairs[peer]), a);
  }

  lemma ReportBalances(m: Manager, peer: NetAddress, path: Path, state: JuiceState, a: Answer)
    ensures Balances(m, OnPair(m, peer, JuiceReports(path, state)), 0, 0, a)
  {
    if peer in m.pairs {
      PairBalances(m, m, peer, PairState.Next(m.pairs[peer], JuiceReports(path, state)), a);
    }
  }

  /** A ping adds one answer to those that wait, and only the one it asks for. */
  lemma PingWaits(l: Link, path: Path, packet: GamePacket, now: nat, a: Answer)
    requires IsPing(packet) && (l.session.kind == Relay <==> path == RelayPath)
    ensures
      var response := ReceivePacket(l, packet.sender, packet, now).response;
      response.Some? &&
      (Waits(response.value, a) <==>
        && packet.sender == a.peer && path == a.path && HEADER_SIZE <= packet.header.size <= MAX_PACKET_SIZE
        && a.size == packet.header.size && a.payload == packet.payload[..a.size - HEADER_SIZE])
  {
    Pings.SizesRefused(packet.header);
    if HEADER_SIZE <= packet.header.size <= MAX_PACKET_SIZE {
      Pings.PayloadIsKept(packet.sender, l.session.kind, packet, packet.header.size - HEADER_SIZE);
    }
  }

  lemma ArrivalBalances(m: Manager, path: Path, packet: GamePacket, now: nat, a: Answer)
    requires packet.sender in m.pairs ==> LegacyCoherent(m.pairs[packet.sender])
    ensures
      var e := PacketReceived(path, packet, now);
      Balances(m, After(m, e), if Asks(m, e, a) then 1 else 0, 0, a)
  {
    if packet.sender in m.pairs {
      var p := m.pairs[packet.sender];
      if IsPing(packet) && p.At(path).Some? {
        var l := p.At(path).value;
        PingIsQueued(m, path, packet, now);
        PingWaits(l, path, packet, now, a);
        WaitingAppend(m.queue, ReceivePacket(l, packet.sender, packet, now).response.value, a);
      } else {
        ArrivalEchoes(p, path, packet, now, a);
        OthersQueueNothing(p, path, packet, now);
        PairBalances(m, m, packet.sender, ReceiveOn(p, path, packet, now).pair, a);
      }
    }
  }

  lemma OthersQueueNothing(p: Pair, path: Path, packet: GamePacket, now: nat)
    requires !IsPing(packet) || p.At(path).None?
    ensures ReceiveOn(p, path, packet, now).response == None
  {
  }

  lemma LinkEchoes(l: Link, response: CustomPacket<AgentType>, a: Answer)
    ensures
      var after := l.SendCustomMessage(response.subType, response.data, response.dataSize);
      var answers := response.subType == PingResponse && response.dataSize <= MAX_PAYLOAD_SIZE
        && response.dataSize + HEADER_SIZE == a.size && response.data[..response.dataSize] == a.payload;
      EchoesIn(after.session.calls, a)
      == EchoesIn(l.session.calls, a) + if l.IsConnected() && answers then 1 else 0
  {
    if l.IsConnected() && response.dataSize <= MAX_PAYLOAD_SIZE {
      EchoesAppend(l.session.calls, SendDatagram(l.session.instance,
        CrownLinkData(response.dataSize + HEADER_SIZE, response.subType, response.data[..response.dataSize])), a);
    }
  }

  /** The worker gives the first answer in the queue exactly if its agent is connected. */
  lemma CustomEchoes(p: Pair, response: CustomPacket<AgentType>, a: Answer)
    requires response.address == a.peer
    ensures EchoesOf(SendCustomPacket(p, response), a)
         == EchoesOf(p, a) + if Waits(response, a) && p.Connected(a.path) then 1 else 0
  {
    LinkEchoes(p.p2p, response, a);
    if p.relay.Some? { LinkEchoes(p.relay.value, response, a); }
  }

  lemma WorkerBalances(m: Manager, a: Answer)
    ensures Balances(m, Worked(m), 0, if Refuses(m, ManagerEvent.WorkerRuns, a) then 1 else 0, a)
  {
    if m.queue != [] && m.queue[0].address in m.pairs {
      var peer := m.queue[0].address;
      CustomKeepsAgents(m.pairs[peer], m.queue[0]);
      if peer == a.peer { CustomEchoes(m.pairs[peer], m.queue[0], a); }
    }
  }

  lemma NextBalances(m: Manager, e: ManagerEvent, a: Answer)
    requires forall peer :: peer in m.pairs ==> LegacyCoherent(m.pairs[peer])
    ensures Balances(m, After(m, e), if Asks(m, e, a) then 1 else 0, if Refuses(m, e, a) then 1 else 0, a)
  {
    match e
    case GameSendsTo(peer, data, env, ticks) => SendingBalances(m, peer, data, env, ticks, a);
    case MessageFrom(peer, kind, message, ticks) => MessageBalances(m, peer, kind, message, ticks, a);
    case PeerWanted(peer, ticks) => RequestBalances(m, peer, ticks, a);
    case AgentReports(peer, path, state) => ReportBalances(m, peer, path, state, a);
    case StateAsked(peer, ticks) => AgentKeepsGiven(m, peer, ticks, a);
    case PacketReceived(path, packet, now) => ArrivalBalances(m, path, packet, now, a);
    case WorkerRuns => WorkerBalances(m, a);
    case InactiveCleared(_) =>
  }

  /**
   Through any run of the manager, with pairs cleared, made again and downgraded on the way, every answer that was asked
   for is accounted for exactly once: the agent on the path it was asked on has given it, it still waits, it was refused
   because that agent was gone or not connected, or the agent that gave it is gone.
   */
  lemma {:induction false} AnswersAreConserved(m: Manager, run: seq<ManagerEvent>, a: Answer)
    requires m.pairs == map[] && m.queue == []
    ensures
      var after := JuiceManagers.Exec(m, run);
      Given(after, a) + Waiting(after.queue, a) + Refused(m, run, a) + Forgotten(m, run, a) == Asked(m, run, a)
  {
    if run == [] {
    } else {
      var front := run[..|run| - 1];
      var before := JuiceManagers.Exec(m, front);
      AnswersAreConserved(m, front, a);
      forall peer | peer in before.pairs ensures LegacyCoherent(before.pairs[peer]) {
        EveryPairIsCoherent(m, front, peer);
      }
      NextBalances(before, run[|run| - 1], a);
    }
  }

  /** So no agent gives an answer more often than it was asked for it. */
  lemma EveryAnswerWasAskedFor(m: Manager, run: seq<ManagerEvent>, a: Answer)
    requires m.pairs == map[] && m.queue == []
    ensures
      var after := JuiceManagers.Exec(m, run);
      Given(after, a) + Waiting(after.queue, a) <= Asked(m, run, a)
  {
    AnswersAreConserved(m, run, a);
  }
}
