/**
 The two agents kept for one peer, as a value: which of them a game packet goes through, and what is counted.
 */
module PairState {
  import opened Basics
  import opened Ema
  import opened JuiceAgents
  import opened JuiceSession
  import opened Packets

  const PING_EVERY := 15
  const QUALITY_SAMPLES := 50
  const DUPLICATE_SEND_THRESHOLD := 0.8
  const LATENCY_THRESHOLD := 10.0
  const MAXIMUM_LATENCY_FOR_REDUNDANT := 625.0

  datatype SendStrategy = PreferP2P | PreferRelay | Best | Redundant | AdaptiveRedundant

  datatype Stats = Stats(p2p: nat, relay: nat, redundant: nat)

  datatype Path = DirectPath | RelayPath

  /** The clock, and whether libjuice takes a datagram on each path. */
  datatype Env = Env(now: nat, directAccepts: bool, relayAccepts: bool)
  {
    predicate Accepts(path: Path) {
      if path == DirectPath then directAccepts else relayAccepts
    }
  }

  datatype Pair = Pair(
    p2p: Link,
    relay: Option<Link>,
    legacy: bool,
    strategy: SendStrategy,
    sendCounter: nat,
    quality: Average,
    stats: Stats)
  {
    function At(path: Path): Option<Link> {
      if path == DirectPath then Some(p2p) else relay
    }

    function With(path: Path, link: Link): Pair {
      if path == DirectPath then this.(p2p := link) else this.(relay := Some(link))
    }

    predicate Connected(path: Path) {
      At(path).Some? && At(path).value.IsConnected()
    }

    function Transmit(path: Path, data: seq<byte>): Pair {
      if At(path).Some? then With(path, At(path).value.SendMessage(data)) else this
    }

    function Ping(path: Path, now: nat): Pair {
      if Connected(path) then With(path, At(path).value.SendPing(now)) else this
    }
  }

  /** The pair after a send, and the result the game sees. */
  datatype Sent = Sent(pair: Pair, ok: bool)

  function FreshPair(controlling: bool, directTick: nat, relayTick: nat): Pair {
    Pair(FreshLink(P2P, controlling, directTick), Some(FreshLink(Relay, controlling, relayTick)), false,
         AdaptiveRedundant, 0, Initial(QUALITY_SAMPLES, Some(1.0)), Stats(0, 0, 0))
  }

  function GetBest(p: Pair): Path {
    if p.legacy then DirectPath
    else if !p.Connected(RelayPath) then DirectPath
    else if !p.Connected(DirectPath) then RelayPath
    else
      var delta := p.p2p.latency.value - p.relay.value.latency.value;
      if -LATENCY_THRESHOLD < delta < LATENCY_THRESHOLD then DirectPath
      else if delta > 0.0 then RelayPath
      else DirectPath
  }

  function SendBest(p: Pair, data: seq<byte>, env: Env): Sent {
    var best := GetBest(p);
    var counted := p.(stats := if best == DirectPath then p.stats.(p2p := p.stats.p2p + 1)
                               else p.stats.(relay := p.stats.relay + 1));
    Sent(counted.Transmit(best, data), p.Connected(best) && env.Accepts(best))
  }

  function SendLegacy(p: Pair, data: seq<byte>, env: Env): Sent {
    if p.Connected(DirectPath) then Sent(p.Transmit(DirectPath, data), env.directAccepts) else Sent(p, false)
  }

  function SendWithPreference(p: Pair, first: Path, second: Path, data: seq<byte>, env: Env): Sent {
    var tried := if p.Connected(first) then p.Transmit(first, data) else p;
    if p.Connected(first) && env.Accepts(first) then Sent(tried, true)
    else if tried.Connected(second) then Sent(tried.Transmit(second, data), env.Accepts(second))
    else Sent(tried, false)
  }

  function SendRedundant(p: Pair, data: seq<byte>, env: Env): Sent {
    var direct := if p.Connected(DirectPath) then p.Transmit(DirectPath, data) else p;
    var both := if p.Connected(RelayPath) then direct.Transmit(RelayPath, data) else direct;
    Sent(both, (p.Connected(DirectPath) && env.directAccepts) || (p.Connected(RelayPath) && env.relayAccepts))
  }

  predicate ShouldSendRedundant(p: Pair) {
    && !p.legacy
    && p.Connected(DirectPath) && p.Connected(RelayPath)
    && p.p2p.latency.value <= MAXIMUM_LATENCY_FOR_REDUNDANT
    && p.relay.value.latency.value <= MAXIMUM_LATENCY_FOR_REDUNDANT
    && p.quality.value <= DUPLICATE_SEND_THRESHOLD
  }

  function SendPings(p: Pair, now: nat): Pair {
    p.Ping(DirectPath, now).Ping(RelayPath, now)
  }

  function CountRedundant(p: Pair): Pair {
    p.(stats := p.stats.(redundant := p.stats.redundant + 1))
  }

  /** The pair as a send finds it: counted, and pinged every fifteenth time. */
  function Routed(p: Pair, now: nat): Pair {
    Pinged(p.(sendCounter := p.sendCounter + 1), now)
  }

  function Pinged(p: Pair, now: nat): Pair {
    if p.sendCounter % PING_EVERY == 0 then SendPings(p, now) else p
  }

  function SendByStrategy(p: Pair, data: seq<byte>, env: Env): Sent {
    match p.strategy
    case PreferP2P => SendWithPreference(p, DirectPath, RelayPath, data, env)
    case PreferRelay => SendWithPreference(p, RelayPath, DirectPath, data, env)
    case Best => SendBest(p, data, env)
    case Redundant => SendRedundant(CountRedundant(p), data, env)
    case AdaptiveRedundant =>
      if ShouldSendRedundant(p) then SendRedundant(CountRedundant(p), data, env) else SendBest(p, data, env)
  }

  function SendP2P(p: Pair, data: seq<byte>, env: Env): Sent {
    var routed := Routed(p, env.now);
    if routed.legacy then SendLegacy(routed, data, env) else SendByStrategy(routed, data, env)
  }

  function RequestConnection(p: Pair): Pair {
    var direct := p.(p2p := p.p2p.Take(SendConnectionRequest(p.p2p.session)));
    if !p.legacy && p.relay.Some?
    then direct.(relay := Some(p.relay.value.Take(SendConnectionRequest(p.relay.value.session))))
    else direct
  }

  function SendCustomPacket(p: Pair, packet: CustomPacket<AgentType>): Pair {
    match packet.kind
    case P2P => p.(p2p := p.p2p.SendCustomMessage(packet.subType, packet.data, packet.dataSize))
    case RelayFallback => p.(p2p := p.p2p.SendCustomMessage(packet.subType, packet.data, packet.dataSize))
    case Relay =>
      if p.relay.Some?
      then p.(relay := Some(p.relay.value.SendCustomMessage(packet.subType, packet.data, packet.dataSize)))
      else p
  }

  function UpdateQuality(p: Pair, resendRequested: bool): Pair {
    p.(quality := p.quality.Update(if resendRequested then 0.0 else 1.0))
  }

  /** What becomes of a packet one of the agents has received. It carries the id of the peer as its sender. */
  datatype PairReceived = PairReceived(pair: Pair, response: Option<CustomPacket<AgentType>>, forGame: bool)

  function ReceiveOn(p: Pair, path: Path, packet: GamePacket, now: nat): PairReceived {
    if p.At(path).None? then PairReceived(p, None, false)
    else
      var r := ReceivePacket(p.At(path).value, packet.sender, packet, now);
      var q := p.With(path, r.link);
      PairReceived(if r.forGame then UpdateQuality(q, packet.header.resendRequest) else q, r.response, r.forGame)
  }

  function Downgrade(p: Pair): Pair {
    p.(legacy := true, p2p := p.p2p.(session := SetAgentType(p.p2p.session, RelayFallback)), relay := None)
  }

  function HandleCrownlinkMessage(p: Pair, kind: AgentType, m: Message): Pair {
    match kind
    case P2P => p.(p2p := p.p2p.Take(Handle(p.p2p.session, m)))
    case Relay => if p.relay.Some? then p.(relay := Some(p.relay.value.Take(Handle(p.relay.value.session, m)))) else p
    case RelayFallback =>
      var q := if p.legacy then p else Downgrade(p);
      q.(p2p := q.p2p.Take(Handle(q.p2p.session, m)))
  }

  // ----- Runs -----

  datatype PairEvent =
    | GameSends(data: seq<byte>, env: Env)
    | PeerSends(kind: AgentType, message: Message)
    | ConnectionWanted
    | WorkerSends(response: CustomPacket<AgentType>)
    | PacketArrives(path: Path, packet: GamePacket, now: nat)
    | JuiceReports(path: Path, state: JuiceState)

  function Next(p: Pair, e: PairEvent): Pair {
    match e
    case GameSends(data, env) => SendP2P(p, data, env).pair
    case PeerSends(kind, m) => HandleCrownlinkMessage(p, kind, m)
    case ConnectionWanted => RequestConnection(p)
    case WorkerSends(response) => SendCustomPacket(p, response)
    case PacketArrives(path, packet, now) => ReceiveOn(p, path, packet, now).pair
    case JuiceReports(path, state) =>
      if p.At(path).Some?
      then p.With(path, p.At(path).value.(session := StateChanged(p.At(path).value.session, state)))
      else p
  }

  function Exec(p: Pair, run: seq<PairEvent>): Pair {
    if run == [] then p else Next(Exec(p, run[..|run| - 1]), run[|run| - 1])
  }
}
