/** The pair as an object that owns its two agents and its quality average. */
module AgentPairs {
  import opened Basics
  import opened Ema
  import opened JuiceAgents
  import opened JuiceSession
  import opened Packets
  import opened PairState

  class AgentPair {
    var p2pAgent: JuiceAgent
    var relayAgent: JuiceAgent?
    var legacyAgent: bool
    var sendStrategy: SendStrategy
    var sendCounter: nat
    var stats: Stats
    const averageQuality: EMA

    /** The objects of the pair, from its construction on. */
    ghost const owned: set<object>

    /** The agents and the averages are all different objects, and belong to the pair. */
    ghost predicate Valid()
      reads this
    {
      && this in owned && averageQuality in owned && p2pAgent in owned && p2pAgent.latency in owned
      && p2pAgent.latency != averageQuality
      && (relayAgent != null ==>
            && relayAgent in owned && relayAgent.latency in owned
            && relayAgent != p2pAgent && relayAgent.latency != p2pAgent.latency && relayAgent.latency != averageQuality)
    }

    ghost function State(): Pair
      requires Valid()
      reads this, owned
    {
      Pair(p2pAgent.State(), if relayAgent == null then None else Some(relayAgent.State()), legacyAgent, sendStrategy,
           sendCounter, averageQuality.State(), stats)
    }

    constructor (self: NetAddress, peer: NetAddress, directTick: nat, relayTick: nat)
      ensures Valid() && fresh(owned)
      ensures State() == FreshPair(Controls(self, peer), directTick, relayTick)
    {
      var direct := new JuiceAgent(self, peer, P2P, directTick);
      var relay := new JuiceAgent(self, peer, Relay, relayTick);
      var quality := new EMA(QUALITY_SAMPLES, Some(1.0));
      p2pAgent, relayAgent, averageQuality := direct, relay, quality;
      legacyAgent, sendStrategy, sendCounter, stats := false, AdaptiveRedundant, 0, Stats(0, 0, 0);
      owned := {this, quality, direct, direct.latency, relay, relay.latency};
    }

    method SendPings(env: Env)
      requires Valid()
      modifies owned
      ensures Valid()
      ensures State() == PairState.SendPings(old(State()), env.now)
    {
      if p2pAgent.Session().IsConnected() { p2pAgent.SendPing(env.now, env.directAccepts); }
      if relayAgent != null && relayAgent.Session().IsConnected() { relayAgent.SendPing(env.now, env.relayAccepts); }
    }

    method GetBest() returns (best: Path)
      requires Valid()
      ensures best == PairState.GetBest(State())
      ensures best == RelayPath ==> relayAgent != null
    {
      if legacyAgent { return DirectPath; }
      if relayAgent == null || !relayAgent.Session().IsConnected() { return DirectPath; }
      if !p2pAgent.Session().IsConnected() { return RelayPath; }
      var delta := p2pAgent.latency.average - relayAgent.latency.average;
      var distance := if delta < 0.0 then -delta else delta;
      if distance < LATENCY_THRESHOLD { return DirectPath; }
      if delta > 0.0 { return RelayPath; }
      return DirectPath;
    }

    method SendBest(data: seq<byte>, env: Env) returns (ok: bool)
      requires Valid()
      modifies owned
      ensures Valid()
      ensures Sent(State(), ok) == PairState.SendBest(old(State()), data, env)
    {
      var best := GetBest();
      if best == DirectPath {
        stats := stats.(p2p := stats.p2p + 1);
        ok := p2pAgent.SendMessage(data, env.directAccepts);
      } else {
        stats := stats.(relay := stats.relay + 1);
        ok := relayAgent.SendMessage(data, env.relayAccepts);
      }
    }

    method SendLegacy(data: seq<byte>, env: Env) returns (ok: bool)
      requires Valid()
      modifies owned
      ensures Valid()
      ensures Sent(State(), ok) == PairState.SendLegacy(old(State()), data, env)
    {
      ok := false;
      if p2pAgent.Session().IsConnected() {
        ok := p2pAgent.SendMessage(data, env.directAccepts);
      }
    }

    /** One attempt of `send_with_preference`: nothing happens on a path that is not connected. */
    method TryPath(path: Path, data: seq<byte>, env: Env) returns (ok: bool)
      requires Valid()
      modifies owned
      ensures Valid()
      ensures State() == if old(State()).Connected(path) then old(State()).Transmit(path, data) else old(State())
      ensures ok == (old(State()).Connected(path) && env.Accepts(path))
    {
      ok := false;
      if path == DirectPath {
        if p2pAgent.Session().IsConnected() { ok := p2pAgent.SendMessage(data, env.directAccepts); }
      } else if relayAgent != null && relayAgent.Session().IsConnected() {
        ok := relayAgent.SendMessage(data, env.relayAccepts);
      }
    }

    method SendWithPreference(first: Path, second: Path, data: seq<byte>, env: Env) returns (ok: bool)
      requires Valid()
      modifies owned
      ensures Valid()
      ensures Sent(State(), ok) == PairState.SendWithPreference(old(State()), first, second, data, env)
    {
      ok := TryPath(first, data, env);
      if ok { return; }
      ok := TryPath(second, data, env);
    }

    method SendRedundant(data: seq<byte>, env: Env) returns (ok: bool)
      requires Valid()
      modifies owned
      ensures Valid()
      ensures Sent(State(), ok) == PairState.SendRedundant(old(State()), data, env)
    {
      var direct := TryPath(DirectPath, data, env);
      var relay := TryPath(RelayPath, data, env);
      ok := direct || relay;
    }

    method ShouldSendRedundant() returns (b: bool)
      requires Valid()
      ensures b == PairState.ShouldSendRedundant(State())
    {
      if legacyAgent { return false; }
      if !p2pAgent.Session().IsConnected() || relayAgent == null || !relayAgent.Session().IsConnected() { return false; }
      if p2pAgent.latency.average > MAXIMUM_LATENCY_FOR_REDUNDANT { return false; }
      if relayAgent.latency.average > MAXIMUM_LATENCY_FOR_REDUNDANT { return false; }
      if averageQuality.average > DUPLICATE_SEND_THRESHOLD { return false; }
      return true;
    }

    method SendByStrategy(data: seq<byte>, env: Env) returns (ok: bool)
      requires Valid()
      modifies owned
      ensures Valid()
      ensures Sent(State(), ok) == PairState.SendByStrategy(old(State()), data, env)
    {
      match sendStrategy
      case PreferP2P => ok := SendWithPreference(DirectPath, RelayPath, data, env);
      case PreferRelay => ok := SendWithPreference(RelayPath, DirectPath, data, env);
      case Best => ok := SendBest(data, env);
      case Redundant => ok := CountAndSendRedundant(data, env);
      case AdaptiveRedundant =>
        var redundant := ShouldSendRedundant();
        if redundant {
          ok := CountAndSendRedundant(data, env);
        } else {
          ok := SendBest(data, env);
        }
    }

    method CountAndSendRedundant(data: seq<byte>, env: Env) returns (ok: bool)
      requires Valid()
      modifies owned
      ensures Valid()
      ensures Sent(State(), ok) == PairState.SendRedundant(CountRedundant(old(State())), data, env)
    {
      stats := stats.(redundant := stats.redundant + 1);
      ok := SendRedundant(data, env);
    }

    method SendP2P(data: seq<byte>, env: Env) returns (ok: bool)
      requires Valid()
      modifies owned
      ensures Valid()
      ensures Sent(State(), ok) == PairState.SendP2P(old(State()), data, env)
    {
      sendCounter := sendCounter + 1;
      if sendCounter % PING_EVERY == 0 {
        SendPings(env);
      }
      assert State() == Routed(old(State()), env.now);
      if legacyAgent {
        ok := SendLegacy(data, env);
      } else {
        ok := SendByStrategy(data, env);
      }
    }

    method SendConnectionRequest()
      requires Valid()
      modifies owned
      ensures Valid()
      ensures State() == RequestConnection(old(State()))
    {
      p2pAgent.SendConnectionRequest();
      if !legacyAgent && relayAgent != null { relayAgent.SendConnectionRequest(); }
    }

    method SendCustomPacket(packet: CustomPacket<AgentType>, env: Env)
      requires Valid()
      modifies owned
      ensures Valid()
      ensures State() == PairState.SendCustomPacket(old(State()), packet)
    {
      match packet.kind
      case P2P => var _ := p2pAgent.SendCustomMessage(packet.subType, packet.data, packet.dataSize, env.directAccepts);
      case RelayFallback =>
        var _ := p2pAgent.SendCustomMessage(packet.subType, packet.data, packet.dataSize, env.directAccepts);
      case Relay =>
        if relayAgent != null {
          var _ := relayAgent.SendCustomMessage(packet.subType, packet.data, packet.dataSize, env.relayAccepts);
        }
    }

    method UpdateQuality(resendRequested: bool)
      requires Valid()
      modifies averageQuality
      ensures Valid()
      ensures State() == PairState.UpdateQuality(old(State()), resendRequested)
    {
      if resendRequested {
        var _ := averageQuality.Update(0.0);
      } else {
        var _ := averageQuality.Update(1.0);
      }
    }

    /** A callback of one of the agents. The caller queues the response, or passes the packet to the game. */
    method OnRecv(path: Path, packet: GamePacket, now: nat)
      returns (response: Option<CustomPacket<AgentType>>, forGame: bool)
      requires Valid()
      modifies owned
      ensures Valid()
      ensures PairReceived(State(), response, forGame) == ReceiveOn(old(State()), path, packet, now)
    {
      response, forGame := None, false;
      if path == DirectPath {
        response, forGame := p2pAgent.OnRecv(packet.sender, packet, now);
      } else if relayAgent != null {
        response, forGame := relayAgent.OnRecv(packet.sender, packet, now);
      }
      if forGame { UpdateQuality(packet.header.resendRequest); }
    }

    method HandleCrownlinkMessage(kind: AgentType, message: Message)
      requires Valid()
      modifies owned
      ensures Valid()
      ensures State() == PairState.HandleCrownlinkMessage(old(State()), kind, message)
    {
      match kind
      case P2P => p2pAgent.HandleCrownlinkMessage(message);
      case Relay => if relayAgent != null { relayAgent.HandleCrownlinkMessage(message); }
      case RelayFallback =>
        if !legacyAgent {
          legacyAgent := true;
          p2pAgent.SetAgentType(RelayFallback);
          relayAgent := null;
        }
        p2pAgent.HandleCrownlinkMessage(message);
    }
  }
}
