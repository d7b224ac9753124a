/** All pairs by peer, and the queue of the worker thread. */
module JuiceManagers {
  import opened AgentPairs
  import opened Basics
  import opened JuiceAgents
  import opened JuiceSession
  import opened Packets
  import opened PairProperties
  import opened PairState
  import opened Redundancy

  /** The clock readings with which two new agents start their counters. */
  datatype Ticks = Ticks(direct: nat, relay: nat)

  /** `queue` holds the packets for the worker, `forGame` those handed to the game's receive queue. */
  datatype Manager = Manager(
    self: NetAddress,
    pairs: map<NetAddress, Pair>,
    queue: seq<CustomPacket<AgentType>>,
    forGame: seq<GamePacket>)

  datatype ManagerEvent =
    | GameSendsTo(peer: NetAddress, data: seq<byte>, env: Env, ticks: Ticks)
    | MessageFrom(peer: NetAddress, kind: AgentType, message: Message, ticks: Ticks)
    | PeerWanted(peer: NetAddress, ticks: Ticks)
    | AgentReports(peer: NetAddress, path: Path, state: JuiceState)
    | StateAsked(peer: NetAddress, ticks: Ticks)
    | PacketReceived(path: Path, packet: GamePacket, now: nat)
    | WorkerRuns
    | InactiveCleared(inactive: set<NetAddress>)

  /** The manager after a send, and the result the game sees. */
  datatype Sending = Sending(manager: Manager, ok: bool)

  /** The pair for a peer, made if there is none. */
  function WithAgent(m: Manager, peer: NetAddress, ticks: Ticks): Manager {
    if peer in m.pairs then m
    else WithPair(m, peer, FreshPair(Controls(m.self, peer), ticks.direct, ticks.relay))
  }

  function WithPair(m: Manager, peer: NetAddress, p: Pair): Manager {
    m.(pairs := m.pairs[peer := p])
  }

  /** Something happens to the pair of a peer that is already known. */
  function OnPair(m: Manager, peer: NetAddress, e: PairEvent): Manager {
    if peer in m.pairs then WithPair(m, peer, PairState.Next(m.pairs[peer], e)) else m
  }

  /** An agent of the sender's pair receives a packet: for the game, for the worker or for itself. */
  function Receive(m: Manager, path: Path, packet: GamePacket, now: nat): Manager {
    if packet.sender !in m.pairs then m
    else
      var r := ReceiveOn(m.pairs[packet.sender], path, packet, now);
      WithPair(m, packet.sender, r.pair).(
        queue := if r.response.Some? then m.queue + [r.response.value] else m.queue,
        forGame := if r.forGame then m.forGame + [packet] else m.forGame)
  }

  // Sends and signalling messages make the pair they are for.

  function SentTo(m: Manager, peer: NetAddress, data: seq<byte>, env: Env, ticks: Ticks): Sending {
    var ensured := WithAgent(m, peer, ticks);
    var sent := SendP2P(ensured.pairs[peer], data, env);
    Sending(WithPair(ensured, peer, sent.pair), sent.ok)
  }

  function Told(m: Manager, peer: NetAddress, kind: AgentType, message: Message, ticks: Ticks): Manager {
    var ensured := WithAgent(m, peer, ticks);
    WithPair(ensured, peer, HandleCrownlinkMessage(ensured.pairs[peer], kind, message))
  }

  function Requested(m: Manager, peer: NetAddress, ticks: Ticks): Manager {
    var ensured := WithAgent(m, peer, ticks);
    WithPair(ensured, peer, RequestConnection(ensured.pairs[peer]))
  }

  function Worked(m: Manager): Manager {
    if m.queue == [] then m
    else CustomSent(m.(queue := m.queue[1..]), m.queue[0])
  }

  function CustomSent(m: Manager, packet: CustomPacket<AgentType>): Manager {
    if packet.address in m.pairs
    then WithPair(m, packet.address, SendCustomPacket(m.pairs[packet.address], packet)) else m
  }

  function After(m: Manager, e: ManagerEvent): Manager {
    match e
    case GameSendsTo(peer, data, env, ticks) => SentTo(m, peer, data, env, ticks).manager
    case MessageFrom(peer, kind, message, ticks) => Told(m, peer, kind, message, ticks)
    case PeerWanted(peer, ticks) => Requested(m, peer, ticks)
    case AgentReports(peer, path, state) => OnPair(m, peer, JuiceReports(path, state))
    case StateAsked(peer, ticks) => WithAgent(m, peer, ticks)
    case PacketReceived(path, packet, now) => Receive(m, path, packet, now)
    case WorkerRuns => Worked(m)
    case InactiveCleared(inactive) => m.(pairs := m.pairs - inactive)
  }

  function Exec(m: Manager, run: seq<ManagerEvent>): Manager {
    if run == [] then m else After(Exec(m, run[..|run| - 1]), run[|run| - 1])
  }

  /** The pair is one that its own events alone lead to. */
  ghost predicate Reachable(self: NetAddress, peer: NetAddress, p: Pair) {
    exists ticks: Ticks, trace: seq<PairEvent> ::
      p == PairState.Exec(FreshPair(Controls(self, peer), ticks.direct, ticks.relay), trace)
  }

  lemma OneMoreEvent(self: NetAddress, peer: NetAddress, p: Pair, e: PairEvent)
    requires Reachable(self, peer, p)
    ensures Reachable(self, peer, PairState.Next(p, e))
  {
    var ticks: Ticks, trace: seq<PairEvent> :|
      p == PairState.Exec(FreshPair(Controls(self, peer), ticks.direct, ticks.relay), trace);
    var longer := trace + [e];
    assert longer[..|longer| - 1] == trace;
    assert PairState.Next(p, e) == PairState.Exec(FreshPair(Controls(self, peer), ticks.direct, ticks.relay), longer);
  }

  lemma FreshIsReachable(self: NetAddress, peer: NetAddress, ticks: Ticks)
    ensures Reachable(self, peer, FreshPair(Controls(self, peer), ticks.direct, ticks.relay))
  {
    assert FreshPair(Controls(self, peer), ticks.direct, ticks.relay)
        == PairState.Exec(FreshPair(Controls(self, peer), ticks.direct, ticks.relay), []);
  }

  ghost predicate AllReachable(m: Manager) {
    forall peer :: peer in m.pairs ==> Reachable(m.self, peer, m.pairs[peer])
  }

  lemma AgentKeepsReachable(m: Manager, peer: NetAddress, ticks: Ticks)
    requires AllReachable(m)
    ensures AllReachable(WithAgent(m, peer, ticks)) && peer in WithAgent(m, peer, ticks).pairs
  {
    FreshIsReachable(m.self, peer, ticks);
  }

  lemma EventKeepsReachable(m: Manager, peer: NetAddress, e: PairEvent, p: Pair)
    requires AllReachable(m) && peer in m.pairs && p == PairState.Next(m.pairs[peer], e)
    ensures AllReachable(WithPair(m, peer, p))
  {
    OneMoreEvent(m.self, peer, m.pairs[peer], e);
  }

  lemma WorkedKeepsReachable(m: Manager)
    requires AllReachable(m)
    ensures AllReachable(Worked(m)) && Worked(m).self == m.self
  {
    if m.queue != [] && m.queue[0].address in m.pairs {
      var peer, packet := m.queue[0].address, m.queue[0];
      EventKeepsReachable(
        m.(queue := m.queue[1..]), peer, WorkerSends(packet), SendCustomPacket(m.pairs[peer], packet));
    }
  }

  lemma NextKeepsReachable(m: Manager, e: ManagerEvent)
    requires AllReachable(m)
    ensures AllReachable(After(m, e)) && After(m, e).self == m.self
  {
    match e
    case GameSendsTo(peer, data, env, ticks) =>
      AgentKeepsReachable(m, peer, ticks);
      var ensured := WithAgent(m, peer, ticks);
      EventKeepsReachable(ensured, peer, GameSends(data, env), SendP2P(ensured.pairs[peer], data, env).pair);
    case MessageFrom(peer, kind, message, ticks) =>
      AgentKeepsReachable(m, peer, ticks);
      var ensured := WithAgent(m, peer, ticks);
      EventKeepsReachable(
        ensured, peer, PeerSends(kind, message), HandleCrownlinkMessage(ensured.pairs[peer], kind, message));
    case PeerWanted(peer, ticks) =>
      AgentKeepsReachable(m, peer, ticks);
      var ensured := WithAgent(m, peer, ticks);
      EventKeepsReachable(ensured, peer, ConnectionWanted, RequestConnection(ensured.pairs[peer]));
    case AgentReports(peer, path, state) =>
      if peer in m.pairs {
        EventKeepsReachable(m, peer, JuiceReports(path, state), PairState.Next(m.pairs[peer], JuiceReports(path, state)));
      }
    case StateAsked(peer, ticks) => AgentKeepsReachable(m, peer, ticks);
    case PacketReceived(path, packet, now) =>
      if packet.sender in m.pairs {
        var p := m.pairs[packet.sender];
        EventKeepsReachable(m, packet.sender, PacketArrives(path, packet, now), ReceiveOn(p, path, packet, now).pair);
      }
    case WorkerRuns => WorkedKeepsReachable(m);
    case InactiveCleared(_) =>
  }

  /**
   Peers do not disturb each other: through any run of the manager, with pairs made and cleared on the way, every pair is
   one that a run of its own leads to. So what holds in every run of a pair holds of every pair there ever is.
   */
  lemma {:induction false} PairsAreIndependent(m: Manager, run: seq<ManagerEvent>)
    requires m.pairs == map[]
    ensures AllReachable(Exec(m, run)) && Exec(m, run).self == m.self
  {
    if run == [] {
    } else {
      PairsAreIndependent(m, run[..|run| - 1]);
      NextKeepsReachable(Exec(m, run[..|run| - 1]), run[|run| - 1]);
    }
  }

  /** In particular every pair is coherent about being legacy, and routes by a quality between zero and one. */
  lemma EveryPairIsCoherent(m: Manager, run: seq<ManagerEvent>, peer: NetAddress)
    requires m.pairs == map[] && peer in Exec(m, run).pairs
    ensures
      var p := Exec(m, run).pairs[peer];
      LegacyCoherent(p) && p.strategy == AdaptiveRedundant && IsQuality(p.quality)
  {
    PairsAreIndependent(m, run);
    var p := Exec(m, run).pairs[peer];
    assert Reachable(m.self, peer, p);
    var ticks: Ticks, trace: seq<PairEvent> :|
      p == PairState.Exec(FreshPair(Controls(m.self, peer), ticks.direct, ticks.relay), trace);
    LegacyIsCoherent(Controls(m.self, peer), ticks.direct, ticks.relay, trace);
    SendsAreAccounted(Controls(m.self, peer), ticks.direct, ticks.relay, trace);
    SixResendsToDuplicate(Controls(m.self, peer), ticks.direct, ticks.relay, trace);
  }

  /** A response for a peer that is gone, or for a relay agent that is gone, is dropped. */
  lemma LateResponseIsDropped(m: Manager)
    requires m.queue != []
    requires m.queue[0].address !in m.pairs
          || (m.queue[0].kind == Relay && m.pairs[m.queue[0].address].relay.None?)
    ensures After(m, WorkerRuns) == m.(queue := m.queue[1..])
  {
    if m.queue[0].address in m.pairs {
      var address := m.queue[0].address;
      assert m.pairs[address := m.pairs[address]] == m.pairs;
    }
  }

  // ----- The object -----

  class JuiceManager {
    const self: NetAddress
    var agents: map<NetAddress, AgentPair>
    var queue: seq<CustomPacket<AgentType>>
    var forGame: seq<GamePacket>

    /** The values of the pairs, and everything the pairs have owned. */
    ghost var pairs: map<NetAddress, Pair>
    ghost var repr: set<object>

    /** Each pair is in order and has its value, and no two share an object. */
    ghost predicate Valid()
      reads this, repr
    {
      && this !in repr
      && (forall peer :: peer in agents <==> peer in pairs)
      && (forall peer :: peer in agents ==> agents[peer] in repr && agents[peer].owned <= repr)
      && (forall peer :: peer in agents ==> agents[peer].Valid() && agents[peer].State() == pairs[peer])
      && (forall p, q :: p in agents && q in agents && p != q ==> agents[p].owned !! agents[q].owned)
    }

    ghost function State(): Manager
      reads this
    {
      Manager(self, pairs, queue, forGame)
    }

    constructor (self: NetAddress)
      ensures Valid() && repr == {} && State() == Manager(self, map[], [], [])
    {
      this.self, agents, queue, forGame, pairs, repr := self, map[], [], [], map[], {};
    }

    method EnsureAgent(peer: NetAddress, ticks: Ticks)
      requires Valid()
      modifies this
      ensures Valid() && fresh(repr - old(repr)) && peer in pairs
      ensures State() == WithAgent(old(State()), peer, ticks)
    {
      if peer in agents { return; }
      var pair := new AgentPair(self, peer, ticks.direct, ticks.relay);
      Add(peer, pair);
    }

    method Add(peer: NetAddress, pair: AgentPair)
      requires Valid() && peer !in agents && pair.Valid() && pair.owned !! repr && this !in pair.owned
      modifies this
      ensures Valid() && repr == old(repr) + pair.owned
      ensures State() == WithPair(old(State()), peer, old(pair.State()))
    {
      agents, pairs, repr := agents[peer := pair], pairs[peer := pair.State()], repr + pair.owned;
    }

    /** Every other pair is as its value says; the one for `peer` may have gone on. */
    ghost predicate ValidBut(peer: NetAddress)
      reads this, repr
    {
      && this !in repr && peer in agents
      && (forall p :: p in agents <==> p in pairs)
      && (forall p :: p in agents ==> agents[p] in repr && agents[p].owned <= repr && agents[p].Valid())
      && (forall p :: p in agents && p != peer ==> agents[p].State() == pairs[p])
      && (forall p, q :: p in agents && q in agents && p != q ==> agents[p].owned !! agents[q].owned)
    }

    /** Records what has become of a pair. */
    ghost method Record(peer: NetAddress)
      requires ValidBut(peer)
      modifies this`pairs
      ensures Valid() && State() == WithPair(old(State()), peer, old(agents[peer].State()))
    {
      pairs := pairs[peer := agents[peer].State()];
    }

    // The pair does its part; its value is recorded afterwards.

    method SendThrough(peer: NetAddress, data: seq<byte>, env: Env) returns (ok: bool)
      requires Valid() && peer in agents
      modifies agents[peer].owned
      ensures ValidBut(peer) && peer in pairs
      ensures Sent(agents[peer].State(), ok) == PairState.SendP2P(pairs[peer], data, env)
    {
      ok := agents[peer].SendP2P(data, env);
    }

    method PassOn(peer: NetAddress, kind: AgentType, message: Message)
      requires Valid() && peer in agents
      modifies agents[peer].owned
      ensures ValidBut(peer) && peer in pairs
      ensures agents[peer].State() == PairState.HandleCrownlinkMessage(pairs[peer], kind, message)
    {
      agents[peer].HandleCrownlinkMessage(kind, message);
    }

    method RequestThrough(peer: NetAddress)
      requires Valid() && peer in agents
      modifies agents[peer].owned
      ensures ValidBut(peer) && peer in pairs
      ensures agents[peer].State() == RequestConnection(pairs[peer])
    {
      agents[peer].SendConnectionRequest();
    }

    method SendCustomThrough(packet: CustomPacket<AgentType>, env: Env)
      requires Valid() && packet.address in agents
      modifies agents[packet.address].owned
      ensures ValidBut(packet.address) && packet.address in pairs
      ensures agents[packet.address].State() == SendCustomPacket(pairs[packet.address], packet)
    {
      agents[packet.address].SendCustomPacket(packet, env);
    }

    method ReceiveThrough(path: Path, packet: GamePacket, now: nat)
      returns (response: Option<CustomPacket<AgentType>>, mine: bool)
      requires Valid() && packet.sender in agents
      modifies agents[packet.sender].owned
      ensures ValidBut(packet.sender) && packet.sender in pairs
      ensures PairReceived(agents[packet.sender].State(), response, mine)
           == ReceiveOn(pairs[packet.sender], path, packet, now)
    {
      response, mine := agents[packet.sender].OnRecv(path, packet, now);
    }

    // ----- What others call -----

    method SendP2P(peer: NetAddress, data: seq<byte>, env: Env, ticks: Ticks) returns (ok: bool)
      requires Valid()
      modifies this, repr
      ensures Valid() && fresh(repr - old(repr))
      ensures State() == After(old(State()), GameSendsTo(peer, data, env, ticks))
      ensures ok == SentTo(old(State()), peer, data, env, ticks).ok
    {
      EnsureAgent(peer, ticks);
      ok := SendThrough(peer, data, env);
      Record(peer);
    }

    method HandleCrownlinkMessage(peer: NetAddress, kind: AgentType, message: Message, ticks: Ticks)
      requires Valid()
      modifies this, repr
      ensures Valid() && fresh(repr - old(repr))
      ensures State() == After(old(State()), MessageFrom(peer, kind, message, ticks))
    {
      ghost var after := Told(State(), peer, kind, message, ticks);
      assert after == After(State(), MessageFrom(peer, kind, message, ticks));
      EnsureAgent(peer, ticks);
      PassOn(peer, kind, message);
      Record(peer);
      assert State() == after;
    }

    method SendConnectionRequest(peer: NetAddress, ticks: Ticks)
      requires Valid()
      modifies this, repr
      ensures Valid() && fresh(repr - old(repr))
      ensures State() == After(old(State()), PeerWanted(peer, ticks))
    {
      ghost var after := Requested(State(), peer, ticks);
      assert after == After(State(), PeerWanted(peer, ticks));
      EnsureAgent(peer, ticks);
      RequestThrough(peer);
      Record(peer);
      assert State() == after;
    }

    /** The callback of the agent on `path` of the sender's pair. */
    method OnRecv(path: Path, packet: GamePacket, now: nat)
      requires Valid()
      modifies this, repr
      ensures Valid() && repr == old(repr)
      ensures State() == After(old(State()), PacketReceived(path, packet, now))
    {
      ghost var after := Receive(State(), path, packet, now);
      assert after == After(State(), PacketReceived(path, packet, now));
      if packet.sender in agents {
        var response, mine := ReceiveThrough(path, packet, now);
        Record(packet.sender);
        HandOn(packet, response, mine);
      }
      assert State() == after;
    }

    method QueueCustomPacket(packet: CustomPacket<AgentType>)
      requires Valid()
      modifies this`queue
      ensures Valid() && State() == old(State()).(queue := old(queue) + [packet])
    {
      queue := queue + [packet];
    }

    /** The answer goes to the worker, and a packet for the game to the receive queue. */
    method HandOn(packet: GamePacket, response: Option<CustomPacket<AgentType>>, mine: bool)
      requires Valid()
      modifies this`queue, this`forGame
      ensures Valid()
      ensures State() == old(State()).(
                queue := if response.Some? then old(queue) + [response.value] else old(queue),
                forGame := if mine then old(forGame) + [packet] else old(forGame))
    {
      if response.Some? { QueueCustomPacket(response.value); }
      if mine { forGame := forGame + [packet]; }
    }

    /** One round of the worker thread. */
    method WorkerStep(env: Env) returns (worked: bool)
      requires Valid()
      modifies this, repr
      ensures Valid() && repr == old(repr)
      ensures State() == After(old(State()), WorkerRuns) && worked == (old(queue) != [])
    {
      ghost var after := Worked(State());
      assert after == After(State(), WorkerRuns);
      if queue == [] { return false; }
      var packet := Dequeue();
      SendCustom(packet, env);
      assert State() == after;
      return true;
    }

    method SendCustom(packet: CustomPacket<AgentType>, env: Env)
      requires Valid()
      modifies this`pairs, repr
      ensures Valid() && State() == CustomSent(old(State()), packet)
    {
      if packet.address in agents {
        SendCustomThrough(packet, env);
        Record(packet.address);
      }
    }

    method Dequeue() returns (packet: CustomPacket<AgentType>)
      requires Valid() && queue != []
      modifies this`queue
      ensures Valid() && State() == old(State()).(queue := old(queue)[1..]) && packet == old(queue)[0]
    {
      packet := queue[0];
      queue := queue[1..];
    }

    /** Erases the pairs of the peers that are found inactive. */
    method ClearInactive(inactive: set<NetAddress>)
      requires Valid()
      modifies this
      ensures Valid() && repr == old(repr)
      ensures State() == After(old(State()), InactiveCleared(inactive))
    {
      agents, pairs := agents - inactive, pairs - inactive;
    }
  }
}
