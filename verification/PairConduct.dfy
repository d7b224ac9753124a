/**
 What a pair does, said from the outside: for every event, what becomes of each of its agents, of its counters and of the
 game's packet.
 */
module PairConduct {
  import opened Basics
  import opened JuiceAgents
  import opened JuiceSession
  import opened Packets
  import opened PairProperties
  import opened PairState

  // ----- A send -----

  /** Both agents are connected and fast enough, and the quality has dropped. */
  predicate Due(p: Pair) {
    && !p.legacy && p.Connected(DirectPath) && p.Connected(RelayPath)
    && p.p2p.latency.value <= 625.0 && p.relay.value.latency.value <= 625.0
    && p.quality.value <= 0.8
  }

  /** The path a single packet takes: the direct one unless the relay alone is connected, or faster by ten or more. */
  predicate InUse(p: Pair, path: Path) {
    match path
    case DirectPath =>
      && p.Connected(DirectPath)
      && (p.legacy || (p.Connected(RelayPath) ==> p.p2p.latency.value < p.relay.value.latency.value + 10.0))
    case RelayPath =>
      && !p.legacy && p.Connected(RelayPath)
      && (p.Connected(DirectPath) ==> p.p2p.latency.value >= p.relay.value.latency.value + 10.0)
  }

  /** The packet goes out on the path. */
  predicate Copied(p: Pair, path: Path, env: Env) {
    if p.legacy then InUse(p, path)
    else
      match p.strategy
      case PreferP2P => p.Connected(path) && (path == RelayPath ==> !(p.Connected(DirectPath) && env.directAccepts))
      case PreferRelay => p.Connected(path) && (path == DirectPath ==> !(p.Connected(RelayPath) && env.relayAccepts))
      case Best => InUse(p, path)
      case Redundant => p.Connected(path)
      case AdaptiveRedundant => Due(p) || InUse(p, path)
  }

  /** The pair picks one path, and neither is connected: the direct agent is given the packet all the same. */
  predicate Vain(p: Pair) {
    && !p.legacy && (p.strategy == Best || p.strategy == AdaptiveRedundant)
    && !p.Connected(DirectPath) && !p.Connected(RelayPath)
  }

  /** Every fifteenth send, a connected agent pings. */
  predicate PingsNow(p: Pair, path: Path) {
    (p.sendCounter + 1) % 15 == 0 && p.Connected(path)
  }

  function PingCalls(l: Link, pings: bool, now: nat): seq<JuiceCall> {
    if pings then [SendDatagram(l.session.instance, CrownLinkData(20, PacketSubType.Ping, TimestampBytes(now)))] else []
  }

  function CopyCalls(l: Link, copied: bool, data: seq<byte>): seq<JuiceCall> {
    if copied then [SendDatagram(l.session.instance, GameData(data))] else []
  }

  /** An agent without a connection that is given a packet: it asks for one, or starts over if it has failed. */
  function Stirred(l: Link): Link {
    if l.session.state == Disconnected then l.(outbox := l.outbox + [ConnectionRequest(l.session.ours)])
    else if l.session.state == Failed then l.(session := Reset(l.session))
    else l
  }

  function Logged(l: Link, calls: seq<JuiceCall>): Link {
    l.(session := l.session.(calls := l.session.calls + calls))
  }

  function LinkAfterSend(p: Pair, path: Path, data: seq<byte>, env: Env): Link
    requires p.At(path).Some?
  {
    var l := p.At(path).value;
    if path == DirectPath && Vain(p) then Stirred(l)
    else Logged(l, PingCalls(l, PingsNow(p, path), env.now) + CopyCalls(l, Copied(p, path, env), data))
  }

  function One(b: bool): nat {
    if b then 1 else 0
  }

  /** One path is picked and counted, the direct one if neither is connected. */
  predicate Picks(p: Pair) {
    !p.legacy && (p.strategy == Best || (p.strategy == AdaptiveRedundant && !Due(p)))
  }

  function StatsAfterSend(p: Pair): Stats {
    Stats(
      p.stats.p2p + One(Picks(p) && !InUse(p, RelayPath)),
      p.stats.relay + One(Picks(p) && InUse(p, RelayPath)),
      p.stats.redundant + One(!p.legacy && (p.strategy == Redundant || (p.strategy == AdaptiveRedundant && Due(p)))))
  }

  function PairAfterSend(p: Pair, data: seq<byte>, env: Env): Pair {
    p.(p2p := LinkAfterSend(p, DirectPath, data, env),
       relay := if p.relay.Some? then Some(LinkAfterSend(p, RelayPath, data, env)) else None,
       sendCounter := p.sendCounter + 1,
       stats := StatsAfterSend(p))
  }

  lemma LoggedTwice(l: Link, a: seq<JuiceCall>, b: seq<JuiceCall>)
    ensures Logged(Logged(l, a), b) == Logged(l, a + b)
    ensures Logged(l, []) == l
  {
    assert l.session.calls + a + b == l.session.calls + (a + b);
    assert l.session.calls + [] == l.session.calls;
  }

  lemma LinkSends(l: Link, data: seq<byte>)
    ensures l.SendMessage(data) == if l.IsConnected() then Logged(l, CopyCalls(l, true, data)) else Stirred(l)
  {
    assert l.outbox + [] == l.outbox;
  }

  lemma LinkPings(l: Link, now: nat)
    ensures l.IsConnected() ==>
      l.SendPing(now) == Logged(l, PingCalls(l, true, now))
  {
    assert TimestampBytes(now)[..TIMESTAMP_SIZE] == TimestampBytes(now);
  }

  /** Pinging adds to the logs of the connected agents, and nothing else. */
  lemma RoutedIsExact(p: Pair, now: nat)
    ensures Routed(p, now) == p.(
              p2p := Logged(p.p2p, PingCalls(p.p2p, PingsNow(p, DirectPath), now)),
              relay := if p.relay.Some?
                       then Some(Logged(p.relay.value, PingCalls(p.relay.value, PingsNow(p, RelayPath), now))) else None,
              sendCounter := p.sendCounter + 1)
  {
    LinkPings(p.p2p, now);
    LoggedTwice(p.p2p, [], []);
    if p.relay.Some? {
      LinkPings(p.relay.value, now);
      LoggedTwice(p.relay.value, [], []);
    }
  }

  /** What a path does for the game's data, and what it does not, in each of the ways to send. */
  lemma PathsSend(q: Pair, data: seq<byte>)
    ensures q.p2p.SendMessage(data)
         == if q.p2p.IsConnected() then Logged(q.p2p, CopyCalls(q.p2p, true, data)) else Stirred(q.p2p)
    ensures Logged(q.p2p, []) == q.p2p
    ensures q.relay.Some? ==>
      && Logged(q.relay.value, []) == q.relay.value
      && (q.relay.value.IsConnected() ==>
            q.relay.value.SendMessage(data) == Logged(q.relay.value, CopyCalls(q.relay.value, true, data)))
  {
    LinkSends(q.p2p, data);
    LoggedTwice(q.p2p, [], []);
    if q.relay.Some? {
      LinkSends(q.relay.value, data);
      LoggedTwice(q.relay.value, [], []);
    }
  }

  /** Once it is pinged, the pair sends copies on the paths it should. */
  function Copies(q: Pair, direct: bool, relay: bool, data: seq<byte>): Pair {
    q.(p2p := Logged(q.p2p, CopyCalls(q.p2p, direct, data)),
       relay := if q.relay.Some? then Some(Logged(q.relay.value, CopyCalls(q.relay.value, relay, data))) else None)
  }

  lemma RedundantIsExact(q: Pair, data: seq<byte>, env: Env)
    ensures
      var direct, relay := q.Connected(DirectPath), q.Connected(RelayPath);
      && SendRedundant(q, data, env).pair == Copies(q, direct, relay, data)
      && SendRedundant(q, data, env).ok == ((direct && env.directAccepts) || (relay && env.relayAccepts))
  {
    PathsSend(q, data);
  }

  lemma LegacyIsExact(q: Pair, data: seq<byte>, env: Env)
    ensures
      var direct := q.Connected(DirectPath);
      SendLegacy(q, data, env) == Sent(Copies(q, direct, false, data), direct && env.directAccepts)
  {
    PathsSend(q, data);
  }

  lemma PreferenceIsExact(q: Pair, data: seq<byte>, env: Env)
    ensures
      var direct, relay := q.Connected(DirectPath), q.Connected(RelayPath);
      && SendWithPreference(q, DirectPath, RelayPath, data, env)
         == Sent(Copies(q, direct, relay && !(direct && env.directAccepts), data),
                 (direct && env.directAccepts) || (relay && env.relayAccepts))
      && SendWithPreference(q, RelayPath, DirectPath, data, env)
         == Sent(Copies(q, direct && !(relay && env.relayAccepts), relay, data),
                 (direct && env.directAccepts) || (relay && env.relayAccepts))
  {
    PathsSend(q, data);
  }

  lemma BestIsExact(q: Pair, data: seq<byte>, env: Env)
    requires !q.legacy
    ensures
      var direct, relay := InUse(q, DirectPath), InUse(q, RelayPath);
      var counted := q.(stats := q.stats.(p2p := q.stats.p2p + One(!relay), relay := q.stats.relay + One(relay)));
      var s := SendBest(q, data, env);
      && s.ok == ((direct && env.directAccepts) || (relay && env.relayAccepts))
      && s.pair == (if q.Connected(DirectPath) || q.Connected(RelayPath) then Copies(counted, direct, relay, data)
                    else counted.(p2p := Stirred(q.p2p)))
  {
    BestIsBest(q);
    PathsSend(q, data);
  }

  /** Pinging does not change how a pair decides. */
  lemma DecidesAlike(p: Pair, now: nat)
    ensures
      var q := Routed(p, now);
      && q.Connected(DirectPath) == p.Connected(DirectPath) && q.Connected(RelayPath) == p.Connected(RelayPath)
      && q.legacy == p.legacy && q.strategy == p.strategy && q.stats == p.stats
      && (InUse(q, DirectPath) <==> InUse(p, DirectPath)) && (InUse(q, RelayPath) <==> InUse(p, RelayPath))
      && (ShouldSendRedundant(q) <==> Due(p))
  {
    RoutedIsExact(p, now);
  }

  /** Some path on which the packet goes out accepts it. */
  predicate GetsThrough(p: Pair, env: Env) {
    (Copied(p, DirectPath, env) && env.directAccepts) || (Copied(p, RelayPath, env) && env.relayAccepts)
  }

  /**
   What one send does, for every strategy: on which path the packet goes out, which counter grows, who pings, what an agent
   without a connection does with it, and what the game is told.
   */
  lemma SendIsExact(p: Pair, data: seq<byte>, env: Env)
    ensures SendP2P(p, data, env) == Sent(PairAfterSend(p, data, env), GetsThrough(p, env))
  {
    var q := Routed(p, env.now);
    RoutedIsExact(p, env.now);
    DecidesAlike(p, env.now);
    var l := p.p2p;
    LoggedTwice(l, PingCalls(l, PingsNow(p, DirectPath), env.now), CopyCalls(l, Copied(p, DirectPath, env), data));
    if p.relay.Some? {
      var r := p.relay.value;
      LoggedTwice(r, PingCalls(r, PingsNow(p, RelayPath), env.now), CopyCalls(r, Copied(p, RelayPath, env), data));
    }
    if p.legacy {
      LegacyIsExact(q, data, env);
    } else {
      match p.strategy
      case PreferP2P => PreferenceIsExact(q, data, env);
      case PreferRelay => PreferenceIsExact(q, data, env);
      case Best => BestIsExact(q, data, env);
      case Redundant => RedundantIsExact(CountRedundant(q), data, env);
      case AdaptiveRedundant =>
        if Due(p) { RedundantIsExact(CountRedundant(q), data, env); } else { BestIsExact(q, data, env); }
    }
  }

  // ----- Each agent on its own -----

  /** What can happen to one agent. */
  datatype LinkEvent =
    | Hears(message: Message)
    | Wants
    | Pings(now: nat)
    | Carries(data: seq<byte>)
    | Answers(response: CustomPacket<AgentType>)
    | Receives(packet: GamePacket, now: nat)
    | Reports(state: JuiceState)
    | TurnsLegacy

  function LinkNext(l: Link, e: LinkEvent): Link {
    match e
    case Hears(m) => l.Take(Handle(l.session, m))
    case Wants => l.Take(SendConnectionRequest(l.session))
    case Pings(now) => l.SendPing(now)
    case Carries(data) => l.SendMessage(data)
    case Answers(response) => l.SendCustomMessage(response.subType, response.data, response.dataSize)
    case Receives(packet, now) => ReceivePacket(l, packet.sender, packet, now).link
    case Reports(state) => l.(session := StateChanged(l.session, state))
    case TurnsLegacy => l.(session := SetAgentType(l.session, RelayFallback))
  }

  function LinkExec(l: Link, events: seq<LinkEvent>): Link {
    if events == [] then l else LinkNext(LinkExec(l, events[..|events| - 1]), events[|events| - 1])
  }

  /** A message is for the agent of its own type. In a legacy pair, one for a direct agent goes to the only agent. */
  predicate IsFor(p: Pair, path: Path, kind: AgentType) {
    p.At(path).Some? && (p.At(path).value.session.kind == kind || (p.legacy && kind == P2P))
  }

  function SendEvents(pings: bool, carries: bool, now: nat, data: seq<byte>): seq<LinkEvent> {
    (if pings then [Pings(now)] else []) + if carries then [Carries(data)] else []
  }

  /** What an event of the pair is to the agent on a path. */
  function Concerns(p: Pair, e: PairEvent, path: Path): seq<LinkEvent> {
    match e
    case GameSends(data, env) =>
      SendEvents(PingsNow(p, path), Copied(p, path, env) || (path == DirectPath && Vain(p)), env.now, data)
    case PeerSends(kind, m) =>
      if kind == RelayFallback && !p.legacy then (if path == DirectPath then [TurnsLegacy, Hears(m)] else [])
      else if IsFor(p, path, kind) then [Hears(m)] else []
    case ConnectionWanted => [Wants]
    case WorkerSends(response) => if (response.kind == Relay) == (path == RelayPath) then [Answers(response)] else []
    case PacketArrives(at, packet, now) => if at == path then [Receives(packet, now)] else []
    case JuiceReports(at, state) => if at == path then [Reports(state)] else []
  }

  /** The relay agent goes with the first message of a legacy peer. */
  predicate Stays(p: Pair, e: PairEvent, path: Path) {
    p.At(path).Some? && (path == RelayPath ==> !(e.PeerSends? && e.kind == RelayFallback && !p.legacy))
  }

  lemma OneEvent(l: Link, e: LinkEvent)
    ensures LinkExec(l, [e]) == LinkNext(l, e) && LinkExec(l, []) == l
  {
    assert [e][..0] == [];
  }

  lemma TwoEvents(l: Link, a: LinkEvent, b: LinkEvent)
    ensures LinkExec(l, [a, b]) == LinkNext(LinkNext(l, a), b)
  {
    assert [a, b][..1] == [a];
    OneEvent(l, a);
  }

  lemma {:induction false} LinkExecAppends(l: Link, a: seq<LinkEvent>, b: seq<LinkEvent>)
    ensures LinkExec(l, a + b) == LinkExec(LinkExec(l, a), b)
  {
    if b == [] {
      assert a + b == a;
    } else {
      LinkExecAppends(l, a, b[..|b| - 1]);
      assert (a + b)[..|a + b| - 1] == a + b[..|b| - 1];
    }
  }

  lemma PingsThenCarries(l: Link, pings: bool, carries: bool, now: nat, data: seq<byte>)
    ensures
      var pinged := if pings then l.SendPing(now) else l;
      LinkExec(l, SendEvents(pings, carries, now, data))
      == if carries then pinged.SendMessage(data) else pinged
  {
    OneEvent(l, Pings(now));
    OneEvent(l, Carries(data));
    TwoEvents(l, Pings(now), Carries(data));
    var events := SendEvents(pings, carries, now, data);
    assert events == if pings && carries then [Pings(now), Carries(data)]
                     else if pings then [Pings(now)] else if carries then [Carries(data)] else [];
  }

  lemma ConnectedConcerns(l: Link, pings: bool, copied: bool, now: nat, data: seq<byte>)
    requires pings || copied ==> l.IsConnected()
    ensures LinkExec(l, SendEvents(pings, copied, now, data))
         == Logged(l, PingCalls(l, pings, now) + CopyCalls(l, copied, data))
  {
    PingsThenCarries(l, pings, copied, now, data);
    LinkPings(l, now);
    var pinged := if pings then l.SendPing(now) else l;
    LinkSends(pinged, data);
    LoggedTwice(l, [], []);
    LoggedTwice(l, PingCalls(l, pings, now), CopyCalls(l, copied, data));
    LoggedTwice(pinged, [], []);
  }

  lemma PathConcerns(l: Link, pings: bool, copied: bool, vain: bool, now: nat, data: seq<byte>)
    requires pings || copied ==> l.IsConnected()
    requires vain ==> !l.IsConnected()
    ensures LinkExec(l, SendEvents(pings, copied || vain, now, data))
         == if vain then Stirred(l) else Logged(l, PingCalls(l, pings, now) + CopyCalls(l, copied, data))
  {
    if vain {
      PingsThenCarries(l, false, true, now, data);
      LinkSends(l, data);
    } else {
      ConnectedConcerns(l, pings, copied, now, data);
    }
  }

  lemma CopiedIsConnected(p: Pair, path: Path, env: Env)
    ensures Copied(p, path, env) ==> p.Connected(path)
  {
  }

  lemma SendConcerns(p: Pair, path: Path, data: seq<byte>, env: Env)
    requires p.At(path).Some?
    ensures LinkAfterSend(p, path, data, env) == LinkExec(p.At(path).value, Concerns(p, GameSends(data, env), path))
  {
    var l := p.At(path).value;
    var copied, vain := Copied(p, path, env), path == DirectPath && Vain(p);
    CopiedIsConnected(p, path, env);
    PathConcerns(l, PingsNow(p, path), copied, vain, env.now, data);
  }

  lemma MessageConcerns(p: Pair, kind: AgentType, m: Message, path: Path)
    requires LegacyCoherent(p) && Stays(p, PeerSends(kind, m), path)
    ensures HandleCrownlinkMessage(p, kind, m).At(path)
         == Some(LinkExec(p.At(path).value, Concerns(p, PeerSends(kind, m), path)))
  {
    var l := p.At(path).value;
    OneEvent(l, Hears(m));
    TwoEvents(l, TurnsLegacy, Hears(m));
  }

  /** Each event does to each agent exactly what concerns it. */
  lemma NextConcerns(p: Pair, e: PairEvent, path: Path)
    requires LegacyCoherent(p) && p.At(path).Some?
    ensures Next(p, e).At(path)
         == if Stays(p, e, path) then Some(LinkExec(p.At(path).value, Concerns(p, e, path))) else None
  {
    var l := p.At(path).value;
    match e
    case GameSends(data, env) =>
      SendIsExact(p, data, env);
      SendConcerns(p, path, data, env);
    case PeerSends(kind, m) => if Stays(p, e, path) { MessageConcerns(p, kind, m, path); }
    case ConnectionWanted => OneEvent(l, Wants);
    case WorkerSends(response) => OneEvent(l, Answers(response));
    case PacketArrives(_, packet, now) => OneEvent(l, Receives(packet, now));
    case JuiceReports(_, state) => OneEvent(l, Reports(state));
  }

  /** What has concerned the agent on a path in a run. */
  function History(p: Pair, run: seq<PairEvent>, path: Path): seq<LinkEvent> {
    if run == [] then []
    else History(p, run[..|run| - 1], path) + Concerns(Exec(p, run[..|run| - 1]), run[|run| - 1], path)
  }

  /**
   In every run of a pair each agent is where its own history alone leads: the messages of its type, the reports and packets
   on its path, the answers of its type, and the game's packets that are to go out on its path.
   */
  lemma {:induction false} EachAgentOnItsOwn(controlling: bool, t1: nat, t2: nat, run: seq<PairEvent>, path: Path)
    ensures
      var start := FreshPair(controlling, t1, t2);
      var p := Exec(start, run);
      && (p.At(path).None? <==> p.legacy && path == RelayPath)
      && (p.At(path).Some? ==> p.At(path).value == LinkExec(start.At(path).value, History(start, run, path)))
  {
    var start := FreshPair(controlling, t1, t2);
    LegacyIsCoherent(controlling, t1, t2, run);
    if run == [] {
    } else {
      var front := run[..|run| - 1];
      var before := Exec(start, front);
      LegacyIsCoherent(controlling, t1, t2, front);
      EachAgentOnItsOwn(controlling, t1, t2, front, path);
      if before.At(path).Some? {
        NextConcerns(before, run[|run| - 1], path);
        LinkExecAppends(start.At(path).value, History(start, front, path), Concerns(before, run[|run| - 1], path));
      } else {
        NextKeepsCoherent(before, run[|run| - 1]);
      }
    }
  }

  // ----- A fresh pair -----

  /** How the agents of a new pair start: the direct and the relay one alike, each with its request on the way. */
  lemma FreshPairIsFresh(controlling: bool, t1: nat, t2: nat, path: Path)
    ensures
      var p := FreshPair(controlling, t1, t2);
      var kind := if path == DirectPath then P2P else Relay;
      var tick := if path == DirectPath then t1 else t2;
      && p.At(path).Some?
      && p.At(path).value.session == Agent(kind, controlling, Disconnected, EMPTY, EMPTY, tick, 0, 0, [])
      && p.At(path).value.outbox == [ConnectionRequest(tick)]
      && !p.At(path).value.latency.initialized && p.At(path).value.latency.value == 0.0
      && p.At(path).value.latency.alpha == 2.0 / 11.0
      && !p.legacy && p.strategy == AdaptiveRedundant && p.sendCounter == 0 && p.stats == Stats(0, 0, 0)
      && p.quality.value == 1.0 && p.quality.initialized && p.quality.alpha == 2.0 / 51.0
  {
  }
}
