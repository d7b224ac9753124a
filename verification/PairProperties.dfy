/** What every run of a pair keeps: how sends are counted, how a path is chosen, and how the pair turns legacy. */
module PairProperties {
  import opened Basics
  import opened JuiceSession
  import opened Packets
  import opened PairState

  // ----- Choosing a path -----

  /** The chosen agent is connected if any is; of two connected ones, the relay is chosen if it gains ten or more. */
  lemma BestIsBest(p: Pair)
    ensures
      var best := GetBest(p);
      && (!p.legacy && (p.Connected(DirectPath) || p.Connected(RelayPath)) ==> p.Connected(best))
      && (best == RelayPath <==>
          !p.legacy && p.Connected(RelayPath) &&
          (p.Connected(DirectPath) ==> p.relay.value.latency.value + LATENCY_THRESHOLD <= p.p2p.latency.value))
  {
  }

  // ----- How many copies go out -----

  /** How often `data` has been handed to libjuice as a game packet. */
  function Copies(calls: seq<JuiceCall>, data: seq<byte>): nat {
    if calls == [] then 0
    else
      var last := calls[|calls| - 1];
      Copies(calls[..|calls| - 1], data) + if last.SendDatagram? && last.datagram == GameData(data) then 1 else 0
  }

  function CopiesOf(p: Pair, data: seq<byte>): nat {
    Copies(p.p2p.session.calls, data) + if p.relay.Some? then Copies(p.relay.value.session.calls, data) else 0
  }

  lemma CopiesAppend(calls: seq<JuiceCall>, call: JuiceCall, data: seq<byte>)
    ensures Copies(calls + [call], data)
         == Copies(calls, data) + if call == SendDatagram(call.instance, GameData(data)) then 1 else 0
  {
    assert (calls + [call])[..|calls|] == calls;
  }

  lemma TransmitCopies(p: Pair, path: Path, data: seq<byte>)
    ensures CopiesOf(p.Transmit(path, data), data) == CopiesOf(p, data) + if p.Connected(path) then 1 else 0
    ensures forall other :: other != path ==> p.Transmit(path, data).At(other) == p.At(other)
  {
    if p.Connected(path) {
      var a := p.At(path).value.session;
      CopiesAppend(a.calls, SendDatagram(a.instance, GameData(data)), data);
    }
  }

  /** The two pairs choose alike. */
  predicate SameRouting(p: Pair, q: Pair) {
    && q.legacy == p.legacy && q.strategy == p.strategy && q.stats == p.stats && q.quality == p.quality
    && q.relay.Some? == p.relay.Some?
    && q.Connected(DirectPath) == p.Connected(DirectPath) && q.Connected(RelayPath) == p.Connected(RelayPath)
    && q.p2p.latency == p.p2p.latency
    && (p.relay.Some? ==> q.relay.value.latency == p.relay.value.latency)
  }

  lemma PingCopies(p: Pair, path: Path, now: nat, data: seq<byte>)
    ensures SameRouting(p, p.Ping(path, now)) && CopiesOf(p.Ping(path, now), data) == CopiesOf(p, data)
  {
    if p.Connected(path) {
      var a := p.At(path).value.session;
      var ping := CrownLinkData(TIMESTAMP_SIZE + HEADER_SIZE, PacketSubType.Ping, TimestampBytes(now)[..TIMESTAMP_SIZE]);
      CopiesAppend(a.calls, SendDatagram(a.instance, ping), data);
    }
  }

  lemma RoutedAlike(p: Pair, now: nat, data: seq<byte>)
    ensures SameRouting(p, Routed(p, now)) && CopiesOf(Routed(p, now), data) == CopiesOf(p, data)
    ensures Routed(p, now).sendCounter == p.sendCounter + 1
  {
    var counted := p.(sendCounter := p.sendCounter + 1);
    PingedAlike(counted, now, data);
    CountingAlike(p, counted, Pinged(counted, now), data);
  }

  lemma PingedAlike(p: Pair, now: nat, data: seq<byte>)
    ensures SameRouting(p, Pinged(p, now)) && CopiesOf(Pinged(p, now), data) == CopiesOf(p, data)
    ensures Pinged(p, now).sendCounter == p.sendCounter
  {
    if p.sendCounter % PING_EVERY == 0 {
      PingsAlike(p, now, data);
      assert Pinged(p, now) == SendPings(p, now);
    } else {
      assert Pinged(p, now) == p;
    }
  }

  lemma CountingAlike(p: Pair, counted: Pair, q: Pair, data: seq<byte>)
    requires counted == p.(sendCounter := counted.sendCounter)
    requires SameRouting(counted, q) && CopiesOf(q, data) == CopiesOf(counted, data)
    ensures SameRouting(p, q) && CopiesOf(q, data) == CopiesOf(p, data)
  {
  }

  lemma PingsAlike(p: Pair, now: nat, data: seq<byte>)
    ensures SameRouting(p, SendPings(p, now)) && CopiesOf(SendPings(p, now), data) == CopiesOf(p, data)
    ensures SendPings(p, now).sendCounter == p.sendCounter
  {
    PingCopies(p, DirectPath, now, data);
    PingCopies(p.Ping(DirectPath, now), RelayPath, now, data);
  }

  /** The copies one send makes: two, one or none, decided by what the pair knows before the call. */
  lemma SendCopies(p: Pair, data: seq<byte>, env: Env)
    requires p.strategy == AdaptiveRedundant
    ensures
      CopiesOf(SendP2P(p, data, env).pair, data) == CopiesOf(p, data) +
      if p.legacy then (if p.Connected(DirectPath) then 1 else 0)
      else if ShouldSendRedundant(p) then 2
      else if p.Connected(DirectPath) || p.Connected(RelayPath) then 1
      else 0
  {
    var q := Routed(p, env.now);
    RoutedAlike(p, env.now, data);
    assert ShouldSendRedundant(q) == ShouldSendRedundant(p);
    if q.legacy { TransmitCopies(q, DirectPath, data); }
    else if ShouldSendRedundant(q) { RedundantCopies(CountRedundant(q), data, env); }
    else { BestCopies(q, data, env); }
  }

  lemma RedundantCopies(p: Pair, data: seq<byte>, env: Env)
    requires p.Connected(DirectPath) && p.Connected(RelayPath)
    ensures CopiesOf(SendRedundant(p, data, env).pair, data) == CopiesOf(p, data) + 2
  {
    TransmitCopies(p, DirectPath, data);
    TransmitCopies(p.Transmit(DirectPath, data), RelayPath, data);
    assert p.Transmit(DirectPath, data).Connected(RelayPath);
  }

  lemma BestCopies(p: Pair, data: seq<byte>, env: Env)
    requires !p.legacy
    ensures CopiesOf(SendBest(p, data, env).pair, data)
         == CopiesOf(p, data) + if p.Connected(DirectPath) || p.Connected(RelayPath) then 1 else 0
  {
    TransmitCopies(p.(stats := p.stats.(p2p := p.stats.p2p + 1)), DirectPath, data);
    TransmitCopies(p.(stats := p.stats.(relay := p.stats.relay + 1)), RelayPath, data);
  }

  // ----- Turning legacy -----

  /** The legacy flag, the missing relay agent and the type of the direct agent say the same. */
  predicate LegacyCoherent(p: Pair) {
    && (p.legacy <==> p.relay.None?)
    && (p.legacy <==> p.p2p.session.kind == RelayFallback)
    && (!p.legacy ==> p.p2p.session.kind == P2P && p.relay.value.session.kind == Relay)
  }

  predicate SameKinds(p: Pair, q: Pair) {
    && q.legacy == p.legacy && q.strategy == p.strategy && q.relay.Some? == p.relay.Some?
    && q.p2p.session.kind == p.p2p.session.kind
    && (p.relay.Some? ==> q.relay.value.session.kind == p.relay.value.session.kind)
  }

  lemma TransmitKeepsKinds(p: Pair, path: Path, data: seq<byte>)
    ensures SameKinds(p, p.Transmit(path, data))
  {
  }

  lemma RedundantKeepsKinds(p: Pair, data: seq<byte>, env: Env)
    ensures SameKinds(p, SendRedundant(p, data, env).pair)
  {
    TransmitKeepsKinds(p, DirectPath, data);
    TransmitKeepsKinds(if p.Connected(DirectPath) then p.Transmit(DirectPath, data) else p, RelayPath, data);
  }

  lemma PreferenceKeepsKinds(p: Pair, first: Path, second: Path, data: seq<byte>, env: Env)
    ensures SameKinds(p, SendWithPreference(p, first, second, data, env).pair)
  {
    TransmitKeepsKinds(p, first, data);
    TransmitKeepsKinds(if p.Connected(first) then p.Transmit(first, data) else p, second, data);
  }

  lemma SendKeepsKinds(p: Pair, data: seq<byte>, env: Env)
    ensures SameKinds(p, SendP2P(p, data, env).pair)
  {
    var q := Routed(p, env.now);
    RoutedKeepsKinds(p, env.now);
    RedundantKeepsKinds(CountRedundant(q), data, env);
    PreferenceKeepsKinds(q, DirectPath, RelayPath, data, env);
    PreferenceKeepsKinds(q, RelayPath, DirectPath, data, env);
    BestKeepsKinds(q, data, env);
    TransmitKeepsKinds(q, DirectPath, data);
  }

  lemma BestKeepsKinds(p: Pair, data: seq<byte>, env: Env)
    ensures SameKinds(p, SendBest(p, data, env).pair)
  {
  }

  lemma RoutedKeepsKinds(p: Pair, now: nat)
    ensures SameKinds(p, Routed(p, now))
  {
  }

  lemma MessageKeepsKinds(p: Pair, kind: AgentType, m: Message)
    requires kind == RelayFallback ==> p.legacy
    ensures SameKinds(p, HandleCrownlinkMessage(p, kind, m))
  {
  }

  /** Only a message from a legacy peer changes what the agents are. */
  lemma NextKeepsKinds(p: Pair, e: PairEvent)
    requires !(e.PeerSends? && e.kind == RelayFallback && !p.legacy)
    ensures SameKinds(p, Next(p, e))
  {
    match e
    case GameSends(data, env) => SendKeepsKinds(p, data, env);
    case PeerSends(kind, m) => MessageKeepsKinds(p, kind, m);
    case ConnectionWanted =>
    case WorkerSends(packet) =>
    case PacketArrives(_, _, _) =>
    case JuiceReports(_, _) =>
  }

  lemma NextKeepsCoherent(p: Pair, e: PairEvent)
    requires LegacyCoherent(p)
    ensures LegacyCoherent(Next(p, e)) && (p.legacy ==> Next(p, e).legacy)
  {
    if e.PeerSends? && e.kind == RelayFallback && !p.legacy {
      assert Next(p, e).p2p.session.kind == RelayFallback;
    } else {
      NextKeepsKinds(p, e);
    }
  }

  /** The events of a run that turn the pair legacy. */
  function Downgrades(p: Pair, run: seq<PairEvent>): nat {
    if run == [] then 0
    else
      var before := Exec(p, run[..|run| - 1]);
      Downgrades(p, run[..|run| - 1]) + if !before.legacy && Next(before, run[|run| - 1]).legacy then 1 else 0
  }

  /** In every reachable pair the three marks of a legacy peer agree, and the downgrade has happened at most once. */
  lemma {:induction false} LegacyIsCoherent(controlling: bool, t1: nat, t2: nat, run: seq<PairEvent>)
    ensures
      var p := Exec(FreshPair(controlling, t1, t2), run);
      && LegacyCoherent(p)
      && Downgrades(FreshPair(controlling, t1, t2), run) == (if p.legacy then 1 else 0)
  {
    if run == [] {
    } else {
      LegacyIsCoherent(controlling, t1, t2, run[..|run| - 1]);
      NextKeepsCoherent(Exec(FreshPair(controlling, t1, t2), run[..|run| - 1]), run[|run| - 1]);
    }
  }

  /** The downgrade resets the direct agent once, keeps the counter it has processed and drops the relay agent. */
  lemma DowngradeResetsOnce(p: Pair, m: Message)
    requires !p.legacy
    ensures
      var q := HandleCrownlinkMessage(p, RelayFallback, m);
      var reset := Reset(p.p2p.session.(kind := RelayFallback));
      && q.legacy && q.relay.None?
      && q.p2p == p.p2p.(session := reset).Take(Handle(reset, m))
      && q.p2p.session.instance == p.p2p.session.instance + 1
      && q.p2p.session.remoteSdp == (if m.LocalDescription? then m.sdp else EMPTY)
  {
  }

  /** After it, nothing addressed to the relay agent has any effect. */
  lemma RelayIsGone(p: Pair, m: Message, packet: CustomPacket<AgentType>)
    requires LegacyCoherent(p) && p.legacy
    ensures HandleCrownlinkMessage(p, Relay, m) == p
    ensures packet.kind == Relay ==> SendCustomPacket(p, packet) == p
  {
  }

  // ----- Which agents a send can reset -----

  /** The session has started over. */
  predicate WasReset(p: Pair, q: Pair, path: Path) {
    p.At(path).Some? && q.At(path).Some? && q.At(path).value.session.instance != p.At(path).value.session.instance
  }

  /** A failed direct agent is in use, and only because the relay agent is not connected. */
  predicate SendResets(p: Pair, path: Path) {
    path == DirectPath && !p.legacy && p.p2p.session.state == Failed && !p.Connected(RelayPath)
  }

  predicate SameSessions(p: Pair, q: Pair) {
    && q.p2p.session.state == p.p2p.session.state && q.p2p.session.instance == p.p2p.session.instance
    && q.relay.Some? == p.relay.Some?
    && (p.relay.Some? ==>
          && q.relay.value.session.state == p.relay.value.session.state
          && q.relay.value.session.instance == p.relay.value.session.instance)
  }

  lemma RoutedKeepsSessions(p: Pair, now: nat)
    ensures SameSessions(p, Routed(p, now))
  {
  }

  lemma RedundantKeepsSessions(p: Pair, data: seq<byte>, env: Env)
    ensures SameSessions(p, SendRedundant(p, data, env).pair)
  {
  }

  lemma BestResets(p: Pair, data: seq<byte>, env: Env)
    requires !p.legacy
    ensures
      var q := SendBest(p, data, env).pair;
      if SendResets(p, DirectPath)
      then q.p2p.session == Reset(p.p2p.session) && q.relay == p.relay
      else SameSessions(p, q)
  {
  }

  /**
   A send resets an agent exactly if it is the direct one of a pair that is not legacy, has failed, and the relay agent is
   not connected. It never resets a relay agent or the agent of a legacy pair.
   */
  lemma SendResetsOnlyDirect(p: Pair, data: seq<byte>, env: Env)
    requires p.strategy == AdaptiveRedundant
    ensures
      var q := SendP2P(p, data, env).pair;
      && (forall path :: WasReset(p, q, path) <==> SendResets(p, path))
      && (!SendResets(p, DirectPath) ==> SameSessions(p, q))
  {
    var r := Routed(p, env.now);
    RoutedKeepsSessions(p, env.now);
    RoutedAlike(p, env.now, data);
    if !r.legacy {
      RedundantKeepsSessions(CountRedundant(r), data, env);
      BestResets(r, data, env);
    }
  }

  /** The agent on `path` has failed, and sending does not reset it. */
  predicate Stranded(p: Pair, path: Path) {
    && p.strategy == AdaptiveRedundant && p.At(path).Some? && p.At(path).value.session.state == Failed
    && (p.legacy || path == RelayPath)
  }

  /** The peer says nothing and libjuice reports nothing. */
  predicate Unprompted(e: PairEvent) {
    !e.PeerSends? && !e.JuiceReports?
  }

  lemma NextKeepsStranded(p: Pair, e: PairEvent, path: Path)
    requires Stranded(p, path) && Unprompted(e)
    ensures Stranded(Next(p, e), path) && !WasReset(p, Next(p, e), path)
  {
    match e
    case GameSends(data, env) =>
      SendResetsOnlyDirect(p, data, env);
      SendKeepsKinds(p, data, env);
    case ConnectionWanted =>
    case WorkerSends(response) =>
    case PacketArrives(_, _, _) =>
  }

  /**
   A relay agent that has failed, or the failed agent of a legacy pair, stays failed through any number of sends, requests,
   packets and answers. Only its peer can revive it.
   */
  lemma {:induction false} OnlyThePeerRevives(p: Pair, run: seq<PairEvent>, path: Path)
    requires Stranded(p, path) && forall e :: e in run ==> Unprompted(e)
    ensures Stranded(Exec(p, run), path) && !WasReset(p, Exec(p, run), path)
  {
    if run == [] {
    } else {
      OnlyThePeerRevives(p, run[..|run| - 1], path);
      NextKeepsStranded(Exec(p, run[..|run| - 1]), run[|run| - 1], path);
    }
  }

  // ----- Counting sends -----

  /** The sends of a run that were made in legacy mode. */
  function LegacySends(p: Pair, run: seq<PairEvent>): nat {
    if run == [] then 0
    else
      LegacySends(p, run[..|run| - 1]) +
      if run[|run| - 1].GameSends? && Exec(p, run[..|run| - 1]).legacy then 1 else 0
  }

  function Counted(s: Stats): nat {
    s.p2p + s.relay + s.redundant
  }

  lemma TransmitKeepsCounts(p: Pair, path: Path, data: seq<byte>)
    ensures
      var q := p.Transmit(path, data);
      q.stats == p.stats && q.sendCounter == p.sendCounter && q.legacy == p.legacy && q.quality == p.quality
  {
  }

  lemma SendCounts(p: Pair, data: seq<byte>, env: Env)
    requires p.strategy == AdaptiveRedundant
    ensures
      var q := SendP2P(p, data, env).pair;
      && q.sendCounter == p.sendCounter + 1
      && Counted(q.stats) == Counted(p.stats) + (if p.legacy then 0 else 1)
      && (q.stats.redundant > p.stats.redundant <==> ShouldSendRedundant(p))
  {
    var q := Routed(p, env.now);
    RoutedAlike(p, env.now, data);
    assert ShouldSendRedundant(q) == ShouldSendRedundant(p);
    if !q.legacy && ShouldSendRedundant(q) {
      TransmitKeepsCounts(CountRedundant(q), DirectPath, data);
      TransmitKeepsCounts(CountRedundant(q).Transmit(DirectPath, data), RelayPath, data);
    }
  }

  lemma OthersCountNothing(p: Pair, e: PairEvent)
    requires !e.GameSends?
    ensures Next(p, e).stats == p.stats && Next(p, e).sendCounter == p.sendCounter
  {
  }

  /** Every send is counted once: on one of the two paths, as redundant, or as legacy. */
  lemma {:induction false} SendsAreAccounted(controlling: bool, t1: nat, t2: nat, run: seq<PairEvent>)
    ensures
      var start := FreshPair(controlling, t1, t2);
      var p := Exec(start, run);
      p.strategy == AdaptiveRedundant && p.sendCounter == Counted(p.stats) + LegacySends(start, run)
  {
    if run == [] {
    } else {
      var start := FreshPair(controlling, t1, t2);
      var before := Exec(start, run[..|run| - 1]);
      var e := run[|run| - 1];
      SendsAreAccounted(controlling, t1, t2, run[..|run| - 1]);
      if e.GameSends? {
        SendCounts(before, e.data, e.env);
        SendKeepsKinds(before, e.data, e.env);
      } else {
        OthersCountNothing(before, e);
        if !(e.PeerSends? && e.kind == RelayFallback && !before.legacy) { NextKeepsKinds(before, e); }
      }
    }
  }
}
