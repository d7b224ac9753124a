/**
 What a manager does, said from the outside: which events reach which pair, which packets reach the game, and who controls.
 */
module ManagerConduct {
  import opened Basics
  import opened JuiceAgents
  import opened JuiceManagers
  import opened JuiceSession
  import opened Packets
  import opened PairProperties
  import opened PairState
  import PairConduct
  import ReceiveQueue

  // ----- The past of a pair -----

  /** When the pair for a peer was made, and what has happened to it since. */
  datatype Past = Past(ticks: Ticks, events: seq<PairEvent>)

  function Began(past: Option<Past>, ticks: Ticks): Past {
    if past.Some? then past.value else Past(ticks, [])
  }

  function Then(past: Past, e: PairEvent): Past {
    past.(events := past.events + [e])
  }

  function IfAny(past: Option<Past>, e: PairEvent): Option<Past> {
    if past.Some? then Some(Then(past.value, e)) else None
  }

  /**
   What an event of the manager adds to the past of a peer's pair. Sends, messages, requests and questions about its state
   make the pair if there is none; packets, reports and answers only reach one that exists; clearing ends it.
   */
  function PastAfter(m: Manager, past: Option<Past>, e: ManagerEvent, peer: NetAddress): Option<Past> {
    match e
    case GameSendsTo(to, data, env, ticks) =>
      if to == peer then Some(Then(Began(past, ticks), GameSends(data, env))) else past
    case MessageFrom(from, kind, message, ticks) =>
      if from == peer then Some(Then(Began(past, ticks), PeerSends(kind, message))) else past
    case PeerWanted(wanted, ticks) => if wanted == peer then Some(Then(Began(past, ticks), ConnectionWanted)) else past
    case AgentReports(of, path, state) => if of == peer then IfAny(past, JuiceReports(path, state)) else past
    case StateAsked(of, ticks) => if of == peer then Some(Began(past, ticks)) else past
    case PacketReceived(path, packet, now) =>
      if packet.sender == peer then IfAny(past, PacketArrives(path, packet, now)) else past
    case WorkerRuns =>
      if m.queue != [] && m.queue[0].address == peer then IfAny(past, WorkerSends(m.queue[0])) else past
    case InactiveCleared(inactive) => if peer in inactive then None else past
  }

  function PastOf(m: Manager, run: seq<ManagerEvent>, peer: NetAddress): Option<Past> {
    if run == [] then None
    else
      var front := run[..|run| - 1];
      PastAfter(JuiceManagers.Exec(m, front), PastOf(m, front, peer), run[|run| - 1], peer)
  }

  function Replayed(self: NetAddress, peer: NetAddress, past: Past): Pair {
    PairState.Exec(FreshPair(Controls(self, peer), past.ticks.direct, past.ticks.relay), past.events)
  }

  /** There is a pair for the peer exactly if it has a past, and it is what that past leads to. */
  predicate IsPast(m: Manager, peer: NetAddress, past: Option<Past>) {
    && (peer in m.pairs <==> past.Some?)
    && (past.Some? ==> m.pairs[peer] == Replayed(m.self, peer, past.value))
  }

  lemma ReplayedThen(self: NetAddress, peer: NetAddress, past: Past, e: PairEvent)
    ensures Replayed(self, peer, Then(past, e)) == PairState.Next(Replayed(self, peer, past), e)
  {
    assert (past.events + [e])[..|past.events|] == past.events;
  }

  lemma AgentBegan(m: Manager, peer: NetAddress, ticks: Ticks, past: Option<Past>)
    requires IsPast(m, peer, past)
    ensures IsPast(WithAgent(m, peer, ticks), peer, Some(Began(past, ticks)))
  {
  }

  lemma PairThen(m: Manager, peer: NetAddress, past: Past, e: PairEvent)
    requires IsPast(m, peer, Some(past))
    ensures IsPast(WithPair(m, peer, PairState.Next(m.pairs[peer], e)), peer, Some(Then(past, e)))
  {
    ReplayedThen(m.self, peer, past, e);
  }

  lemma SendThen(m: Manager, to: NetAddress, data: seq<byte>, env: Env, ticks: Ticks, peer: NetAddress, past: Option<Past>)
    requires IsPast(m, peer, past)
    ensures
      var e := GameSendsTo(to, data, env, ticks);
      IsPast(After(m, e), peer, PastAfter(m, past, e, peer))
  {
    if to == peer {
      AgentBegan(m, peer, ticks, past);
      PairThen(WithAgent(m, peer, ticks), peer, Began(past, ticks), GameSends(data, env));
    }
  }

  lemma MessageThen(
    m: Manager, from: NetAddress, kind: AgentType, message: Message, ticks: Ticks, peer: NetAddress, past: Option<Past>)
    requires IsPast(m, peer, past)
    ensures
      var e := MessageFrom(from, kind, message, ticks);
      IsPast(After(m, e), peer, PastAfter(m, past, e, peer))
  {
    if from == peer {
      AgentBegan(m, peer, ticks, past);
      PairThen(WithAgent(m, peer, ticks), peer, Began(past, ticks), PeerSends(kind, message));
    }
  }

  lemma RequestThen(m: Manager, wanted: NetAddress, ticks: Ticks, peer: NetAddress, past: Option<Past>)
    requires IsPast(m, peer, past)
    ensures IsPast(After(m, PeerWanted(wanted, ticks)), peer, PastAfter(m, past, PeerWanted(wanted, ticks), peer))
  {
    if wanted == peer {
      AgentBegan(m, peer, ticks, past);
      PairThen(WithAgent(m, peer, ticks), peer, Began(past, ticks), ConnectionWanted);
    }
  }

  lemma PacketThen(m: Manager, path: Path, packet: GamePacket, now: nat, peer: NetAddress, past: Option<Past>)
    requires IsPast(m, peer, past)
    ensures
      var e := PacketReceived(path, packet, now);
      IsPast(After(m, e), peer, PastAfter(m, past, e, peer))
  {
    if packet.sender == peer && past.Some? { PairThen(m, peer, past.value, PacketArrives(path, packet, now)); }
  }

  lemma WorkThen(m: Manager, peer: NetAddress, past: Option<Past>)
    requires IsPast(m, peer, past)
    ensures IsPast(Worked(m), peer, PastAfter(m, past, WorkerRuns, peer))
  {
    if m.queue != [] && m.queue[0].address == peer && past.Some? {
      PairThen(m, peer, past.value, WorkerSends(m.queue[0]));
    }
  }

  lemma NextIsPast(m: Manager, e: ManagerEvent, peer: NetAddress, past: Option<Past>)
    requires IsPast(m, peer, past)
    ensures IsPast(After(m, e), peer, PastAfter(m, past, e, peer))
  {
    match e
    case GameSendsTo(to, data, env, ticks) => SendThen(m, to, data, env, ticks, peer, past);
    case MessageFrom(from, kind, message, ticks) => MessageThen(m, from, kind, message, ticks, peer, past);
    case PeerWanted(wanted, ticks) => RequestThen(m, wanted, ticks, peer, past);
    case AgentReports(of, path, state) =>
      if of == peer && past.Some? { PairThen(m, peer, past.value, JuiceReports(path, state)); }
    case StateAsked(of, ticks) => if of == peer { AgentBegan(m, peer, ticks, past); }
    case PacketReceived(path, packet, now) => PacketThen(m, path, packet, now, peer, past);
    case WorkerRuns => WorkThen(m, peer, past);
    case InactiveCleared(_) =>
  }

  /**
   Through any run of the manager there is a pair for a peer exactly while its past says so, and it is what its own past
   leads to: every send, message, request, report, packet and answer for that peer since the pair was made, and no other.
   */
  lemma {:induction false} EveryPairIsItsPast(m: Manager, run: seq<ManagerEvent>, peer: NetAddress)
    requires m.pairs == map[]
    ensures IsPast(JuiceManagers.Exec(m, run), peer, PastOf(m, run, peer))
  {
    if run == [] {
    } else {
      var front := run[..|run| - 1];
      EveryPairIsItsPast(m, front, peer);
      NextIsPast(JuiceManagers.Exec(m, front), run[|run| - 1], peer, PastOf(m, front, peer));
    }
  }

  // ----- Who controls -----

  lemma NextKeepsRole(l: Link, e: PairConduct.LinkEvent)
    ensures PairConduct.LinkNext(l, e).session.controlling == l.session.controlling
  {
  }

  lemma {:induction false} HistoryKeepsRole(l: Link, events: seq<PairConduct.LinkEvent>)
    ensures PairConduct.LinkExec(l, events).session.controlling == l.session.controlling
  {
    if events == [] {
    } else {
      HistoryKeepsRole(l, events[..|events| - 1]);
      NextKeepsRole(PairConduct.LinkExec(l, events[..|events| - 1]), events[|events| - 1]);
    }
  }

  /** Every agent of every pair there ever is has the role that the two ids give it. */
  lemma RolesAreById(m: Manager, run: seq<ManagerEvent>, peer: NetAddress, path: Path)
    requires m.pairs == map[] && peer in JuiceManagers.Exec(m, run).pairs
    ensures
      var l := JuiceManagers.Exec(m, run).pairs[peer].At(path);
      l.Some? ==> l.value.session.controlling == Controls(m.self, peer)
  {
    EveryPairIsItsPast(m, run, peer);
    PairsAreIndependent(m, run);
    var past := PastOf(m, run, peer).value;
    var controlling := Controls(m.self, peer);
    PairConduct.EachAgentOnItsOwn(controlling, past.ticks.direct, past.ticks.relay, past.events, path);
    PairConduct.FreshPairIsFresh(controlling, past.ticks.direct, past.ticks.relay, path);
    var start := FreshPair(controlling, past.ticks.direct, past.ticks.relay);
    HistoryKeepsRole(start.At(path).value, PairConduct.History(start, past.events, path));
  }

  /** So of two peers' agents for each other, on the same path, exactly one controls. */
  lemma TwinsHaveOppositeRoles(
    a: Manager, runOfA: seq<ManagerEvent>, b: Manager, runOfB: seq<ManagerEvent>, path: Path)
    requires a.pairs == map[] && b.pairs == map[] && a.self != b.self
    requires b.self in JuiceManagers.Exec(a, runOfA).pairs && a.self in JuiceManagers.Exec(b, runOfB).pairs
    ensures
      var x := JuiceManagers.Exec(a, runOfA).pairs[b.self].At(path);
      var y := JuiceManagers.Exec(b, runOfB).pairs[a.self].At(path);
      x.Some? && y.Some? ==> x.value.session.controlling != y.value.session.controlling
  {
    RolesAreById(a, runOfA, b.self, path);
    RolesAreById(b, runOfB, a.self, path);
    ExactlyOneControls(a.self, b.self);
  }

  // ----- Packets for the game -----

  /** The sender has an agent on the path, so that there is one to receive the packet. */
  predicate Lands(m: Manager, e: ManagerEvent) {
    && e.PacketReceived? && e.packet.sender in m.pairs
    && m.pairs[e.packet.sender].At(e.path).Some?
  }

  function GamePackets(m: Manager, run: seq<ManagerEvent>): seq<GamePacket> {
    if run == [] then []
    else
      var e := run[|run| - 1];
      GamePackets(m, run[..|run| - 1])
      + if Lands(JuiceManagers.Exec(m, run[..|run| - 1]), e) && e.packet.header.kind != CrownLink then [e.packet] else []
  }

  lemma NextForGame(m: Manager, e: ManagerEvent)
    ensures After(m, e).forGame
         == m.forGame + if Lands(m, e) && e.packet.header.kind != CrownLink then [e.packet] else []
  {
    assert m.forGame + [] == m.forGame;
  }

  /** In every run the game is handed exactly the packets of its own types that an agent received, in order. */
  lemma {:induction false} GamePacketsAreHandedOn(m: Manager, run: seq<ManagerEvent>)
    ensures JuiceManagers.Exec(m, run).forGame == m.forGame + GamePackets(m, run)
  {
    if run == [] {
      assert m.forGame + [] == m.forGame;
    } else {
      var before, e := JuiceManagers.Exec(m, run[..|run| - 1]), run[|run| - 1];
      GamePacketsAreHandedOn(m, run[..|run| - 1]);
      NextForGame(before, e);
      var more := if Lands(before, e) && e.packet.header.kind != CrownLink then [e.packet] else [];
      assert m.forGame + GamePackets(m, run[..|run| - 1]) + more == m.forGame + (GamePackets(m, run[..|run| - 1]) + more);
    }
  }

  /** The packets that landed, as they arrive at the receive queue. */
  function Arrivals(m: Manager, run: seq<ManagerEvent>): seq<ReceiveQueue.InboxEvent> {
    if run == [] then []
    else
      var e := run[|run| - 1];
      Arrivals(m, run[..|run| - 1])
      + if Lands(JuiceManagers.Exec(m, run[..|run| - 1]), e) then [ReceiveQueue.PacketArrives(e.packet)] else []
  }

  lemma {:induction false} ArrivalsForGame(m: Manager, run: seq<ManagerEvent>)
    ensures ReceiveQueue.ForGame(Arrivals(m, run)) == GamePackets(m, run)
  {
    if run == [] {
    } else {
      var e := run[|run| - 1];
      var front := Arrivals(m, run[..|run| - 1]);
      ArrivalsForGame(m, run[..|run| - 1]);
      if Lands(JuiceManagers.Exec(m, run[..|run| - 1]), e) {
        assert (front + [ReceiveQueue.PacketArrives(e.packet)])[..|front|] == front;
      } else {
        assert front + [] == front;
      }
    }
  }

  /** The arrivals among the events of the receive queue, without what the game does in between. */
  function OnlyArrivals(events: seq<ReceiveQueue.InboxEvent>): seq<ReceiveQueue.InboxEvent> {
    if events == [] then []
    else OnlyArrivals(events[..|events| - 1]) + if events[|events| - 1].PacketArrives? then [events[|events| - 1]] else []
  }

  lemma {:induction false} ForGameOfArrivals(events: seq<ReceiveQueue.InboxEvent>)
    ensures ReceiveQueue.ForGame(OnlyArrivals(events)) == ReceiveQueue.ForGame(events)
  {
    if events == [] {
    } else {
      var front, e := OnlyArrivals(events[..|events| - 1]), events[|events| - 1];
      ForGameOfArrivals(events[..|events| - 1]);
      assert (front + [e])[..|front|] == front && front + [] == front;
    }
  }

  /**
   From libjuice to the game: whatever the game does in between, the packets that the manager hands on in a run are exactly
   those the game has been given, those dropped as stale and those still in the queue.
   */
  lemma PacketsReachTheGame(m: Manager, run: seq<ManagerEvent>, events: seq<ReceiveQueue.InboxEvent>)
    requires m.forGame == [] && OnlyArrivals(events) == Arrivals(m, run)
    ensures
      var s := ReceiveQueue.Exec(ReceiveQueue.EMPTY_INBOX, events);
      && JuiceManagers.Exec(m, run).forGame == ReceiveQueue.ForGame(events)
      && multiset(JuiceManagers.Exec(m, run).forGame)
         == multiset(ReceiveQueue.DeliveredOf(s.outcomes)) + multiset(ReceiveQueue.DroppedOf(s.outcomes)) + multiset(s.queue)
  {
    GamePacketsAreHandedOn(m, run);
    ArrivalsForGame(m, run);
    ForGameOfArrivals(events);
    ReceiveQueue.PacketsAreConserved(events);
  }
}
