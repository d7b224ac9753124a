/**
 Measuring the round trip.  Two agents ping each other and echo through their workers' queues, while the game sends
 its data through them and their sessions go up and down.  The network may lose, repeat and reorder all datagrams.
 */
module Pings {
  import opened Basics
  import opened Bytes
  import opened Ema
  import opened JuiceAgents
  import opened JuiceSession
  import opened Packets

  // ----- One ping -----

  /**
   Whatever size a ping claims, it is answered with its own payload or not at all: a size below the header's, which
   wraps, and a size above the packet's are both refused when the answer is sent.
   */
  lemma PingIsEchoedOrRefused(l: Link, address: NetAddress, packet: GamePacket, now: nat)
    requires packet.header.kind == CrownLink && packet.header.subType == Ping
    ensures
      var r := ReceivePacket(l, address, packet, now);
      && r.link == l && r.response.Some? && !r.forGame
      && r.response.value.address == address && r.response.value.kind == l.session.kind
      && var answer := r.response.value;
         var after := l.SendCustomMessage(answer.subType, answer.data, answer.dataSize);
         if HEADER_SIZE <= packet.header.size <= MAX_PACKET_SIZE && l.IsConnected()
         then after.session.calls == l.session.calls + [SendDatagram(l.session.instance,
                CrownLinkData(packet.header.size, PingResponse, packet.payload[..packet.header.size - HEADER_SIZE]))]
         else after == l
  {
    SizesRefused(packet.header);
    if HEADER_SIZE <= packet.header.size <= MAX_PACKET_SIZE {
      PayloadIsKept(address, l.session.kind, packet, packet.header.size - HEADER_SIZE);
    }
  }

  /** A size below the header's wraps to one that is far too large. */
  lemma SizesRefused(header: Header)
    ensures ClaimedPayload(header) <= MAX_PAYLOAD_SIZE <==> HEADER_SIZE <= header.size <= MAX_PACKET_SIZE
    ensures HEADER_SIZE <= header.size ==> ClaimedPayload(header) == header.size - HEADER_SIZE
  {
  }

  lemma PayloadIsKept(address: NetAddress, kind: AgentType, packet: GamePacket, n: nat)
    requires n <= MAX_PAYLOAD_SIZE
    ensures MakeCustomPacket(address, kind, PingResponse, packet.payload, n).data[..n] == packet.payload[..n]
  {
  }

  /** An answer to a ping causes no packet, no message and no change but to the average. */
  lemma PongIsQuiet(l: Link, address: NetAddress, packet: GamePacket, now: nat)
    requires packet.header.kind == CrownLink && packet.header.subType == PingResponse
    ensures
      var r := ReceivePacket(l, address, packet, now);
      r.response == None && !r.forGame && r.link == l.(latency := r.link.latency)
  {
  }

  // ----- Whole runs -----

  /** A ping's journey: when it was sent and when its echo was counted. */
  datatype Sample = Sample(sentAt: nat, receivedAt: nat)

  /** One peer's agent, with the answers its worker has yet to send, the times of its pings and what it has measured. */
  datatype End = End(link: Link, queue: seq<CustomPacket<AgentType>>, sentAt: set<nat>, samples: seq<Sample>)

  datatype Seat = Left | Right

  datatype Probe = Probe(left: End, right: End, clock: nat)
  {
    function At(seat: Seat): End {
      if seat == Left then left else right
    }

    function Peer(seat: Seat): End {
      if seat == Left then right else left
    }

    function With(seat: Seat, end: End): Probe {
      if seat == Left then this.(left := end) else this.(right := end)
    }
  }

  datatype EndEvent =
    | PingSent
    | DataSent(data: seq<byte>)
    | DatagramArrives(index: nat)
    | WorkerRuns
    | MessageArrives(message: Message)
    | JuiceReports(state: JuiceState)
    | TypeChanged(kind: AgentType)

  datatype ProbeEvent = TimePasses(milliseconds: nat) | Happens(at: Seat, event: EndEvent)

  /**
   The packet the receiver reads from the `i`-th call in the sender's log, if it was a CrownLink packet. The game's own
   data is for the game.
   */
  function InFlight(sender: Link, address: NetAddress, i: nat, now: nat): Option<GamePacket> {
    if i < |sender.session.calls| && sender.session.calls[i].SendDatagram? then
      match sender.session.calls[i].datagram
      case GameData(_) => None
      case CrownLinkData(size, subType, payload) =>
        if size < 0x1_0000 && |payload| <= MAX_PAYLOAD_SIZE
        then Some(Arrived(address, size, subType, payload, now)) else None
    else None
  }

  function Arrives(x: End, address: NetAddress, packet: GamePacket, clock: nat): End {
    var r := ReceivePacket(x.link, address, packet, clock);
    var counted := packet.header.subType == PingResponse && ElapsedTime(packet, clock).Some?;
    x.(link := r.link,
       queue := if r.response.Some? then x.queue + [r.response.value] else x.queue,
       samples := if counted then x.samples + [Sample(DecodeBE(packet.payload[..TIMESTAMP_SIZE]), clock)] else x.samples)
  }

  /** What an event does to the end `x` while its peer is `y`. A ping counts as sent when libjuice gets it. */
  function EndNext(x: End, y: End, address: NetAddress, clock: nat, e: EndEvent): End {
    match e
    case PingSent =>
      x.(link := x.link.SendPing(clock), sentAt := if x.link.IsConnected() then x.sentAt + {clock} else x.sentAt)
    case DataSent(data) => x.(link := x.link.SendMessage(data))
    case DatagramArrives(i) =>
      var packet := InFlight(y.link, address, i, clock);
      if packet.None? then x else Arrives(x, address, packet.value, clock)
    case WorkerRuns =>
      if x.queue == [] then x
      else x.(queue := x.queue[1..],
              link := x.link.SendCustomMessage(x.queue[0].subType, x.queue[0].data, x.queue[0].dataSize))
    case MessageArrives(m) => x.(link := x.link.Take(Handle(x.link.session, m)))
    case JuiceReports(state) => x.(link := x.link.(session := StateChanged(x.link.session, state)))
    case TypeChanged(kind) => x.(link := x.link.(session := SetAgentType(x.link.session, kind)))
  }

  function Next(s: Probe, address: NetAddress, e: ProbeEvent): Probe {
    match e
    case TimePasses(ms) => if s.clock + ms < TIMESTAMP_RANGE then s.(clock := s.clock + ms) else s
    case Happens(at, event) => s.With(at, EndNext(s.At(at), s.Peer(at), address, s.clock, event))
  }

  function Exec(s: Probe, address: NetAddress, run: seq<ProbeEvent>): Probe {
    if run == [] then s else Next(Exec(s, address, run[..|run| - 1]), address, run[|run| - 1])
  }

  function Start(kind: AgentType, clock: nat): Probe {
    Probe(End(FreshLink(kind, true, 0), [], {}, []), End(FreshLink(kind, false, 0), [], {}, []), clock)
  }

  function Elapsed(samples: seq<Sample>): seq<real> {
    if samples == [] then []
    else
      var last := samples[|samples| - 1];
      Elapsed(samples[..|samples| - 1]) + [(last.receivedAt - last.sentAt) as real]
  }

  // ----- The invariant -----

  ghost predicate CarriesTime(datagram: Datagram, subType: PacketSubType, sentAt: set<nat>) {
    exists t :: t in sentAt && t < TIMESTAMP_RANGE
      && datagram == CrownLinkData(HEADER_SIZE + TIMESTAMP_SIZE, subType, TimestampBytes(t))
  }

  /** A ping carries a time of the sender, an answer one of the receiver. */
  ghost predicate Carries(datagram: Datagram, own: set<nat>, theirs: set<nat>) {
    datagram.CrownLinkData? ==> CarriesTime(datagram, Ping, own) || CarriesTime(datagram, PingResponse, theirs)
  }

  ghost predicate LogCarries(calls: seq<JuiceCall>, own: set<nat>, theirs: set<nat>) {
    forall call :: call in calls && call.SendDatagram? ==> Carries(call.datagram, own, theirs)
  }

  ghost predicate Queued(response: CustomPacket<AgentType>, sentAt: set<nat>) {
    && response.subType == PingResponse && response.dataSize == TIMESTAMP_SIZE
    && exists t :: t in sentAt && t < TIMESTAMP_RANGE && response.data[..TIMESTAMP_SIZE] == TimestampBytes(t)
  }

  ghost predicate AllQueued(queue: seq<CustomPacket<AgentType>>, sentAt: set<nat>) {
    forall response :: response in queue ==> Queued(response, sentAt)
  }

  /** An elapsed time that was counted is the true one and plausible. */
  predicate TrueSample(s: Sample, sentAt: set<nat>) {
    s.sentAt in sentAt && s.sentAt <= s.receivedAt <= s.sentAt + MAX_PING_DELTA
  }

  ghost predicate Measured(x: End) {
    && (forall i :: 0 <= i < |x.samples| ==> TrueSample(x.samples[i], x.sentAt))
    && x.link.latency == Initial(LATENCY_SAMPLES, None).UpdateAll(Elapsed(x.samples))
  }

  ghost predicate Faithful(x: End, y: End, clock: nat) {
    && clock < TIMESTAMP_RANGE
    && (forall t :: t in x.sentAt ==> t <= clock)
    && LogCarries(x.link.session.calls, x.sentAt, y.sentAt)
    && AllQueued(x.queue, y.sentAt)
    && Measured(x)
  }

  ghost predicate BothFaithful(s: Probe) {
    Faithful(s.left, s.right, s.clock) && Faithful(s.right, s.left, s.clock)
  }

  /** More pings by either side spoil nothing. */
  lemma GrowsCarries(calls: seq<JuiceCall>, own: set<nat>, theirs: set<nat>, own': set<nat>, theirs': set<nat>)
    requires LogCarries(calls, own, theirs) && own <= own' && theirs <= theirs'
    ensures LogCarries(calls, own', theirs')
  {
    forall call | call in calls && call.SendDatagram? ensures Carries(call.datagram, own', theirs') {
      assert Carries(call.datagram, own, theirs);
    }
  }

  lemma PeerStaysFaithful(y: End, x: End, x': End, clock: nat)
    requires Faithful(y, x, clock) && x.sentAt <= x'.sentAt
    ensures Faithful(y, x', clock)
  {
    GrowsCarries(y.link.session.calls, y.sentAt, x.sentAt, y.sentAt, x'.sentAt);
    forall response | response in y.queue ensures Queued(response, x'.sentAt) {
      assert Queued(response, x.sentAt);
    }
  }

  lemma PingSentKeeps(x: End, y: End, address: NetAddress, clock: nat)
    requires Faithful(x, y, clock)
    ensures Faithful(EndNext(x, y, address, clock, PingSent), y, clock)
  {
    var x' := EndNext(x, y, address, clock, PingSent);
    if x.link.IsConnected() {
      GrowsCarries(x.link.session.calls, x.sentAt, y.sentAt, x'.sentAt, y.sentAt);
      assert TimestampBytes(clock)[..TIMESTAMP_SIZE] == TimestampBytes(clock);
      assert clock in x'.sentAt;
      var ping := CrownLinkData(HEADER_SIZE + TIMESTAMP_SIZE, Ping, TimestampBytes(clock));
      assert CarriesTime(ping, Ping, x'.sentAt);
      assert x'.link.session.calls == x.link.session.calls + [SendDatagram(x.link.session.instance, ping)];
    }
  }

  /** A CrownLink packet in flight carries the time one ping was sent, and nothing else. */
  lemma ArrivedCarries(y: End, x: End, address: NetAddress, i: nat, now: nat) returns (t: nat)
    requires LogCarries(y.link.session.calls, y.sentAt, x.sentAt) && InFlight(y.link, address, i, now).Some?
    ensures t < TIMESTAMP_RANGE
    ensures
      var packet := InFlight(y.link, address, i, now).value;
      && packet.header.kind == CrownLink
      && ((packet.header.subType == Ping && t in y.sentAt) || (packet.header.subType == PingResponse && t in x.sentAt))
      && ClaimedPayload(packet.header) == TIMESTAMP_SIZE
      && packet.payload[..TIMESTAMP_SIZE] == TimestampBytes(t)
      && DecodeBE(packet.payload[..TIMESTAMP_SIZE]) == t
  {
    var datagram := y.link.session.calls[i].datagram;
    assert Carries(datagram, y.sentAt, x.sentAt);
    if CarriesTime(datagram, Ping, y.sentAt) {
      t :| t in y.sentAt && t < TIMESTAMP_RANGE
        && datagram == CrownLinkData(HEADER_SIZE + TIMESTAMP_SIZE, Ping, TimestampBytes(t));
    } else {
      t :| t in x.sentAt && t < TIMESTAMP_RANGE
        && datagram == CrownLinkData(HEADER_SIZE + TIMESTAMP_SIZE, PingResponse, TimestampBytes(t));
    }
    TimestampRoundTrip(t);
    var packet := InFlight(y.link, address, i, now).value;
    assert packet.payload[..TIMESTAMP_SIZE] == TimestampBytes(t);
  }

  lemma PingArrivesKeeps(x: End, y: End, address: NetAddress, packet: GamePacket, clock: nat, t: nat)
    requires Faithful(x, y, clock) && t in y.sentAt && t < TIMESTAMP_RANGE
    requires packet.header.kind == CrownLink && packet.header.subType == Ping
    requires ClaimedPayload(packet.header) == TIMESTAMP_SIZE && packet.payload[..TIMESTAMP_SIZE] == TimestampBytes(t)
    ensures Faithful(Arrives(x, address, packet, clock), y, clock)
  {
    PayloadIsKept(address, x.link.session.kind, packet, TIMESTAMP_SIZE);
    assert Queued(ReceivePacket(x.link, address, packet, clock).response.value, y.sentAt);
  }

  lemma ElapsedAppends(samples: seq<Sample>, s: Sample)
    ensures Elapsed(samples + [s]) == Elapsed(samples) + [(s.receivedAt - s.sentAt) as real]
  {
    assert (samples + [s])[..|samples|] == samples;
  }

  lemma LatencyFollows(latency: Average, samples: seq<Sample>, s: Sample)
    requires latency == Initial(LATENCY_SAMPLES, None).UpdateAll(Elapsed(samples))
    ensures latency.Update((s.receivedAt - s.sentAt) as real)
         == Initial(LATENCY_SAMPLES, None).UpdateAll(Elapsed(samples + [s]))
  {
    ElapsedAppends(samples, s);
    UpdateAllAppend(Initial(LATENCY_SAMPLES, None), Elapsed(samples), (s.receivedAt - s.sentAt) as real);
  }

  /** A sample that is counted enters the average as the time it took. */
  lemma CountedIsMeasured(x: End, clock: nat, t: nat)
    requires Measured(x) && t in x.sentAt && 0 <= clock - t <= MAX_PING_DELTA
    ensures
      var latency := x.link.latency.Update((clock - t) as real);
      Measured(x.(link := x.link.(latency := latency), samples := x.samples + [Sample(t, clock)]))
  {
    LatencyFollows(x.link.latency, x.samples, Sample(t, clock));
    var samples := x.samples + [Sample(t, clock)];
    forall i | 0 <= i < |samples| ensures TrueSample(samples[i], x.sentAt) {
      assert i < |x.samples| ==> samples[i] == x.samples[i];
    }
  }

  /** An echo of the ping sent at `t` counts as the time since then, if that is plausible. */
  lemma EchoCounts(x: End, address: NetAddress, packet: GamePacket, clock: nat, t: nat)
    requires t <= clock < TIMESTAMP_RANGE
    requires packet.header.kind == CrownLink && packet.header.subType == PingResponse
    requires ClaimedPayload(packet.header) == TIMESTAMP_SIZE && DecodeBE(packet.payload[..TIMESTAMP_SIZE]) == t
    ensures Arrives(x, address, packet, clock) ==
      if clock - t > MAX_PING_DELTA then x
      else x.(link := x.link.(latency := x.link.latency.Update((clock - t) as real)),
              samples := x.samples + [Sample(t, clock)])
  {
    assert (clock - t) % TIMESTAMP_RANGE == clock - t;
  }

  lemma ArrivalKeeps(x: End, y: End, address: NetAddress, clock: nat, i: nat)
    requires Faithful(x, y, clock) && Faithful(y, x, clock)
    ensures Faithful(EndNext(x, y, address, clock, DatagramArrives(i)), y, clock)
  {
    var packet := InFlight(y.link, address, i, clock);
    if packet.Some? {
      var t := ArrivedCarries(y, x, address, i, clock);
      if packet.value.header.subType == Ping {
        PingArrivesKeeps(x, y, address, packet.value, clock, t);
      } else {
        EchoCounts(x, address, packet.value, clock, t);
        if clock - t <= MAX_PING_DELTA { CountedIsMeasured(x, clock, t); }
      }
    }
  }

  lemma WorkerKeeps(x: End, y: End, address: NetAddress, clock: nat)
    requires Faithful(x, y, clock)
    ensures Faithful(EndNext(x, y, address, clock, WorkerRuns), y, clock)
  {
    if x.queue != [] {
      assert Queued(x.queue[0], y.sentAt);
      var t :| t in y.sentAt && t < TIMESTAMP_RANGE && x.queue[0].data[..TIMESTAMP_SIZE] == TimestampBytes(t);
      var echo := CrownLinkData(HEADER_SIZE + TIMESTAMP_SIZE, PingResponse, TimestampBytes(t));
      assert CarriesTime(echo, PingResponse, y.sentAt);
      assert forall response :: response in x.queue[1..] ==> response in x.queue;
    }
  }

  /** The session sends no CrownLink packet of its own. */
  lemma SessionCarries(calls: seq<JuiceCall>, a: Agent, own: set<nat>, theirs: set<nat>)
    requires LogCarries(calls, own, theirs)
    requires forall call :: call in a.calls && call !in calls && call.SendDatagram? ==> call.datagram.GameData?
    ensures LogCarries(a.calls, own, theirs)
  {
  }

  /** Handling a message adds calls to the log, but no datagram. */
  lemma HandleOnlyCalls(a: Agent, m: Message)
    ensures
      var calls := Handle(a, m).agent.calls;
      && a.calls <= calls
      && forall i :: |a.calls| <= i < |calls| ==> !calls[i].SendDatagram?
  {
    match m
    case ConnectionRequest(counter) => InitializeOnlyCalls(AdmitRequest(a, counter));
    case LocalDescription(sdp) =>
      InitializeOnlyCalls(a.(remoteSdp := sdp, calls := a.calls + [SetRemoteDescription(a.instance, sdp)]));
    case Candidate(_) =>
    case GatheringDone =>
    case Pong =>
  }

  lemma InitializeOnlyCalls(a: Agent)
    ensures
      var calls := TryInitialize(a).agent.calls;
      calls == a.calls || exists instance :: calls == a.calls + [GatherCandidates(instance)]
  {
  }

  lemma OthersKeep(x: End, y: End, address: NetAddress, clock: nat, e: EndEvent)
    requires Faithful(x, y, clock) && (e.DataSent? || e.MessageArrives? || e.JuiceReports? || e.TypeChanged?)
    ensures Faithful(EndNext(x, y, address, clock, e), y, clock)
  {
    var x' := EndNext(x, y, address, clock, e);
    if e.MessageArrives? { HandleOnlyCalls(x.link.session, e.message); }
    SessionCarries(x.link.session.calls, x'.link.session, x.sentAt, y.sentAt);
  }

  lemma EndNextKeeps(x: End, y: End, address: NetAddress, clock: nat, e: EndEvent)
    requires Faithful(x, y, clock) && Faithful(y, x, clock)
    ensures
      var x' := EndNext(x, y, address, clock, e);
      Faithful(x', y, clock) && Faithful(y, x', clock)
  {
    match e {
      case PingSent => PingSentKeeps(x, y, address, clock);
      case DatagramArrives(i) => ArrivalKeeps(x, y, address, clock, i);
      case WorkerRuns => WorkerKeeps(x, y, address, clock);
      case _ => OthersKeep(x, y, address, clock, e);
    }
    PeerStaysFaithful(y, x, EndNext(x, y, address, clock, e), clock);
  }

  lemma NextKeeps(s: Probe, address: NetAddress, e: ProbeEvent)
    requires BothFaithful(s)
    ensures BothFaithful(Next(s, address, e))
  {
    match e
    case TimePasses(_) =>
    case Happens(at, event) => EndNextKeeps(s.At(at), s.Peer(at), address, s.clock, event);
  }

  /**
   In every run the average latency of either side is the average of true round trips: each sample is the time from a ping
   that was handed to libjuice to the arrival of its echo, and at most half a minute. So the average is at most that, too.
   */
  lemma LatencyIsTrue(kind: AgentType, clock: nat, address: NetAddress, run: seq<ProbeEvent>, seat: Seat)
    requires clock < TIMESTAMP_RANGE
    ensures
      var x := Exec(Start(kind, clock), address, run).At(seat);
      && (forall i :: 0 <= i < |x.samples| ==> TrueSample(x.samples[i], x.sentAt))
      && x.link.latency == Initial(LATENCY_SAMPLES, None).UpdateAll(Elapsed(x.samples))
      && 0.0 <= x.link.latency.value <= MAX_PING_DELTA as real
  {
    ExecKeeps(kind, clock, address, run);
    var x := Exec(Start(kind, clock), address, run).At(seat);
    ElapsedInRange(x.samples, x.sentAt);
    StaysInHull(Initial(LATENCY_SAMPLES, None), Elapsed(x.samples), 0.0, MAX_PING_DELTA as real);
  }

  lemma {:induction false} ElapsedInRange(samples: seq<Sample>, sentAt: set<nat>)
    requires forall i :: 0 <= i < |samples| ==> TrueSample(samples[i], sentAt)
    ensures forall i :: 0 <= i < |Elapsed(samples)| ==> 0.0 <= Elapsed(samples)[i] <= MAX_PING_DELTA as real
  {
    if samples == [] {
    } else {
      ElapsedInRange(samples[..|samples| - 1], sentAt);
    }
  }

  lemma {:induction false} ExecKeeps(kind: AgentType, clock: nat, address: NetAddress, run: seq<ProbeEvent>)
    requires clock < TIMESTAMP_RANGE
    ensures BothFaithful(Exec(Start(kind, clock), address, run))
  {
    if run == [] {
    } else {
      ExecKeeps(kind, clock, address, run[..|run| - 1]);
      NextKeeps(Exec(Start(kind, clock), address, run[..|run| - 1]), address, run[|run| - 1]);
    }
  }

  ghost predicate PingInLog(calls: seq<JuiceCall>, t: nat) {
    exists call :: call in calls && call.SendDatagram?
      && call.datagram == CrownLinkData(HEADER_SIZE + TIMESTAMP_SIZE, Ping, TimestampBytes(t))
  }

  lemma LogGrows(x: End, y: End, address: NetAddress, clock: nat, e: EndEvent)
    ensures x.link.session.calls <= EndNext(x, y, address, clock, e).link.session.calls
  {
    match e
    case MessageArrives(m) => HandleOnlyCalls(x.link.session, m);
    case _ =>
  }

  lemma SentIsInLog(x: End, y: End, address: NetAddress, clock: nat)
    requires x.link.IsConnected()
    ensures PingInLog(EndNext(x, y, address, clock, PingSent).link.session.calls, clock)
  {
    var ping := CrownLinkData(HEADER_SIZE + TIMESTAMP_SIZE, Ping, TimestampBytes(clock));
    assert TimestampBytes(clock)[..TIMESTAMP_SIZE] == TimestampBytes(clock);
    var calls := EndNext(x, y, address, clock, PingSent).link.session.calls;
    assert calls == x.link.session.calls + [SendDatagram(x.link.session.instance, ping)];
    assert calls[|calls| - 1] in calls;
  }

  /** Every time that counts as sent is that of a ping libjuice was given. */
  lemma {:induction false} SentTimesAreInLog(
    kind: AgentType, clock: nat, address: NetAddress, run: seq<ProbeEvent>, seat: Seat, t: nat)
    requires t in Exec(Start(kind, clock), address, run).At(seat).sentAt
    ensures PingInLog(Exec(Start(kind, clock), address, run).At(seat).link.session.calls, t)
  {
    var s, e := Exec(Start(kind, clock), address, run[..|run| - 1]), run[|run| - 1];
    if t in s.At(seat).sentAt {
      SentTimesAreInLog(kind, clock, address, run[..|run| - 1], seat, t);
      if e.Happens? { LogGrows(s.At(e.at), s.Peer(e.at), address, s.clock, e.event); }
    } else {
      SentIsInLog(s.At(seat), s.Peer(seat), address, s.clock);
    }
  }
}
