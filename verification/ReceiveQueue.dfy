/**
 From the libjuice callback to the game: packets for the game wait in a queue, the game takes them one by one as loans
 and gives the loans back. A packet that has waited too long is dropped when its turn comes.
 */
module ReceiveQueue {
  import opened Basics
  import opened Packets

  /** What became of a packet that left the queue. */
  datatype Outcome = Delivered(packet: GamePacket, at: nat) | Dropped(packet: GamePacket, at: nat)

  /** `received`, `outcomes` and `frees` are the history; a loan is known by the number of its outcome. */
  datatype Inbox = Inbox(
    queue: seq<GamePacket>,
    loans: map<nat, GamePacket>,
    received: seq<GamePacket>,
    outcomes: seq<Outcome>,
    frees: nat)

  const EMPTY_INBOX := Inbox([], map[], [], [], 0)

  predicate Stale(packet: GamePacket, now: nat) {
    now > packet.timestamp + 2
  }

  /** CrownLink's own packets are handled in the callback and never queued. */
  function Arrive(s: Inbox, packet: GamePacket): Inbox {
    if packet.header.kind == CrownLink then s
    else s.(queue := s.queue + [packet], received := s.received + [packet])
  }

  /** One call of `spi_receive`, from its k-th packet on; `clock(k)` is the reading for that packet. */
  function Receive(s: Inbox, clock: nat -> nat, k: nat): (r: (Inbox, Option<nat>))
    ensures r.1.Some? ==> r.1.value in r.0.loans && |r.0.queue| < |s.queue|
    decreases |s.queue|
  {
    if s.queue == [] then (s, None)
    else if Stale(s.queue[0], clock(k)) then Receive(Drop(s, clock(k)), clock, k + 1)
    else (Deliver(s, clock(k)), Some(|s.outcomes|))
  }

  function Drop(s: Inbox, now: nat): Inbox
    requires s.queue != []
  {
    s.(queue := s.queue[1..], outcomes := s.outcomes + [Dropped(s.queue[0], now)])
  }

  function Deliver(s: Inbox, now: nat): Inbox
    requires s.queue != []
  {
    s.(queue := s.queue[1..], outcomes := s.outcomes + [Delivered(s.queue[0], now)],
       loans := s.loans[|s.outcomes| := s.queue[0]])
  }

  /** `spi_free`, on a loan that is out or on a null pointer. */
  function Free(s: Inbox, loan: Option<nat>): Inbox {
    if loan.Some? && loan.value in s.loans
    then s.(loans := s.loans - {loan.value}, frees := s.frees + 1) else s
  }

  // ----- Accounts -----

  function PacketsOf(outcomes: seq<Outcome>): (r: seq<GamePacket>)
    ensures |r| == |outcomes|
  {
    seq(|outcomes|, i requires 0 <= i < |outcomes| => outcomes[i].packet)
  }

  function DeliveredOf(outcomes: seq<Outcome>): seq<GamePacket> {
    if outcomes == [] then []
    else
      var last := outcomes[|outcomes| - 1];
      DeliveredOf(outcomes[..|outcomes| - 1]) + if last.Delivered? then [last.packet] else []
  }

  function DroppedOf(outcomes: seq<Outcome>): seq<GamePacket> {
    if outcomes == [] then []
    else
      var last := outcomes[|outcomes| - 1];
      DroppedOf(outcomes[..|outcomes| - 1]) + if last.Dropped? then [last.packet] else []
  }

  /**
   The packets received are those that have left the queue followed by those still in it, in one order; what was dropped
   was stale and what was delivered was not; and each loan that is out is a packet delivered and not given back.
   */
  ghost predicate Balanced(s: Inbox) {
    && s.received == PacketsOf(s.outcomes) + s.queue
    && (forall i :: 0 <= i < |s.outcomes| ==> s.outcomes[i].Dropped? == (s.outcomes[i].at > s.outcomes[i].packet.timestamp + 2))
    && (forall k :: k in s.loans ==> k < |s.outcomes| && s.outcomes[k].Delivered? && s.outcomes[k].packet == s.loans[k])
    && |s.loans| + s.frees == |DeliveredOf(s.outcomes)|
  }

  lemma OutcomesAppend(outcomes: seq<Outcome>, o: Outcome)
    ensures PacketsOf(outcomes + [o]) == PacketsOf(outcomes) + [o.packet]
    ensures DeliveredOf(outcomes + [o]) == DeliveredOf(outcomes) + if o.Delivered? then [o.packet] else []
    ensures DroppedOf(outcomes + [o]) == DroppedOf(outcomes) + if o.Dropped? then [o.packet] else []
  {
    assert (outcomes + [o])[..|outcomes|] == outcomes;
  }

  lemma DropKeepsBalance(s: Inbox, now: nat)
    requires Balanced(s) && s.queue != [] && Stale(s.queue[0], now)
    ensures Balanced(Drop(s, now))
  {
    assert s.queue == [s.queue[0]] + s.queue[1..];
    OutcomesAppend(s.outcomes, Dropped(s.queue[0], now));
  }

  lemma DeliverKeepsBalance(s: Inbox, now: nat)
    requires Balanced(s) && s.queue != [] && !Stale(s.queue[0], now)
    ensures Balanced(Deliver(s, now))
  {
    assert s.queue == [s.queue[0]] + s.queue[1..];
    OutcomesAppend(s.outcomes, Delivered(s.queue[0], now));
    assert |s.outcomes| !in s.loans;
    assert |s.loans[|s.outcomes| := s.queue[0]]| == |s.loans| + 1;
  }

  /** A call hands out a packet and shortens the queue, or finds nothing fresh and leaves it empty. */
  lemma {:induction false} ReceiveKeepsBalance(s: Inbox, clock: nat -> nat, k: nat)
    requires Balanced(s)
    ensures
      var (after, loan) := Receive(s, clock, k);
      && Balanced(after) && after.received == s.received
      && (loan.None? ==> after.queue == [] && after.loans == s.loans)
      && (loan.Some? ==> |after.queue| < |s.queue| && loan.value in after.loans && after.loans - {loan.value} == s.loans)
    decreases |s.queue|
  {
    if s.queue == [] {
    } else {
      if !Stale(s.queue[0], clock(k)) {
        DeliverKeepsBalance(s, clock(k));
      } else {
        DropKeepsBalance(s, clock(k));
        ReceiveKeepsBalance(Drop(s, clock(k)), clock, k + 1);
      }
    }
  }

  lemma FreeKeepsBalance(s: Inbox, loan: Option<nat>)
    requires Balanced(s)
    ensures Balanced(Free(s, loan))
  {
    if loan.Some? && loan.value in s.loans {
      assert s.loans == (s.loans - {loan.value})[loan.value := s.loans[loan.value]];
    }
  }

  // ----- Whole runs -----

  datatype InboxEvent =
    | PacketArrives(packet: GamePacket)
    | GameReceives(clock: nat -> nat)
    | GameFrees(loan: Option<nat>)

  function Next(s: Inbox, e: InboxEvent): Inbox {
    match e
    case PacketArrives(packet) => Arrive(s, packet)
    case GameReceives(clock) => Receive(s, clock, 0).0
    case GameFrees(loan) => Free(s, loan)
  }

  function Exec(s: Inbox, run: seq<InboxEvent>): Inbox {
    if run == [] then s else Next(Exec(s, run[..|run| - 1]), run[|run| - 1])
  }

  /** The packets for the game among those that arrive in a run. */
  function ForGame(run: seq<InboxEvent>): seq<GamePacket> {
    if run == [] then []
    else
      var e := run[|run| - 1];
      ForGame(run[..|run| - 1]) + if e.PacketArrives? && e.packet.header.kind != CrownLink then [e.packet] else []
  }

  lemma NextKeepsBalance(s: Inbox, e: InboxEvent)
    requires Balanced(s)
    ensures Balanced(Next(s, e))
    ensures !e.PacketArrives? ==> Next(s, e).received == s.received
  {
    match e
    case PacketArrives(packet) =>
      assert PacketsOf(s.outcomes) + (s.queue + [packet]) == PacketsOf(s.outcomes) + s.queue + [packet];
    case GameReceives(clock) => ReceiveKeepsBalance(s, clock, 0);
    case GameFrees(loan) => FreeKeepsBalance(s, loan);
  }

  lemma {:induction false} RunsBalance(run: seq<InboxEvent>)
    ensures Balanced(Exec(EMPTY_INBOX, run)) && Exec(EMPTY_INBOX, run).received == ForGame(run)
  {
    if run == [] {
    } else {
      RunsBalance(run[..|run| - 1]);
      NextKeepsBalance(Exec(EMPTY_INBOX, run[..|run| - 1]), run[|run| - 1]);
    }
  }

  lemma {:induction false} OutcomesPartition(outcomes: seq<Outcome>)
    ensures multiset(PacketsOf(outcomes)) == multiset(DeliveredOf(outcomes)) + multiset(DroppedOf(outcomes))
  {
    if outcomes == [] {
    } else {
      var front := outcomes[..|outcomes| - 1];
      OutcomesPartition(front);
      assert PacketsOf(outcomes) == PacketsOf(front) + [outcomes[|outcomes| - 1].packet];
    }
  }

  /**
   No packet for the game is lost, invented or repeated: those that arrived are those delivered, those dropped as stale
   and those still queued; and as many loans are out as were delivered and not freed.
   */
  lemma PacketsAreConserved(run: seq<InboxEvent>)
    ensures
      var s := Exec(EMPTY_INBOX, run);
      && multiset(ForGame(run)) == multiset(DeliveredOf(s.outcomes)) + multiset(DroppedOf(s.outcomes)) + multiset(s.queue)
      && PacketsOf(s.outcomes) <= ForGame(run)
      && |s.loans| + s.frees == |DeliveredOf(s.outcomes)|
  {
    RunsBalance(run);
    OutcomesPartition(Exec(EMPTY_INBOX, run).outcomes);
  }

  // ----- Which loans are out -----

  predicate WasDelivered(s: Inbox, k: nat) {
    k < |s.outcomes| && s.outcomes[k].Delivered?
  }

  /** The loans the game has given back in a run, each after it was handed out. */
  function Returned(run: seq<InboxEvent>): set<nat> {
    if run == [] then {}
    else
      var e := run[|run| - 1];
      Returned(run[..|run| - 1])
      + if e.GameFrees? && e.loan.Some? && WasDelivered(Exec(EMPTY_INBOX, run[..|run| - 1]), e.loan.value)
        then {e.loan.value} else {}
  }

  /** A call delivers one packet at most, the one it lends, and what came before stays as it was. */
  lemma {:induction false} ReceiveDelivers(s: Inbox, clock: nat -> nat, k: nat)
    ensures
      var (after, loan) := Receive(s, clock, k);
      && after.frees == s.frees
      && (forall j: nat :: WasDelivered(after, j) <==> WasDelivered(s, j) || loan == Some(j))
      && (loan.Some? ==> loan.value >= |s.outcomes| && after.loans == s.loans[loan.value := after.outcomes[loan.value].packet])
      && (loan.None? ==> after.loans == s.loans)
      && s.outcomes <= after.outcomes
    decreases |s.queue|
  {
    if s.queue == [] || !Stale(s.queue[0], clock(k)) {
    } else {
      ReceiveDelivers(Drop(s, clock(k)), clock, k + 1);
    }
  }

  ghost predicate LoansAre(s: Inbox, returned: set<nat>) {
    && (forall k :: k in returned ==> WasDelivered(s, k))
    && (forall k :: k in s.loans <==> WasDelivered(s, k) && k !in returned)
    && (forall k :: k in s.loans ==> s.loans[k] == s.outcomes[k].packet)
    && s.frees == |returned|
  }

  lemma ReceiveKeepsLoans(s: Inbox, clock: nat -> nat, returned: set<nat>)
    requires LoansAre(s, returned)
    ensures LoansAre(Receive(s, clock, 0).0, returned)
  {
    ReceiveDelivers(s, clock, 0);
  }

  lemma FreeKeepsLoans(s: Inbox, loan: Option<nat>, returned: set<nat>)
    requires LoansAre(s, returned)
    ensures LoansAre(Free(s, loan), returned + if loan.Some? && WasDelivered(s, loan.value) then {loan.value} else {})
  {
    if loan.Some? && WasDelivered(s, loan.value) {
      if loan.value in returned {
        assert returned + {loan.value} == returned;
      } else {
        assert |returned + {loan.value}| == |returned| + 1;
      }
    } else {
      assert returned + {} == returned;
    }
  }

  /** In every run the loans that are out are exactly the packets delivered and not given back since. */
  lemma {:induction false} LoansAreExact(run: seq<InboxEvent>)
    ensures LoansAre(Exec(EMPTY_INBOX, run), Returned(run))
  {
    if run == [] {
    } else {
      var before, e := Exec(EMPTY_INBOX, run[..|run| - 1]), run[|run| - 1];
      LoansAreExact(run[..|run| - 1]);
      match e
      case PacketArrives(_) =>
      case GameReceives(clock) => ReceiveKeepsLoans(before, clock, Returned(run[..|run| - 1]));
      case GameFrees(loan) => FreeKeepsLoans(before, loan, Returned(run[..|run| - 1]));
    }
  }

  // ----- The game reads until there is nothing left -----

  /**
   The packets handed out when the game calls until it gets nothing. The clock is read for each packet that leaves the
   queue, from its `k`-th reading on, and may show anything.
   */
  function ReceiveAll(s: Inbox, clock: nat -> nat, k: nat): (Inbox, seq<GamePacket>)
    decreases |s.queue|
  {
    var (after, loan) := Receive(s, clock, k);
    if loan.None? then (after, [])
    else
      var (end, rest) := ReceiveAll(after, clock, k + |s.queue| - |after.queue|);
      (end, [after.loans[loan.value]] + rest)
  }

  /** The packets that are not stale, each by its own reading. */
  function Fresh(packets: seq<GamePacket>, clock: nat -> nat, k: nat): seq<GamePacket> {
    if packets == [] then []
    else (if Stale(packets[0], clock(k)) then [] else [packets[0]]) + Fresh(packets[1..], clock, k + 1)
  }

  lemma {:induction false} ReceiveSkipsStale(s: Inbox, clock: nat -> nat, k: nat)
    ensures
      var (after, loan) := Receive(s, clock, k);
      && |after.queue| <= |s.queue|
      && (loan.None? ==> after.queue == [] && Fresh(s.queue, clock, k) == [])
      && (loan.Some? ==>
            Fresh(s.queue, clock, k)
               == [after.loans[loan.value]] + Fresh(after.queue, clock, k + |s.queue| - |after.queue|))
    decreases |s.queue|
  {
    if s.queue == [] || !Stale(s.queue[0], clock(k)) {
    } else {
      ReceiveSkipsStale(Drop(s, clock(k)), clock, k + 1);
    }
  }

  /**
   Reading on until nothing comes empties the queue and yields, in order, exactly the packets that are not stale at the
   reading taken for each.
   */
  lemma {:induction false} ReadingDrainsInOrder(s: Inbox, clock: nat -> nat, k: nat)
    ensures ReceiveAll(s, clock, k).0.queue == [] && ReceiveAll(s, clock, k).1 == Fresh(s.queue, clock, k)
    decreases |s.queue|
  {
    var (after, loan) := Receive(s, clock, k);
    ReceiveSkipsStale(s, clock, k);
    if loan.Some? {
      ReadingDrainsInOrder(after, clock, k + |s.queue| - |after.queue|);
    }
  }

  /** A call within such a sequence is a call with readings of its own. */
  lemma {:induction false} ReadingsAreOwn(s: Inbox, clock: nat -> nat, own: nat -> nat, k: nat, j: nat)
    requires forall i: nat :: i >= j ==> own(i) == clock(k + i)
    ensures Receive(s, clock, k + j) == Receive(s, own, j)
    decreases |s.queue|
  {
    if s.queue == [] || !Stale(s.queue[0], own(j)) {
    } else {
      ReadingsAreOwn(Drop(s, own(j)), clock, own, k, j + 1);
    }
  }

  // ----- The object -----

  /** The heap object a loan points into. */
  class Loan {
    const packet: GamePacket
    ghost const number: nat

    constructor (packet: GamePacket, ghost number: nat)
      ensures this.packet == packet && this.number == number
    {
      this.packet := packet;
      this.number := number;
    }
  }

  class PacketQueue {
    var queue: seq<GamePacket>
    ghost var outstanding: map<nat, Loan>
    ghost var received: seq<GamePacket>
    ghost var outcomes: seq<Outcome>
    ghost var frees: nat

    constructor ()
      ensures State() == EMPTY_INBOX
    {
      queue, outstanding, received, outcomes, frees := [], map[], [], [], 0;
    }

    ghost function State(): Inbox
      reads this
    {
      Inbox(queue, map k | k in outstanding :: outstanding[k].packet, received, outcomes, frees)
    }

    method Enqueue(packet: GamePacket)
      modifies this
      ensures State() == Arrive(old(State()), packet)
    {
      if packet.header.kind != CrownLink {
        queue := queue + [packet];
        received := received + [packet];
      }
    }

    /** Takes packets until one is not stale; that one is handed out as a new loan. */
    method SpiReceive(clock: nat -> nat) returns (loan: Loan?)
      modifies this
      ensures State() == Receive(old(State()), clock, 0).0
      ensures loan == null <==> Receive(old(State()), clock, 0).1.None?
      ensures loan != null ==> fresh(loan) && Receive(old(State()), clock, 0).1 == Some(loan.number)
                               && outstanding == old(outstanding)[loan.number := loan]
    {
      loan := null;
      var k := 0;
      while queue != []
        invariant Receive(State(), clock, k) == Receive(old(State()), clock, 0)
        invariant outstanding == old(outstanding) && loan == null
        decreases |queue|
      {
        var packet := queue[0];
        var now := clock(k);
        queue := queue[1..];
        if now > packet.timestamp + 2 {
          outcomes := outcomes + [Dropped(packet, now)];
          k := k + 1;
          continue;
        }
        loan := new Loan(packet, |outcomes|);
        outstanding := outstanding[|outcomes| := loan];
        outcomes := outcomes + [Delivered(packet, now)];
        return;
      }
    }

    /** The game gives a loan back. */
    method SpiFree(loan: Loan?)
      requires loan != null ==> loan.number in outstanding && outstanding[loan.number] == loan
      modifies this
      ensures State() == Free(old(State()), if loan == null then None else Some(loan.number))
    {
      if loan != null {
        outstanding := outstanding - {loan.number};
        frees := frees + 1;
      }
    }
  }
}
