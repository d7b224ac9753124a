/**
 Filling a fixed-size container from a stream socket.  What the socket does at each poll is given by a script: data
 may come in pieces of any size, with empty polls and failures anywhere.
 */
module SocketRead {
  import opened Basics

  const ALLOWED_TIMEOUTS := 10
  const WSAETIMEDOUT := 10060

  type ErrorCode = e: int | e != 0 witness 1

  /** What one poll leads to. An orderly close reports whatever the last error was. */
  datatype Poll =
    | PollFailed(error: ErrorCode)
    | NoData
    | Closed(lastError: int)
    | ReceiveFailed(error: ErrorCode)
    | Data(more: nat)
  {
    /** How many bytes the stream has ready, at least one. */
    function Ready(): nat {
      if Data? then more + 1 else 0
    }

    predicate Fails() {
      PollFailed? || Closed? || ReceiveFailed?
    }
  }

  // ----- What a script offers -----

  /** The bytes ready in the first `k` polls. */
  function Offered(script: nat -> Poll, k: nat): nat {
    if k == 0 then 0 else Offered(script, k - 1) + script(k - 1).Ready()
  }

  function EmptyPolls(script: nat -> Poll, k: nat): nat {
    if k == 0 then 0 else EmptyPolls(script, k - 1) + if script(k - 1).NoData? then 1 else 0
  }

  /** In the first `k` polls there are `n` bytes, no failure and no more than ten empty polls. */
  predicate CompletesAt(script: nat -> Poll, n: nat, k: nat) {
    && Offered(script, k) >= n
    && EmptyPolls(script, k) <= ALLOWED_TIMEOUTS
    && forall i :: 0 <= i < k ==> !script(i).Fails()
  }

  ghost predicate Completes(script: nat -> Poll, n: nat) {
    exists k: nat :: CompletesAt(script, n, k)
  }

  lemma {:induction false} Monotone(script: nat -> Poll, j: nat, k: nat)
    requires j <= k
    ensures Offered(script, j) <= Offered(script, k) && EmptyPolls(script, j) <= EmptyPolls(script, k)
  {
    if j == k {
    } else {
      Monotone(script, j, k - 1);
    }
  }

  /** A read that has not got its bytes when it gives up would not have got them later either. */
  lemma NeverCompletes(script: nat -> Poll, n: nat, i: nat)
    requires Offered(script, i) < n
    requires script(i).Fails() || (script(i).NoData? && EmptyPolls(script, i) >= ALLOWED_TIMEOUTS)
    ensures !Completes(script, n)
  {
    forall k: nat ensures !CompletesAt(script, n, k) {
      if k <= i { Monotone(script, k, i); } else { Monotone(script, i + 1, k); }
    }
  }

  // ----- The read -----

  /** The two results of the function, and how much of the stream it has taken. */
  datatype ReadResult = ReadResult(bytes: int, error: int, taken: nat)
  {
    /** The caller's test: some bytes and no error. */
    predicate Succeeded() {
      bytes != 0 && error == 0
    }
  }

  /** The read ended at a poll that failed, or at the eleventh that was empty, and reports why. */
  ghost predicate GaveUp(script: nat -> Poll, r: ReadResult, polls: nat) {
    && r.taken == Offered(script, polls)
    && (forall i :: 0 <= i < polls ==> !script(i).Fails())
    && EmptyPolls(script, polls) <= ALLOWED_TIMEOUTS
    && match script(polls)
       case PollFailed(error) => r.error == error
       case NoData => EmptyPolls(script, polls) == ALLOWED_TIMEOUTS && r.error == WSAETIMEDOUT
       case Closed(lastError) => r.bytes == 0 && r.error == lastError
       case ReceiveFailed(error) => r.bytes == -1 && r.error == error
       case Data(_) => false
  }

  method ReceiveInto(container: array<byte>, script: nat -> Poll, stream: nat -> byte) returns (r: ReadResult)
    requires container.Length > 0
    modifies container
    ensures r.Succeeded() <==> Completes(script, container.Length)
    ensures r.taken <= container.Length && (r.Succeeded() ==> r.taken == container.Length)
    ensures !r.Succeeded() ==> exists polls :: GaveUp(script, r, polls)
    ensures forall j :: 0 <= j < r.taken ==> container[j] == stream(j)
    ensures forall j :: r.taken <= j < container.Length ==> container[j] == old(container[j])
  {
    var remaining := container.Length;
    var offset := 0;
    var bytesReceived := 0;
    var allowedTimeouts := ALLOWED_TIMEOUTS;
    var polls := 0;
    while remaining > 0
      invariant offset + remaining == container.Length && 0 <= offset && 0 <= remaining && 0 <= allowedTimeouts
      invariant remaining > 0 ==> offset == Offered(script, polls)
      invariant remaining == 0 ==> CompletesAt(script, container.Length, polls) && bytesReceived > 0
      invariant allowedTimeouts == ALLOWED_TIMEOUTS - EmptyPolls(script, polls)
      invariant forall i :: 0 <= i < polls ==> !script(i).Fails()
      invariant forall j :: 0 <= j < offset ==> container[j] == stream(j)
      invariant forall j :: offset <= j < container.Length ==> container[j] == old(container[j])
      decreases remaining + allowedTimeouts
    {
      match script(polls) {
        case PollFailed(error) =>
          NeverCompletes(script, container.Length, polls);
          assert GaveUp(script, ReadResult(bytesReceived, error, offset), polls);
          return ReadResult(bytesReceived, error, offset);
        case NoData =>
          if allowedTimeouts == 0 {
            NeverCompletes(script, container.Length, polls);
            assert GaveUp(script, ReadResult(bytesReceived, WSAETIMEDOUT, offset), polls);
            return ReadResult(bytesReceived, WSAETIMEDOUT, offset);
          }
          allowedTimeouts := allowedTimeouts - 1;
        case Closed(lastError) =>
          NeverCompletes(script, container.Length, polls);
          assert GaveUp(script, ReadResult(0, lastError, offset), polls);
          return ReadResult(0, lastError, offset);
        case ReceiveFailed(error) =>
          NeverCompletes(script, container.Length, polls);
          assert GaveUp(script, ReadResult(-1, error, offset), polls);
          return ReadResult(-1, error, offset);
        case Data(_) =>
          bytesReceived := if script(polls).Ready() < remaining then script(polls).Ready() else remaining;
          forall j | offset <= j < offset + bytesReceived {
            container[j] := stream(j);
          }
          remaining := remaining - bytesReceived;
          offset := offset + bytesReceived;
      }
      polls := polls + 1;
    }
    r := ReadResult(bytesReceived, 0, offset);
  }

  // ----- What the result does not depend on -----

  /** The `n`-th byte is ready after `k` polls and not before. */
  predicate ReadyAt(script: nat -> Poll, n: nat, k: nat) {
    Offered(script, k) >= n && (k > 0 ==> Offered(script, k - 1) < n)
  }

  predicate FailsBefore(script: nat -> Poll, k: nat) {
    exists i :: 0 <= i < k && script(i).Fails()
  }

  /** A read succeeds exactly if nothing fails and at most ten polls are empty by the time its last byte is ready. */
  lemma LastByteDecides(script: nat -> Poll, n: nat, k: nat)
    requires ReadyAt(script, n, k)
    ensures Completes(script, n) <==> !FailsBefore(script, k) && EmptyPolls(script, k) <= ALLOWED_TIMEOUTS
  {
    if Completes(script, n) {
      var j: nat :| CompletesAt(script, n, j);
      if j < k { Monotone(script, j, k - 1); }
      Monotone(script, k, j);
    }
    if !FailsBefore(script, k) && EmptyPolls(script, k) <= ALLOWED_TIMEOUTS {
      assert CompletesAt(script, n, k);
    }
  }

  /** However the stream is cut and wherever the empty polls fall, only their number before the last byte counts. */
  lemma OnlyEmptyPollsCount(a: nat -> Poll, b: nat -> Poll, n: nat, i: nat, j: nat)
    requires ReadyAt(a, n, i) && ReadyAt(b, n, j)
    requires FailsBefore(a, i) == FailsBefore(b, j) && EmptyPolls(a, i) == EmptyPolls(b, j)
    ensures Completes(a, n) <==> Completes(b, n)
  {
    LastByteDecides(a, n, i);
    LastByteDecides(b, n, j);
  }

  /** `b` is `a` with one piece of data delivered in two. */
  ghost predicate SplitsAt(a: nat -> Poll, b: nat -> Poll, i: nat) {
    && a(i).Data? && b(i).Data? && b(i + 1).Data?
    && a(i).Ready() == b(i).Ready() + b(i + 1).Ready()
    && (forall j: nat :: j < i ==> b(j) == a(j))
    && (forall j: nat :: j > i ==> b(j + 1) == a(j))
  }

  lemma {:induction false} SplitOffers(a: nat -> Poll, b: nat -> Poll, i: nat, k: nat)
    requires SplitsAt(a, b, i)
    ensures k <= i ==> Offered(b, k) == Offered(a, k) && EmptyPolls(b, k) == EmptyPolls(a, k)
    ensures k > i ==> Offered(b, k + 1) == Offered(a, k) && EmptyPolls(b, k + 1) == EmptyPolls(a, k)
  {
    if k == 0 {
    } else {
      SplitOffers(a, b, i, k - 1);
    }
  }

  /** Cutting the data into smaller pieces, or joining pieces, does not change whether a read succeeds. */
  lemma ChunkingIsIrrelevant(a: nat -> Poll, b: nat -> Poll, i: nat, n: nat)
    requires SplitsAt(a, b, i)
    ensures Completes(a, n) <==> Completes(b, n)
  {
    if Completes(a, n) {
      var k: nat :| CompletesAt(a, n, k);
      SplitOffers(a, b, i, k);
      if k <= i {
        assert CompletesAt(b, n, k);
      } else {
        forall j | 0 <= j < k + 1 ensures !b(j).Fails() {
          assert j > i + 1 ==> b(j) == a(j - 1);
        }
        assert CompletesAt(b, n, k + 1);
      }
    }
    if Completes(b, n) {
      var k: nat :| CompletesAt(b, n, k);
      if k <= i {
        SplitOffers(a, b, i, k);
        assert CompletesAt(a, n, k);
      } else {
        var whole := if k == i + 1 then i + 1 else k - 1;
        SplitOffers(a, b, i, whole);
        Monotone(b, k, whole + 1);
        forall j | 0 <= j < whole ensures !a(j).Fails() {
          assert j > i ==> a(j) == b(j + 1);
        }
        assert CompletesAt(a, n, whole);
      }
    }
  }

  /** `b` is `a` with one more empty poll. */
  ghost predicate DelaysAt(a: nat -> Poll, b: nat -> Poll, i: nat) {
    && b(i).NoData?
    && (forall j: nat :: j < i ==> b(j) == a(j))
    && (forall j: nat :: j >= i ==> b(j + 1) == a(j))
  }

  lemma {:induction false} DelayOffers(a: nat -> Poll, b: nat -> Poll, i: nat, k: nat)
    requires DelaysAt(a, b, i)
    ensures k <= i ==> Offered(b, k) == Offered(a, k) && EmptyPolls(b, k) == EmptyPolls(a, k)
    ensures k >= i ==> Offered(b, k + 1) == Offered(a, k) && EmptyPolls(b, k + 1) == EmptyPolls(a, k) + 1
  {
    if k == 0 {
    } else {
      DelayOffers(a, b, i, k - 1);
    }
  }

  /** An empty poll anywhere costs nothing as long as there are no more than ten before the last byte. */
  lemma DelayIsTolerated(a: nat -> Poll, b: nat -> Poll, i: nat, n: nat, k: nat)
    requires DelaysAt(a, b, i) && CompletesAt(a, n, k) && EmptyPolls(a, k) < ALLOWED_TIMEOUTS
    ensures Completes(b, n)
  {
    DelayOffers(a, b, i, k);
    if k < i {
      assert CompletesAt(b, n, k);
    } else {
      forall j: nat | j < k + 1 ensures !b(j).Fails() {
        DelayedPoll(a, b, i, j);
      }
      assert CompletesAt(b, n, k + 1);
    }
  }

  lemma DelayedPoll(a: nat -> Poll, b: nat -> Poll, i: nat, j: nat)
    requires DelaysAt(a, b, i)
    ensures b(j) == if j < i then a(j) else if j == i then NoData else a(j - 1)
  {
    if j > i { assert b(j - 1 + 1) == a(j - 1); }
  }

  lemma {:induction false} PollsCount(script: nat -> Poll, k: nat)
    ensures Offered(script, k) + EmptyPolls(script, k) >= k || exists i :: 0 <= i < k && script(i).Fails()
  {
    if k == 0 {
    } else {
      PollsCount(script, k - 1);
    }
  }

  /** A read of `n` bytes is decided after `n` and eleven polls at most. */
  lemma ReadIsDecided(script: nat -> Poll, n: nat)
    ensures
      var k := n + ALLOWED_TIMEOUTS + 1;
      || Offered(script, k) >= n
      || EmptyPolls(script, k) > ALLOWED_TIMEOUTS
      || exists i :: 0 <= i < k && script(i).Fails()
  {
    PollsCount(script, n + ALLOWED_TIMEOUTS + 1);
  }
}
