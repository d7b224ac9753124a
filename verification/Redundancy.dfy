/** How many resend requests it takes before packets are sent twice, and how many clean packets end it. */
module Redundancy {
  import opened Basics
  import opened Ema
  import opened Packets
  import opened PairState
  import opened PairProperties

  // ----- Powers of the decay -----

  /** What a resend request leaves of the quality, and a clean packet of its distance from one. */
  function Decay(x: real): real {
    49.0 * x / 51.0
  }

  function Power(n: nat): real {
    if n == 0 then 1.0 else Decay(Power(n - 1))
  }

  lemma {:induction false} PowerBounds(n: nat)
    ensures 0.0 < Power(n) <= 1.0
  {
    if n == 0 {
    } else {
      PowerBounds(n - 1);
    }
  }

  lemma {:induction false} PowerFalls(m: nat, n: nat)
    requires m <= n
    ensures Power(n) <= Power(m)
  {
    if m == n {
    } else {
      PowerFalls(m, n - 1);
      PowerBounds(n - 1);
    }
  }

  lemma DecayTimes(x: real, y: real)
    ensures Decay(x * y) == Decay(x) * y
  {
    assert Decay(x) * y == 49.0 / 51.0 * (x * y);
  }

  lemma {:induction false} PowerSum(m: nat, n: nat)
    ensures Power(m + n) == Power(m) * Power(n)
  {
    if m == 0 {
    } else {
      PowerSum(m - 1, n);
      DecayTimes(Power(m - 1), Power(n));
      assert Power(m + n) == Decay(Power(m - 1 + n));
    }
  }

  lemma PowerDoubles(n: nat, lo: real, hi: real)
    requires 0.0 < lo < Power(n) < hi
    ensures lo * lo < Power(n + n) < hi * hi
  {
    PowerSum(n, n);
    var x := Power(n);
    assert lo * lo < lo * x && lo * x < x * x && x * x < x * hi && x * hi < hi * hi;
  }

  lemma PowerOfFive()
    ensures 0.81868 < Power(5) < 0.81873 && Power(6) < 0.8
  {
    assert Power(1) == 49.0 / 51.0;
    assert Power(2) == Decay(Power(1)) && Power(3) == Decay(Power(2));
    assert Power(4) == Decay(Power(3)) && Power(5) == Decay(Power(4)) && Power(6) == Decay(Power(5));
  }

  lemma PowerOfForty()
    ensures 0.2 < Power(40) < 0.204
  {
    PowerOfFive();
    PowerDoubles(5, 0.81868, 0.81873);
    PowerDoubles(10, 0.67, 0.6704);
    PowerDoubles(20, 0.4489, 0.4495);
  }

  /** Five decays leave more than the threshold, six do not; forty leave more than a fifth, forty-one do not. */
  lemma PowerMilestones()
    ensures Power(5) > DUPLICATE_SEND_THRESHOLD > Power(6)
    ensures Power(40) > 1.0 - DUPLICATE_SEND_THRESHOLD > Power(41)
  {
    PowerOfFive();
    PowerOfForty();
    assert Power(41) == Decay(Power(40));
  }

  // ----- The average -----

  /** The quality of a pair: an average over fifty samples of zero or one, started at one. */
  predicate IsQuality(q: Average) {
    q.initialized && q.alpha == 2.0 / 51.0 && 0.0 <= q.value <= 1.0
  }

  function OneQuality(q: real, resend: bool): real {
    if resend then Decay(q) else 1.0 - Decay(1.0 - q)
  }

  function QualityAfter(q: real, resends: seq<bool>): real {
    if resends == [] then q else OneQuality(QualityAfter(q, resends[..|resends| - 1]), resends[|resends| - 1])
  }

  function Sample(resend: bool): real {
    if resend then 0.0 else 1.0
  }

  function Samples(resends: seq<bool>): seq<real> {
    if resends == [] then [] else Samples(resends[..|resends| - 1]) + [Sample(resends[|resends| - 1])]
  }

  lemma OneSample(q: Average, resend: bool)
    requires IsQuality(q)
    ensures IsQuality(q.Update(Sample(resend))) && q.Update(Sample(resend)).value == OneQuality(q.value, resend)
  {
  }

  /** The average over fifty samples, step by step in exact arithmetic. */
  lemma {:induction false} AverageIsQuality(q: Average, resends: seq<bool>)
    requires IsQuality(q)
    ensures IsQuality(q.UpdateAll(Samples(resends)))
    ensures q.UpdateAll(Samples(resends)).value == QualityAfter(q.value, resends)
  {
    if resends == [] {
    } else {
      var front := resends[..|resends| - 1];
      var last := resends[|resends| - 1];
      AverageIsQuality(q, front);
      UpdateAllAppend(q, Samples(front), Sample(last));
      OneSample(q.UpdateAll(Samples(front)), last);
    }
  }

  function Repeated(b: bool, n: nat): (r: seq<bool>)
    ensures |r| == n
  {
    seq(n, _ => b)
  }

  function CountTrue(bs: seq<bool>): nat {
    if bs == [] then 0 else CountTrue(bs[..|bs| - 1]) + if bs[|bs| - 1] then 1 else 0
  }

  /** With `m` resend requests among the packets, in whatever order, the quality is at least the m-th power. */
  lemma {:induction false} QualityAfterResends(resends: seq<bool>)
    ensures Power(CountTrue(resends)) <= QualityAfter(1.0, resends) <= 1.0
  {
    if resends == [] {
    } else {
      QualityAfterResends(resends[..|resends| - 1]);
    }
  }

  /** After `n` clean packets in a row the distance from one has decayed `n` times, exactly. */
  lemma {:induction false} QualityAfterClean(q: real, n: nat)
    ensures 1.0 - QualityAfter(q, Repeated(false, n)) == Power(n) * (1.0 - q)
  {
    if n == 0 {
    } else {
      assert Repeated(false, n)[..n - 1] == Repeated(false, n - 1);
      QualityAfterClean(q, n - 1);
      DecayTimes(Power(n - 1), 1.0 - q);
    }
  }

  lemma {:induction false} QualityAfterBurst(n: nat)
    ensures QualityAfter(1.0, Repeated(true, n)) == Power(n)
  {
    if n == 0 {
    } else {
      assert Repeated(true, n)[..n - 1] == Repeated(true, n - 1);
      QualityAfterBurst(n - 1);
    }
  }

  // ----- Whole runs of a pair -----

  /** A packet for the game arrives at an agent that exists. */
  predicate Judged(p: Pair, e: PairEvent) {
    e.PacketArrives? && e.packet.header.kind != CrownLink && p.At(e.path).Some?
  }

  /** The resend flags of the packets for the game that arrive in a run. */
  function Resends(p: Pair, run: seq<PairEvent>): seq<bool> {
    if run == [] then []
    else
      var e := run[|run| - 1];
      Resends(p, run[..|run| - 1])
      + if Judged(Exec(p, run[..|run| - 1]), e) then [e.packet.header.resendRequest] else []
  }

  lemma SendKeepsQuality(p: Pair, data: seq<byte>, env: Env)
    ensures SendP2P(p, data, env).pair.quality == p.quality
  {
    var q := Routed(p, env.now);
    RoutedAlike(p, env.now, data);
    forall r: Pair, path ensures r.Transmit(path, data).quality == r.quality {
      TransmitKeepsCounts(r, path, data);
    }
    assert SendRedundant(CountRedundant(q), data, env).pair.quality == q.quality;
    assert SendBest(q, data, env).pair.quality == q.quality;
  }

  lemma PacketMovesQuality(p: Pair, e: PairEvent)
    requires Judged(p, e)
    ensures Next(p, e).quality == p.quality.Update(Sample(e.packet.header.resendRequest))
  {
  }

  lemma OthersKeepQuality(p: Pair, e: PairEvent)
    requires !Judged(p, e)
    ensures Next(p, e).quality == p.quality
  {
    if e.GameSends? { SendKeepsQuality(p, e.data, e.env); }
  }

  /** Nothing but arriving packets moves the quality. */
  lemma {:induction false} QualityFollowsPackets(p: Pair, run: seq<PairEvent>)
    ensures Exec(p, run).quality == p.quality.UpdateAll(Samples(Resends(p, run)))
  {
    if run == [] {
    } else {
      var front := run[..|run| - 1];
      var e := run[|run| - 1];
      QualityFollowsPackets(p, front);
      assert Exec(p, run) == Next(Exec(p, front), e);
      if Judged(Exec(p, front), e) {
        PacketMovesQuality(Exec(p, front), e);
        assert Resends(p, run)[..|Resends(p, run)| - 1] == Resends(p, front);
        UpdateAllAppend(p.quality, Samples(Resends(p, front)), Sample(e.packet.header.resendRequest));
      } else {
        assert Resends(p, run) == Resends(p, front);
        OthersKeepQuality(Exec(p, front), e);
      }
    }
  }

  /** No packet is sent twice before six resend requests have arrived. */
  lemma SixResendsToDuplicate(controlling: bool, t1: nat, t2: nat, run: seq<PairEvent>)
    ensures
      var start := FreshPair(controlling, t1, t2);
      var p := Exec(start, run);
      && IsQuality(p.quality) && p.quality.value >= Power(CountTrue(Resends(start, run)))
      && (ShouldSendRedundant(p) ==> CountTrue(Resends(start, run)) >= 6)
  {
    var start := FreshPair(controlling, t1, t2);
    QualityFollowsPackets(start, run);
    AverageIsQuality(start.quality, Resends(start, run));
    QualityAfterResends(Resends(start, run));
    if CountTrue(Resends(start, run)) <= 5 {
      PowerFalls(CountTrue(Resends(start, run)), 5);
      PowerMilestones();
    }
  }

  lemma AtMost(x: real, y: real)
    requires 0.0 <= x && 0.0 <= y <= 1.0
    ensures x * y <= x
  {
  }

  lemma CleanPacketsRestore(q: real, n: nat)
    requires 0.0 <= q <= 1.0 && n >= 41
    ensures QualityAfter(q, Repeated(false, n)) > DUPLICATE_SEND_THRESHOLD
  {
    QualityAfterClean(q, n);
    PowerMilestones();
    PowerFalls(41, n);
    PowerBounds(n);
    AtMost(Power(n), 1.0 - q);
  }

  /** Once forty-one clean packets or more have arrived in a row, nothing is sent twice. */
  lemma FortyOneCleanPacketsSuffice(p: Pair, run: seq<PairEvent>, n: nat)
    requires IsQuality(p.quality) && n >= 41 && Resends(p, run) == Repeated(false, n)
    ensures Exec(p, run).quality.value > DUPLICATE_SEND_THRESHOLD && !ShouldSendRedundant(Exec(p, run))
  {
    QualityFollowsPackets(p, run);
    AverageIsQuality(p.quality, Resends(p, run));
    CleanPacketsRestore(p.quality.value, n);
  }

  /** Both numbers are sharp: six resend requests can be enough, and forty clean packets too few. */
  lemma MilestonesAreSharp()
    ensures QualityAfter(1.0, Repeated(true, 6)) < DUPLICATE_SEND_THRESHOLD
    ensures QualityAfter(0.0, Repeated(false, 40)) < DUPLICATE_SEND_THRESHOLD
  {
    PowerMilestones();
    QualityAfterBurst(6);
    QualityAfterClean(0.0, 40);
  }
}
