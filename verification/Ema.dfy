/** The exponential moving average, in exact arithmetic. */
module Ema {
  import opened Basics

  datatype Average = Average(value: real, initialized: bool, alpha: real)
  {
    function Update(x: real): Average {
      if !initialized then this.(value := x, initialized := true)
      else this.(value := value + alpha * (x - value))
    }

    function UpdateAll(xs: seq<real>): Average {
      if xs == [] then this else UpdateAll(xs[..|xs| - 1]).Update(xs[|xs| - 1])
    }
  }

  /** An average over about `n` samples. */
  function Initial(n: int, initial: Option<real>): Average
    requires n != -1
  {
    var alpha := 2.0 / (n + 1) as real;
    match initial
    case None => Average(0.0, false, alpha)
    case Some(v) => Average(v, true, alpha)
  }

  lemma UpdateAllAppend(q: Average, xs: seq<real>, x: real)
    ensures q.UpdateAll(xs + [x]) == q.UpdateAll(xs).Update(x)
  {
    assert (xs + [x])[..|xs|] == xs;
  }

  class EMA {
    var average: real
    var initialized: bool
    const alpha: real

    function State(): Average
      reads this
    {
      Average(average, initialized, alpha)
    }

    constructor (n: int, initial: Option<real>)
      requires n != -1
      ensures State() == Initial(n, initial)
    {
      alpha := 2.0 / (n + 1) as real;
      average, initialized := 0.0, false;
      if initial.Some? {
        average, initialized := initial.value, true;
      }
    }

    method Update(x: real) returns (r: real)
      modifies this
      ensures State() == old(State()).Update(x) && r == average
    {
      if !initialized {
        average := x;
        initialized := true;
      } else {
        average := average + alpha * (x - average);
      }
      r := average;
    }
  }

  // ----- The average stays among its samples -----

  lemma NonNegative(p: real, q: real)
    requires p >= 0.0 && q >= 0.0
    ensures p * q >= 0.0
  {
  }

  lemma Between(v: real, x: real, alpha: real, lo: real, hi: real)
    requires 0.0 <= alpha <= 1.0 && lo <= v <= hi && lo <= x <= hi
    ensures lo <= v + alpha * (x - v) <= hi
  {
    NonNegative(1.0 - alpha, v - lo);
    NonNegative(alpha, x - lo);
    NonNegative(1.0 - alpha, hi - v);
    NonNegative(alpha, hi - x);
  }

  /** After any samples from `lo` to `hi`, the average is there too. */
  lemma {:induction false} StaysInHull(a: Average, xs: seq<real>, lo: real, hi: real)
    requires 0.0 <= a.alpha <= 1.0
    requires a.initialized ==> lo <= a.value <= hi
    requires forall i :: 0 <= i < |xs| ==> lo <= xs[i] <= hi
    ensures a.UpdateAll(xs).alpha == a.alpha
    ensures a.UpdateAll(xs).initialized == (a.initialized || xs != [])
    ensures a.UpdateAll(xs).initialized ==> lo <= a.UpdateAll(xs).value <= hi
  {
    if xs == [] {
    } else {
      var before := a.UpdateAll(xs[..|xs| - 1]);
      StaysInHull(a, xs[..|xs| - 1], lo, hi);
      if before.initialized {
        Between(before.value, xs[|xs| - 1], a.alpha, lo, hi);
      }
    }
  }
}
