/** Finite sums over sequences of integers, used to count CPUs and semaphore tokens. */
module Sums {

  function Sum(xs: seq<int>): int {
    if |xs| == 0 then 0 else xs[0] + Sum(xs[1..])
  }

  lemma {:induction false} SumUpdate(xs: seq<int>, i: nat, v: int)
    requires i < |xs|
    ensures Sum(xs[i := v]) == Sum(xs) - xs[i] + v
  {
    if i == 0 {
      assert xs[i := v][1..] == xs[1..];
    } else {
      SumUpdate(xs[1..], i - 1, v);
      assert xs[i := v][1..] == xs[1..][i - 1 := v];
    }
  }

  lemma {:induction false} SumMonotone(xs: seq<int>, ys: seq<int>)
    requires |xs| == |ys|
    requires forall i :: 0 <= i < |xs| ==> xs[i] <= ys[i]
    ensures Sum(xs) <= Sum(ys)
    ensures Sum(xs) == Sum(ys) ==> xs == ys
  {
    if |xs| > 0 {
      SumMonotone(xs[1..], ys[1..]);
      if Sum(xs) == Sum(ys) {
        assert xs == [xs[0]] + xs[1..];
        assert ys == [ys[0]] + ys[1..];
      }
    }
  }

  lemma {:induction false} SumZero(xs: seq<int>)
    requires forall i :: 0 <= i < |xs| ==> xs[i] == 0
    ensures Sum(xs) == 0
  {
    if |xs| > 0 {
      SumZero(xs[1..]);
    }
  }

  /** A sum that falls short of a pointwise bound leaves some index short of it. */
  lemma SumShortfall(xs: seq<int>, ys: seq<int>) returns (i: nat)
    requires |xs| == |ys|
    requires Sum(xs) < Sum(ys)
    ensures i < |xs| && xs[i] < ys[i]
  {
    if forall k :: 0 <= k < |xs| ==> ys[k] <= xs[k] {
      SumMonotone(ys, xs);
      assert false;
    }
    i :| 0 <= i < |xs| && xs[i] < ys[i];
  }

  lemma {:induction false} SumBounds(xs: seq<int>, lo: int, hi: int)
    requires lo <= 0 <= hi
    requires forall i :: 0 <= i < |xs| ==> lo <= xs[i] <= hi
    ensures lo * |xs| <= Sum(xs) <= hi * |xs|
  {
    if |xs| > 0 {
      SumBounds(xs[1..], lo, hi);
      assert hi * |xs| == hi * (|xs| - 1) + hi;
      assert lo * |xs| == lo * (|xs| - 1) + lo;
    }
  }
}
