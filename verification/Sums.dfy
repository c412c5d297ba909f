/** Sums over sequences of naturals, as needed for counting and for termination measures. */
module Sums {
  function Sum(xs: seq<nat>): nat {
    if xs == [] then 0 else Sum(xs[..|xs| - 1]) + xs[|xs| - 1]
  }

  /** The sum of `f` over a sequence. */
  function SumOf<T>(f: T -> nat, ts: seq<T>): nat {
    Sum(seq(|ts|, i requires 0 <= i < |ts| => f(ts[i])))
  }

  lemma {:induction false} SumUpdate(xs: seq<nat>, i: nat, v: nat)
    requires i < |xs|
    ensures Sum(xs[i := v]) + xs[i] == Sum(xs) + v
  {
    var n := |xs| - 1;
    if i == n {
      assert xs[i := v][..n] == xs[..n];
    } else {
      assert xs[i := v][..n] == xs[..n][i := v];
      SumUpdate(xs[..n], i, v);
    }
  }

  lemma SumOfUpdate<T>(f: T -> nat, ts: seq<T>, i: nat, t: T)
    requires i < |ts|
    ensures SumOf(f, ts[i := t]) + f(ts[i]) == SumOf(f, ts) + f(t)
  {
    var xs := seq(|ts|, k requires 0 <= k < |ts| => f(ts[k]));
    var ys := seq(|ts[i := t]|, k requires 0 <= k < |ts[i := t]| => f(ts[i := t][k]));
    assert ys == xs[i := f(t)];
    SumUpdate(xs, i, f(t));
  }

  lemma SumOfAppend<T>(f: T -> nat, ts: seq<T>, t: T)
    ensures SumOf(f, ts + [t]) == SumOf(f, ts) + f(t)
  {
    var xs := seq(|ts|, k requires 0 <= k < |ts| => f(ts[k]));
    var ys := seq(|ts + [t]|, k requires 0 <= k < |ts + [t]| => f((ts + [t])[k]));
    assert ys == xs + [f(t)];
    assert ys[..|ys| - 1] == xs;
  }
}
