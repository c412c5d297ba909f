/** Runs of a state machine, and what holds throughout them. */
module Runs {
  /** `ss` are the states that the events `es` lead through: one step leads from each state to the next. */
  ghost predicate Run<S, E>(step: (S, E) -> S, ss: seq<S>, es: seq<E>) {
    && |ss| == |es| + 1
    && forall k {:trigger es[k]} | 0 <= k < |es| :: ss[k + 1] == step(ss[k], es[k])
  }

  /** Every start state and every list of events has a run. */
  lemma {:induction false} EveryListRuns<S, E>(step: (S, E) -> S, s: S, es: seq<E>) returns (ss: seq<S>)
    ensures Run(step, ss, es) && ss[0] == s
  {
    if es == [] {
      return [s];
    }
    var last := |es| - 1;
    var before := EveryListRuns(step, s, es[..last]);
    ss := before + [step(before[last], es[last])];
    forall k {:trigger es[k]} | 0 <= k < |es| ensures ss[k + 1] == step(ss[k], es[k]) {
      if k < last {
        assert es[..last][k] == es[k];
      }
    }
  }

  /** `P` holds in every state of a run. */
  predicate Always<S>(P: S -> bool, ss: seq<S>) {
    forall k | 0 <= k < |ss| :: P(ss[k])
  }

  /** `Q` holds of one of the first n steps of a run. */
  predicate SomeStep<S, E>(Q: (S, E) -> bool, ss: seq<S>, es: seq<E>, n: nat)
    requires n <= |es| < |ss|
  {
    exists k {:trigger es[k]} | 0 <= k < n :: Q(ss[k], es[k])
  }

  /** If an event keeps `P`, wherever `P` holds, exactly when it is not `Bad`, then `P` holds throughout a
      run exactly when the run has no `Bad` step. */
  lemma KeptIffNoBadStep<S, E>(step: (S, E) -> S, P: S -> bool, Bad: (S, E) -> bool, ss: seq<S>, es: seq<E>)
    requires Run(step, ss, es) && P(ss[0])
    requires forall k | 0 <= k < |es| :: KeepsUnlessBad(step, P, Bad, ss[k], es[k])
    ensures Always(P, ss) <==> !SomeStep(Bad, ss, es, |es|)
  {
    if Always(P, ss) {
      forall k | 0 <= k < |es| ensures !Bad(ss[k], es[k]) {
        assert KeepsUnlessBad(step, P, Bad, ss[k], es[k]);
        assert P(ss[k]) && P(ss[k + 1]);
      }
    } else {
      var k := FirstLoss(P, ss, |es|);
      assert KeepsUnlessBad(step, P, Bad, ss[k], es[k]);
    }
  }

  predicate KeepsUnlessBad<S, E>(step: (S, E) -> S, P: S -> bool, Bad: (S, E) -> bool, s: S, e: E) {
    P(s) ==> (P(step(s, e)) <==> !Bad(s, e))
  }

  /** Where `P` is lost, it is lost from one state to the next. */
  lemma {:induction false} FirstLoss<S>(P: S -> bool, ss: seq<S>, n: nat) returns (k: nat)
    requires n < |ss| && P(ss[0])
    requires exists i | 0 <= i <= n :: !P(ss[i])
    ensures k < n && P(ss[k]) && !P(ss[k + 1])
  {
    if n > 0 && P(ss[n - 1]) && !P(ss[n]) {
      return n - 1;
    }
    k := FirstLoss(P, ss, n - 1);
  }

  /** The state that some events lead to. */
  function After<S, E>(step: (S, E) -> S, s: S, es: seq<E>): S {
    if es == [] then s else step(After(step, s, es[..|es| - 1]), es[|es| - 1])
  }

  lemma {:induction false} AfterConcat<S, E>(step: (S, E) -> S, s: S, es: seq<E>, es': seq<E>)
    ensures After(step, s, es + es') == After(step, After(step, s, es), es')
  {
    if es' == [] {
      assert es + es' == es;
    } else {
      AfterConcat(step, s, es, es'[..|es'| - 1]);
      assert (es + es')[..|es + es'| - 1] == es + es'[..|es'| - 1];
    }
  }

  lemma AfterOne<S, E>(step: (S, E) -> S, s: S, e: E)
    ensures After(step, s, [e]) == step(s, e)
  {
    assert [e][..0] == [];
  }

  /** It is the last state of their run. */
  lemma {:induction false} RunEndsAfter<S, E>(step: (S, E) -> S, ss: seq<S>, es: seq<E>)
    requires Run(step, ss, es)
    ensures ss[|es|] == After(step, ss[0], es)
  {
    if es != [] {
      var n := |es| - 1;
      assert forall k | 0 <= k < n :: es[..n][k] == es[k];
      RunEndsAfter(step, ss[..n + 1], es[..n]);
    }
  }
}
