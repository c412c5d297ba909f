/**
 `throttle` of `utils.ts`: the closure variable, its timers, and what it executes over whole traces.

 A trace interleaves calls with timer callbacks. A timer never fires before its deadline. The wrapped
 function neither throws nor calls the throttled function again.
 */
module Throttle {
  datatype Event = Call(at: int) | Fire(at: int, timer: nat)

  /** `timers` holds the deadlines of the pending timeouts. */
  datatype State = State(inThrottle: bool, timers: seq<int>)

  const START: State := State(false, [])

  predicate Enabled(s: State, e: Event) {
    e.Fire? ==> e.timer < |s.timers| && s.timers[e.timer] <= e.at
  }

  function Step(limit: nat, s: State, e: Event): State {
    if !Enabled(s, e) then s
    else match e
    case Call(at) => if s.inThrottle then s else State(true, s.timers + [at + limit])
    case Fire(_, i) => State(false, s.timers[..i] + s.timers[i + 1..])
  }

  /** The code: the returned function, and the callback it gives to setTimeout. */
  class Throttled {
    const limit: nat
    var inThrottle: bool
    var timers: seq<int>

    function View(): State
      reads this
    {
      State(inThrottle, timers)
    }

    constructor (limit: nat)
      ensures this.limit == limit && View() == START
    {
      this.limit, inThrottle, timers := limit, false, [];
    }

    /** `runs` tells whether the wrapped function is called, with this call's arguments. */
    method Invoke(at: int) returns (runs: bool)
      modifies this
      ensures View() == Step(limit, old(View()), Call(at))
      ensures runs <==> !old(inThrottle)
      ensures inThrottle
    {
      runs := false;
      if !inThrottle {
        runs := true;
        inThrottle := true;
        timers := timers + [at + limit];
      }
    }

    method TimerFires(at: int, timer: nat)
      requires Enabled(View(), Fire(at, timer))
      modifies this
      ensures View() == Step(limit, old(View()), Fire(at, timer))
    {
      timers := timers[..timer] + timers[timer + 1..];
      inThrottle := false;
    }
  }

  // ---------------------------------------------------------------- traces

  /** The state after the first k events. */
  function At(limit: nat, es: seq<Event>, k: nat): State
    requires k <= |es|
  {
    if k == 0 then START else Step(limit, At(limit, es, k - 1), es[k - 1])
  }

  /** When the last of the first k events happened. */
  function Clock(es: seq<Event>, k: nat): int
    requires k <= |es|
  {
    if k == 0 then (if es == [] then 0 else es[0].at) else es[k - 1].at
  }

  /** The first k events can happen: time does not run back, and no timer fires early. */
  predicate Possible(limit: nat, es: seq<Event>, k: nat)
    requires k <= |es|
  {
    k == 0 || (&& Possible(limit, es, k - 1) && Enabled(At(limit, es, k - 1), es[k - 1])
               && Clock(es, k - 1) <= es[k - 1].at)
  }

  predicate Runs(limit: nat, es: seq<Event>, k: nat)
    requires k < |es|
  {
    es[k].Call? && !At(limit, es, k).inThrottle
  }

  /** The calls among the first k events that were executed, as positions in the trace. */
  function Executed(limit: nat, es: seq<Event>, k: nat): seq<nat>
    requires k <= |es|
  {
    if k == 0 then []
    else Executed(limit, es, k - 1) + (if Runs(limit, es, k - 1) then [k - 1] else [])
  }

  /** A choice of calls among the first k events, in order, pairwise at least `limit` apart. */
  predicate Selection(limit: nat, es: seq<Event>, k: nat, picks: seq<nat>)
    requires k <= |es|
  {
    && (forall i | 0 <= i < |picks| :: picks[i] < k && es[picks[i]].Call?)
    && (forall i, j | 0 <= i < j < |picks| :: picks[i] < picks[j] && es[picks[i]].at + limit <= es[picks[j]].at)
  }

  /** The flag is up exactly while one timer is pending, which is due `limit` after the last execution;
      when it is down, that much time has passed. `last` is the time of the last execution, if one `ran`. */
  predicate Tracks(limit: nat, s: State, ran: bool, last: int, now: int) {
    && (s.inThrottle ==> ran && s.timers == [last + limit])
    && (!s.inThrottle ==> s.timers == [] && (ran ==> last + limit <= now))
    && (ran ==> last <= now)
  }

  lemma TracksStep(limit: nat, s: State, e: Event, ran: bool, last: int, now: int)
    requires Tracks(limit, s, ran, last, now) && Enabled(s, e) && now <= e.at
    ensures var runs := e.Call? && !s.inThrottle;
      Tracks(limit, Step(limit, s, e), ran || runs, if runs then e.at else last, e.at)
  {
  }

  /** The time of the last of some calls. */
  function LastTime(es: seq<Event>, picks: seq<nat>): int {
    if picks == [] || picks[|picks| - 1] >= |es| then 0 else es[picks[|picks| - 1]].at
  }

  /** The flag and the timer after k events. */
  predicate Tracked(limit: nat, es: seq<Event>, k: nat)
    requires k <= |es|
  {
    var done := Executed(limit, es, k);
    Tracks(limit, At(limit, es, k), done != [], LastTime(es, done), Clock(es, k))
  }

  lemma TrackedNext(limit: nat, es: seq<Event>, k: nat)
    requires 0 < k <= |es| && Tracked(limit, es, k - 1)
    requires Enabled(At(limit, es, k - 1), es[k - 1]) && Clock(es, k - 1) <= es[k - 1].at
    ensures Tracked(limit, es, k)
  {
    var done := Executed(limit, es, k - 1);
    TracksStep(limit, At(limit, es, k - 1), es[k - 1], done != [], LastTime(es, done), Clock(es, k - 1));
  }

  lemma {:induction false} FlagAndTimer(limit: nat, es: seq<Event>, k: nat)
    requires k <= |es| && Possible(limit, es, k)
    ensures Tracked(limit, es, k)
  {
    if k > 0 {
      FlagAndTimer(limit, es, k - 1);
      TrackedNext(limit, es, k);
    }
  }

  lemma PickOneMore(limit: nat, es: seq<Event>, k: nat, picks: seq<nat>)
    requires 0 < k <= |es| && Selection(limit, es, k - 1, picks) && es[k - 1].Call?
    requires picks != [] ==> LastTime(es, picks) + limit <= es[k - 1].at
    ensures Selection(limit, es, k, picks + [k - 1])
  {
    var n := |picks|;
    forall i | 0 <= i < n ensures picks[i] < k - 1 && es[picks[i]].at + limit <= es[k - 1].at {
      assert i < n - 1 ==> es[picks[i]].at + limit <= es[picks[n - 1]].at;
    }
  }

  /** Executions are at least `limit` apart, however late the timers fire. */
  lemma {:induction false} ExecutionsAreSpaced(limit: nat, es: seq<Event>, k: nat)
    requires k <= |es| && Possible(limit, es, k)
    ensures Selection(limit, es, k, Executed(limit, es, k))
  {
    if k > 0 {
      ExecutionsAreSpaced(limit, es, k - 1);
      FlagAndTimer(limit, es, k - 1);
      if Runs(limit, es, k - 1) {
        PickOneMore(limit, es, k, Executed(limit, es, k - 1));
      }
    }
  }

  lemma {:induction false} SpacedFar(limit: nat, es: seq<Event>, k: nat, picks: seq<nat>, i: nat, j: nat)
    requires k <= |es| && Selection(limit, es, k, picks) && i <= j < |picks|
    ensures es[picks[j]].at - es[picks[i]].at >= (j - i) * limit
    decreases j
  {
    if i < j {
      SpacedFar(limit, es, k, picks, i, j - 1);
      assert (j - i) * limit == (j - 1 - i) * limit + limit;
    }
  }

  /** How many of the picked calls lie in a time window. */
  function InWindow(es: seq<Event>, picks: seq<nat>, from: int, to: int): nat {
    if picks == [] then 0
    else InWindow(es, picks[..|picks| - 1], from, to) + (if from <= LastTime(es, picks) <= to then 1 else 0)
  }

  /** If some pick lies in the window, the picks that do are no more than the ones between the first and the last of them. */
  lemma {:induction false} WindowSpan(es: seq<Event>, picks: seq<nat>, from: int, to: int) returns (i: nat, j: nat)
    requires forall i | 0 <= i < |picks| :: picks[i] < |es|
    requires InWindow(es, picks, from, to) > 0
    ensures i <= j < |picks| && from <= es[picks[i]].at && es[picks[j]].at <= to
    ensures InWindow(es, picks, from, to) <= j - i + 1
  {
    var n := |picks| - 1;
    if InWindow(es, picks[..n], from, to) == 0 {
      return n, n;
    }
    i, j := WindowSpan(es, picks[..n], from, to);
    if from <= es[picks[n]].at <= to {
      j := n;
    }
  }

  lemma SpanFits(limit: nat, es: seq<Event>, picks: seq<nat>, i: nat, j: nat, length: nat)
    requires limit > 0 && Selection(limit, es, |es|, picks) && i <= j < |picks|
    requires es[picks[j]].at - es[picks[i]].at <= length
    ensures j - i <= length / limit
  {
    SpacedFar(limit, es, |es|, picks, i, j);
    QuotientBound(j - i, limit, length);
  }

  lemma WindowOfSelection(limit: nat, es: seq<Event>, picks: seq<nat>, from: int, length: nat)
    requires limit > 0 && Selection(limit, es, |es|, picks)
    ensures InWindow(es, picks, from, from + length) <= length / limit + 1
  {
    if InWindow(es, picks, from, from + length) > 0 {
      var i, j := WindowSpan(es, picks, from, from + length);
      SpanFits(limit, es, picks, i, j, length);
    }
  }

  /** Any window of a given length holds at most floor(length / limit) + 1 executions, however late timers fire. */
  lemma ExecutionRate(limit: nat, es: seq<Event>, from: int, length: nat)
    requires limit > 0 && Possible(limit, es, |es|)
    ensures InWindow(es, Executed(limit, es, |es|), from, from + length) <= length / limit + 1
  {
    ExecutionsAreSpaced(limit, es, |es|);
    WindowOfSelection(limit, es, Executed(limit, es, |es|), from, length);
  }

  lemma QuotientBound(n: nat, limit: nat, length: nat)
    requires limit > 0 && n * limit <= length
    ensures n <= length / limit
  {
    var q := length / limit;
    assert (n - q) * limit == n * limit - q * limit < limit;
    SmallFactor(n - q, limit);
  }

  lemma SmallFactor(a: int, b: nat)
    requires a * b < b
    ensures a < 1
  {
  }

  // ---------------------------------------------------------------- the greedy choice is optimal

  predicate NothingDue(s: State, now: int) {
    forall i | 0 <= i < |s.timers| :: now < s.timers[i]
  }

  /** No call finds a timer whose deadline has come: a timer that is due fires before any call at that instant or later. */
  predicate Prompt(limit: nat, es: seq<Event>, k: nat)
    requires k <= |es|
  {
    k == 0 || (Prompt(limit, es, k - 1)
               && (es[k - 1].Call? ==> NothingDue(At(limit, es, k - 1), es[k - 1].at)))
  }

  /** A call that is skipped comes less than `limit` after the last execution. */
  lemma SkippedIsClose(limit: nat, es: seq<Event>, k: nat)
    requires 0 < k <= |es| && Possible(limit, es, k) && Prompt(limit, es, k)
    requires es[k - 1].Call? && At(limit, es, k - 1).inThrottle
    ensures var done := Executed(limit, es, k - 1);
      done != [] && es[k - 1].at < LastTime(es, done) + limit
  {
    FlagAndTimer(limit, es, k - 1);
    assert NothingDue(At(limit, es, k - 1), es[k - 1].at);
    assert At(limit, es, k - 1).timers[0] == LastTime(es, Executed(limit, es, k - 1)) + limit;
  }

  /** No selection is longer than what has been executed, and one just as long ends no earlier. */
  predicate Ahead(es: seq<Event>, done: seq<nat>, picks: seq<nat>) {
    && |picks| <= |done|
    && (picks != [] && |picks| == |done| ==> LastTime(es, done) <= LastTime(es, picks))
  }

  /** One more pick, at k - 1, whether that call is executed or skipped. */
  lemma AheadStep(limit: nat, es: seq<Event>, k: nat, done: seq<nat>, picks: seq<nat>, runs: bool)
    requires 0 < k <= |es| && picks != [] && picks[|picks| - 1] == k - 1
    requires Ahead(es, done, picks[..|picks| - 1])
    requires |picks| > 1 ==> LastTime(es, picks[..|picks| - 1]) + limit <= es[k - 1].at
    requires done != [] ==> LastTime(es, done) <= es[k - 1].at
    requires !runs ==> done != [] && es[k - 1].at < LastTime(es, done) + limit
    ensures Ahead(es, if runs then done + [k - 1] else done, picks)
  {
  }

  lemma SelectionBefore(limit: nat, es: seq<Event>, k: nat, picks: seq<nat>)
    requires 0 < k <= |es| && Selection(limit, es, k, picks)
    requires picks != [] ==> picks[|picks| - 1] < k - 1
    ensures Selection(limit, es, k - 1, picks)
  {
    forall i | 0 <= i < |picks| ensures picks[i] < k - 1 {
      assert i < |picks| - 1 ==> picks[i] < picks[|picks| - 1];
    }
  }

  lemma SelectionWithoutLast(limit: nat, es: seq<Event>, k: nat, picks: seq<nat>)
    requires 0 < k <= |es| && Selection(limit, es, k, picks)
    requires picks != [] && picks[|picks| - 1] == k - 1
    ensures Selection(limit, es, k - 1, picks[..|picks| - 1])
    ensures |picks| > 1 ==> LastTime(es, picks[..|picks| - 1]) + limit <= es[k - 1].at
  {
    var init := picks[..|picks| - 1];
    assert Selection(limit, es, k, init);
    SelectionBefore(limit, es, k, init);
  }

  /** A picked call at k - 1, executed or skipped, leaves greedy ahead. */
  lemma StillAhead(limit: nat, es: seq<Event>, k: nat, picks: seq<nat>)
    requires 0 < k <= |es| && Possible(limit, es, k) && Prompt(limit, es, k)
    requires picks != [] && picks[|picks| - 1] == k - 1 && es[k - 1].Call?
    requires Ahead(es, Executed(limit, es, k - 1), picks[..|picks| - 1])
    requires |picks| > 1 ==> LastTime(es, picks[..|picks| - 1]) + limit <= es[k - 1].at
    ensures Ahead(es, Executed(limit, es, k), picks)
  {
    FlagAndTimer(limit, es, k - 1);
    if At(limit, es, k - 1).inThrottle {
      SkippedIsClose(limit, es, k);
    }
    AheadStep(limit, es, k, Executed(limit, es, k - 1), picks, Runs(limit, es, k - 1));
  }

  lemma {:induction false} GreedyStaysAhead(limit: nat, es: seq<Event>, k: nat, picks: seq<nat>)
    requires k <= |es| && Possible(limit, es, k) && Prompt(limit, es, k)
    requires Selection(limit, es, k, picks)
    ensures Ahead(es, Executed(limit, es, k), picks)
  {
    if picks != [] {
      assert picks[|picks| - 1] < k && es[picks[|picks| - 1]].Call?;
      if picks[|picks| - 1] < k - 1 {
        SelectionBefore(limit, es, k, picks);
        GreedyStaysAhead(limit, es, k - 1, picks);
      } else {
        SelectionWithoutLast(limit, es, k, picks);
        GreedyStaysAhead(limit, es, k - 1, picks[..|picks| - 1]);
        StillAhead(limit, es, k, picks);
      }
    }
  }

  /** Throttle is optimal: with prompt timers, no set of calls pairwise at least `limit` apart is larger
      than the set it executes, which is itself such a set. */
  lemma ThrottleIsOptimal(limit: nat, es: seq<Event>, picks: seq<nat>)
    requires Possible(limit, es, |es|) && Prompt(limit, es, |es|)
    requires Selection(limit, es, |es|, picks)
    ensures |picks| <= |Executed(limit, es, |es|)|
    ensures Selection(limit, es, |es|, Executed(limit, es, |es|))
  {
    GreedyStaysAhead(limit, es, |es|, picks);
    ExecutionsAreSpaced(limit, es, |es|);
  }
}
