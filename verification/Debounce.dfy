/**
 `debounce` of `utils.ts`: the closure variable, the timers of the runtime, and what a whole trace of
 calls executes. The arguments of a call are named by the call's position in the trace.
 */
module Debounce {
  import opened Options

  datatype Event = Call(at: int) | Fire(at: int, handle: nat)

  datatype Timer = Timer(due: int, args: nat)

  /** `timeout` is the last handle that setTimeout returned, fired or not; `live` are the pending timers. */
  datatype State = State(timeout: Option<nat>, live: map<nat, Timer>, handles: nat)

  const START: State := State(None, map[], 0)

  predicate Enabled(s: State, e: Event) {
    e.Fire? ==> e.handle in s.live && s.live[e.handle].due <= e.at
  }

  function Step(wait: nat, s: State, e: Event, args: nat): State {
    if !Enabled(s, e) then s
    else match e
      case Call(at) =>
        var live := if s.timeout.Some? then s.live - {s.timeout.value} else s.live;
        State(Some(s.handles), live[s.handles := Timer(at + wait, args)], s.handles + 1)
      case Fire(_, h) => s.(live := s.live - {h})
  }

  /** The code: the returned function, and the callback it gives to setTimeout. */
  class Debounced {
    const wait: nat
    var timeout: Option<nat>
    var live: map<nat, Timer>
    var handles: nat

    function View(): State
      reads this
    {
      State(timeout, live, handles)
    }

    constructor (wait: nat)
      ensures this.wait == wait && View() == START
    {
      this.wait, timeout, live, handles := wait, None, map[], 0;
    }

    method Invoke(at: int, args: nat)
      modifies this
      ensures View() == Step(wait, old(View()), Call(at), args)
    {
      if timeout.Some? {
        live := live - {timeout.value};
      }
      live := live[handles := Timer(at + wait, args)];
      timeout := Some(handles);
      handles := handles + 1;
    }

    /** Returns the arguments with which the wrapped function runs. */
    method TimerFires(at: int, handle: nat) returns (args: nat)
      requires Enabled(View(), Fire(at, handle))
      modifies this
      ensures View() == Step(wait, old(View()), Fire(at, handle), 0)
      ensures args == old(live)[handle].args
    {
      args := live[handle].args;
      live := live - {handle};
    }
  }

  // ---------------------------------------------------------------- traces

  function At(wait: nat, es: seq<Event>, k: nat): State
    requires k <= |es|
  {
    if k == 0 then START else Step(wait, At(wait, es, k - 1), es[k - 1], k - 1)
  }

  /** Time does not run back, and no timer fires early. */
  predicate Possible(wait: nat, es: seq<Event>, k: nat)
    requires k <= |es|
  {
    k == 0 || (&& Possible(wait, es, k - 1) && Enabled(At(wait, es, k - 1), es[k - 1])
               && Clock(es, k - 1) <= es[k - 1].at)
  }

  function Clock(es: seq<Event>, k: nat): int
    requires k <= |es|
  {
    if k == 0 then (if es == [] then 0 else es[0].at) else es[k - 1].at
  }

  /** No call finds a timer whose deadline has come: a timer that is due fires before any call at that instant or later. */
  predicate Prompt(wait: nat, es: seq<Event>, k: nat)
    requires k <= |es|
  {
    k == 0 || (&& Prompt(wait, es, k - 1)
               && (es[k - 1].Call? ==> NothingDue(At(wait, es, k - 1), es[k - 1].at)))
  }

  predicate NothingDue(s: State, now: int) {
    forall h | h in s.live :: now < s.live[h].due
  }

  /** The arguments of the executions among the first k events, in order. */
  function Executed(wait: nat, es: seq<Event>, k: nat): seq<nat>
    requires k <= |es|
  {
    if k == 0 then []
    else
      var s, e := At(wait, es, k - 1), es[k - 1];
      Executed(wait, es, k - 1) + (if e.Fire? && Enabled(s, e) then [s.live[e.handle].args] else [])
  }

  /** The most recent call among the first k events. */
  function LastCall(es: seq<Event>, k: nat): (c: Option<nat>)
    requires k <= |es|
    ensures c.Some? ==> c.value < k && es[c.value].Call? && forall j | c.value < j < k :: !es[j].Call?
    ensures c.None? ==> forall j | 0 <= j < k :: !es[j].Call?
  {
    if k == 0 then None else if es[k - 1].Call? then Some(k - 1) else LastCall(es, k - 1)
  }

  /** The reference: among the first k events, the calls whose next call comes at least `wait` later.
      It reads off the calls alone and knows no timers. */
  function Settled(wait: nat, es: seq<Event>, k: nat): seq<nat>
    requires k <= |es|
  {
    if k == 0 then []
    else if es[k - 1].Call? && LastCall(es, k - 1).Some? && es[LastCall(es, k - 1).value].at + wait <= es[k - 1].at
    then Settled(wait, es, k - 1) + [LastCall(es, k - 1).value]
    else Settled(wait, es, k - 1)
  }

  /** At most one timer is live. It is the one `timeout` refers to, carries the most recent call, and is
      due `wait` after it. */
  predicate OneTimer(wait: nat, es: seq<Event>, k: nat)
    requires k <= |es|
  {
    var s, c := At(wait, es, k), LastCall(es, k);
    && (s.timeout.Some? ==> s.timeout.value < s.handles)
    && forall h | h in s.live ::
         s.timeout == Some(h) && c.Some? && s.live[h] == Timer(es[c.value].at + wait, c.value)
  }

  lemma {:induction false} OneTimerThroughout(wait: nat, es: seq<Event>, k: nat)
    requires k <= |es|
    ensures OneTimer(wait, es, k)
  {
    if k > 0 {
      OneTimerThroughout(wait, es, k - 1);
    }
  }

  /** However late timers fire: what runs is the most recent call, and at least `wait` after it. */
  lemma ExecutionsAreRecent(wait: nat, es: seq<Event>, k: nat)
    requires k < |es| && es[k].Fire? && Enabled(At(wait, es, k), es[k])
    ensures |At(wait, es, k).live| == 1
    ensures LastCall(es, k).Some?
    ensures At(wait, es, k).live[es[k].handle].args == LastCall(es, k).value
    ensures es[LastCall(es, k).value].at + wait <= es[k].at
  {
    OneTimerThroughout(wait, es, k);
    var s, h := At(wait, es, k), es[k].handle;
    assert s.live.Keys == {h};
    assert |s.live.Keys| == 1;
  }

  /** What has run after k events: the settled calls and, if its timer has fired, the most recent one. */
  predicate Matches(wait: nat, es: seq<Event>, k: nat)
    requires k <= |es|
  {
    var s, c := At(wait, es, k), LastCall(es, k);
    if s.live == map[] && c.Some?
    then Executed(wait, es, k) == Settled(wait, es, k) + [c.value] && es[c.value].at + wait <= Clock(es, k)
    else Executed(wait, es, k) == Settled(wait, es, k)
  }

  lemma MatchesCall(wait: nat, es: seq<Event>, k: nat)
    requires 0 < k <= |es| && Possible(wait, es, k) && Prompt(wait, es, k) && es[k - 1].Call?
    requires OneTimer(wait, es, k - 1) && Matches(wait, es, k - 1)
    ensures Matches(wait, es, k)
  {
    var s, c := At(wait, es, k - 1), LastCall(es, k - 1);
    assert At(wait, es, k).live != map[] by {
      assert s.handles in At(wait, es, k).live;
    }
    if s.live != map[] {
      var h :| h in s.live;
      assert es[k - 1].at < s.live[h].due;
    }
  }

  lemma MatchesFire(wait: nat, es: seq<Event>, k: nat)
    requires 0 < k <= |es| && Possible(wait, es, k) && es[k - 1].Fire?
    requires OneTimer(wait, es, k - 1) && Matches(wait, es, k - 1)
    ensures Matches(wait, es, k)
  {
    var s, h := At(wait, es, k - 1), es[k - 1].handle;
    assert s.live.Keys == {h};
    assert At(wait, es, k).live == map[];
  }

  lemma {:induction false} MatchesThroughout(wait: nat, es: seq<Event>, k: nat)
    requires k <= |es| && Possible(wait, es, k) && Prompt(wait, es, k)
    ensures Matches(wait, es, k)
  {
    if k > 0 {
      MatchesThroughout(wait, es, k - 1);
      OneTimerThroughout(wait, es, k - 1);
      if es[k - 1].Call? {
        MatchesCall(wait, es, k);
      } else {
        MatchesFire(wait, es, k);
      }
    }
  }

  /** Debounce refines the filter. With prompt timers, once no timer is left, exactly these calls have run,
      each once and in order: those whose next call came at least `wait` later, and the last one. */
  lemma DebounceIsFilter(wait: nat, es: seq<Event>)
    requires Possible(wait, es, |es|) && Prompt(wait, es, |es|)
    requires At(wait, es, |es|).live == map[]
    ensures Executed(wait, es, |es|) ==
            Settled(wait, es, |es|) + (if LastCall(es, |es|).Some? then [LastCall(es, |es|).value] else [])
  {
    MatchesThroughout(wait, es, |es|);
  }

  /** The filter, call by call: c is kept exactly when its next call d comes at least `wait` later. */
  lemma {:induction false} SettledIff(wait: nat, es: seq<Event>, k: nat, c: nat, d: nat)
    requires c < d < k <= |es| && es[c].Call? && es[d].Call?
    requires forall j | c < j < d :: !es[j].Call?
    ensures c in Settled(wait, es, k) <==> es[c].at + wait <= es[d].at
  {
    if k - 1 > d {
      SettledIff(wait, es, k - 1, c, d);
    } else {
      SettledBelow(wait, es, d, c);
      assert LastCall(es, d) == Some(c);
    }
  }

  /** While a call has no successor it is not settled. */
  lemma {:induction false} SettledBelow(wait: nat, es: seq<Event>, k: nat, c: nat)
    requires k <= |es|
    requires forall j | c < j < k :: !es[j].Call?
    ensures c !in Settled(wait, es, k)
  {
    if k > 0 {
      SettledBelow(wait, es, k - 1, c);
    }
  }

  /** So, in a prompt trace, a call with a successor runs if and only if the successor leaves it `wait`. */
  lemma CallRunsIff(wait: nat, es: seq<Event>, c: nat, d: nat)
    requires Possible(wait, es, |es|) && Prompt(wait, es, |es|)
    requires c < d < |es| && es[c].Call? && es[d].Call?
    requires forall j | c < j < d :: !es[j].Call?
    ensures c in Executed(wait, es, |es|) <==> es[c].at + wait <= es[d].at
  {
    MatchesThroughout(wait, es, |es|);
    SettledIff(wait, es, |es|, c, d);
  }
}
