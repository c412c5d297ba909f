/** Every started operation finishes once the network answers. */
module SessionProgress {
  import opened Options
  import opened Runs
  import opened Sums
  import opened SessionModel
  import opened SessionSteps
  import opened SessionCalls

  /** How many more steps a task, or a refresh, may still cause. */
  function TaskWeight(t: Task): nat {
    match t
    case ApiTask(c) =>
      (match c.phase
       case FirstTry => 7
       case Waiting => 3
       case SecondTry => 2
       case Reading(_) => 1
       case Finished(_) => 0)
    case SignInTask(_, p) => if p.SigningIn? then 2 else if p.ReadingGrant? then 1 else 0
    case LogoutTask(_, done) => if done then 0 else 1
    case GetMeTask(_, p) => if p.Asking? then 2 else if p.ReadingMe? then 1 else 0
  }

  function RefreshWeight(r: Refresh): nat {
    match r.phase
    case Fetching => 3
    case ReadingTokens => 2
    case Settled(_) => 1
    case Released(_) => 0
  }

  function Measure(s: State): nat {
    SumOf(TaskWeight, s.tasks) + SumOf(RefreshWeight, s.refreshes)
  }

  /** The continuation of something already started, as opposed to a new request, a clock tick or a read. */
  predicate Internal(e: Event) { TaskEvent(e) || RefreshEvent(e) }

  lemma RefreshStepDecreases(s: State, e: Event)
    requires RefreshEvent(e) && Enabled(s, e)
    ensures Measure(Step(s, e)) < Measure(s)
  {
    RefreshesAfter(s, e);
    TasksAfter(s, e);
    RefreshLosesWeight(s, e);
    SumOfUpdate(RefreshWeight, s.refreshes, e.r, Step(s, e).refreshes[e.r]);
  }

  lemma RefreshLosesWeight(s: State, e: Event)
    requires RefreshEvent(e) && Enabled(s, e)
    ensures e.r < |Step(s, e).refreshes| && RefreshWeight(Step(s, e).refreshes[e.r]) < RefreshWeight(s.refreshes[e.r])
  {
  }

  lemma TaskStepDecreases(s: State, e: Event)
    requires TaskEvent(e) && Enabled(s, e)
    ensures Measure(Step(s, e)) < Measure(s)
  {
    TasksAfter(s, e);
    RefreshesAfter(s, e);
    TaskLosesWeight(s, e);
    SumOfUpdate(TaskWeight, s.tasks, e.i, Step(s, e).tasks[e.i]);
    if StartsRefresh(s, e) {
      SumOfAppend(RefreshWeight, s.refreshes, StartedRefresh(s));
    }
  }

  lemma TaskLosesWeight(s: State, e: Event)
    requires TaskEvent(e) && Enabled(s, e)
    ensures e.i < |s.tasks| && e.i < |Step(s, e).tasks|
    ensures TaskWeight(Step(s, e).tasks[e.i]) < TaskWeight(s.tasks[e.i])
    ensures StartsRefresh(s, e) ==> TaskWeight(Step(s, e).tasks[e.i]) + 3 < TaskWeight(s.tasks[e.i])
  {
  }

  lemma InternalStepDecreases(s: State, e: Event)
    requires Internal(e) && Enabled(s, e)
    ensures Measure(Step(s, e)) < Measure(s)
  {
    if RefreshEvent(e) {
      RefreshStepDecreases(s, e);
    } else {
      TaskStepDecreases(s, e);
    }
  }

  predicate CanContinue(s: State, e: Event) { Internal(e) && Enabled(s, e) }

  /** How many of the steps from j to k of a run continue something. */
  function Continuations(ss: seq<State>, es: seq<Event>, j: nat, k: nat): nat
    requires j <= k <= |es| < |ss|
  {
    if k == j then 0
    else Continuations(ss, es, j, k - 1) + (if CanContinue(ss[k - 1], es[k - 1]) then 1 else 0)
  }

  /** What starting an operation adds to the measure, at most. */
  function Cost(e: Event): nat {
    match e
    case StartCall(_) => 7
    case StartSignIn(_) => 2
    case StartGetMe => 2
    case StartLogout => 1
    case _ => 0
  }

  function Costs(es: seq<Event>, j: nat, k: nat): nat
    requires j <= k <= |es|
  {
    if k == j then 0 else Costs(es, j, k - 1) + Cost(es[k - 1])
  }

  /** Clock ticks, reads, setStoredUser and answers to nothing leave the measure; a start adds its cost. */
  lemma OtherStepsCost(s: State, e: Event)
    requires !CanContinue(s, e)
    ensures Measure(Step(s, e)) <= Measure(s) + Cost(e)
  {
    TasksAfter(s, e);
    RefreshesAfter(s, e);
    if StartEvent(e) {
      SumOfAppend(TaskWeight, s.tasks, Started(s, e));
    }
  }

  lemma EachStepCosts(s: State, e: Event)
    ensures (if CanContinue(s, e) then 1 else 0) + Measure(Step(s, e)) <= Measure(s) + Cost(e)
  {
    if CanContinue(s, e) {
      InternalStepDecreases(s, e);
    } else {
      OtherStepsCost(s, e);
    }
  }

  /** In every run, whatever else happens in between: the continuations from step j on never exceed what was
      in flight then and the cost of what has been started since. */
  lemma {:induction false} ContinuationsAreBounded(ss: seq<State>, es: seq<Event>, j: nat, k: nat)
    requires Run(Step, ss, es) && j <= k <= |es|
    ensures Continuations(ss, es, j, k) + Measure(ss[k]) <= Measure(ss[j]) + Costs(es, j, k)
  {
    if k > j {
      ContinuationsAreBounded(ss, es, j, k - 1);
      EachStepCosts(ss[k - 1], es[k - 1]);
    }
  }

  /** Nothing is in flight. */
  predicate Idle(s: State) {
    s.lock.None? && forall i | 0 <= i < |s.tasks| :: TaskWeight(s.tasks[i]) == 0
  }

  /** No deadlock: a state of a run has nothing left to continue exactly when every operation has
      finished and no refresh holds the lock. In particular no call waits for a refresh that will not come. */
  lemma StuckIffIdle(s: State)
    requires Protocol(s)
    ensures (forall e | Internal(e) :: !Enabled(s, e)) <==> Idle(s)
  {
    if Idle(s) {
      forall e | Internal(e) ensures !Enabled(s, e) {
        if RefreshEvent(e) {
          assert e.r < |s.refreshes| ==> !Live(s.refreshes[e.r]);
        } else {
          assert e.i < |s.tasks| ==> TaskWeight(s.tasks[e.i]) == 0;
        }
      }
    } else if s.lock.Some? {
      var e := NextRefreshEvent(s);
      assert Internal(e) && Enabled(s, e);
    } else {
      var i: nat :| i < |s.tasks| && TaskWeight(s.tasks[i]) != 0;
      assert TaskOk(s, i);
      var e := NextTaskEvent(s, i);
      assert Internal(e) && Enabled(s, e);
    }
  }

  lemma NextRefreshEvent(s: State) returns (e: Event)
    requires SingleFlight(s) && s.lock.Some?
    ensures Internal(e) && Enabled(s, e)
  {
    var r := s.lock.value;
    match s.refreshes[r].phase
    case Fetching => e := RefreshRespond(r, Rejected);
    case ReadingTokens => e := RefreshRead(r, None);
    case Settled(_) => e := RunFinally(r);
  }

  lemma NextTaskEvent(s: State, i: nat) returns (e: Event)
    requires SingleFlight(s) && s.lock.None?
    requires i < |s.tasks| && TaskOk(s, i) && TaskWeight(s.tasks[i]) != 0
    ensures Internal(e) && Enabled(s, e)
  {
    if AwaitsResponse(s.tasks[i]) {
      e := Respond(i, Rejected);
    } else {
      match s.tasks[i]
      case ApiTask(c) => e := if c.phase.Waiting? then Resume(i) else ReadBody(i, Aborted);
        assert c.phase.Waiting? ==> !Live(s.refreshes[c.joins[0]]);
      case SignInTask(_, _) => e := ReadGrant(i, None);
      case GetMeTask(_, _) => e := ReadMe(i, None);
    }
  }

  /** All operations of a run finish once the network answers, in whatever order it does and whatever the clock
      and the page do meanwhile. From any state on, there are only so many answers to give for what is in flight
      and what is started later; and when none is left to give, every operation has finished. */
  lemma EverythingFinishes(ss: seq<State>, es: seq<Event>, j: nat)
    requires Run(Step, ss, es) && Fresh(ss[0]) && j <= |es|
    ensures Continuations(ss, es, j, |es|) <= Measure(ss[j]) + Costs(es, j, |es|)
    ensures (forall e | Internal(e) :: !Enabled(ss[|es|], e)) <==> Idle(ss[|es|])
  {
    ContinuationsAreBounded(ss, es, j, |es|);
    ProtocolThroughout(ss, es, |es|);
    StuckIffIdle(ss[|es|]);
  }
}
