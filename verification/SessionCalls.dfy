/** The single-flight refresh and the protocol every API call follows, over all interleavings. */
module SessionCalls {
  import opened Options
  import opened Runs
  import opened Sums
  import opened SessionModel
  import opened SessionSteps
  import opened SessionStore

  // ---------------------------------------------------------------- one refresh at a time

  /** refreshPromise is set exactly while one refresh has started and its finally has not run. */
  predicate SingleFlight(s: State) {
    && (s.lock.Some? ==> s.lock.value < |s.refreshes| && Live(s.refreshes[s.lock.value]))
    && (forall r | 0 <= r < |s.refreshes| && Live(s.refreshes[r]) :: s.lock == Some(r))
  }

  lemma SingleFlightStep(s: State, e: Event)
    requires SingleFlight(s)
    ensures SingleFlight(Step(s, e))
  {
    RefreshesAfter(s, e);
    if RefreshEvent(e) && Enabled(s, e) {
      RefreshContinues(s, e);
    }
  }

  // ---------------------------------------------------------------- the sequential reading of a call

  function Conclude(kind: Kind, last: Answer, body: Body): Outcome {
    if last.Rejected? then NetworkError else CallEnd(kind, last.code, body)
  }

  /** fetchWithAuth as one would read it alone: what it was answered, what the refresh it asked for
      gave, and how it therefore ends. */
  function Sequential(kind: Kind, first: Answer, refreshed: Option<Tokens>, second: Answer, body: Body): Outcome {
    if first != Status(401) then Conclude(kind, first, body)
    else if refreshed.None? then Unauthorized
    else Conclude(kind, second, body)
  }

  /** The result of the refresh that a call joined, once that refresh is over. */
  function JoinedResult(rs: seq<Refresh>, c: Call): Option<Tokens> {
    if c.joins != [] && c.joins[0] < |rs| && rs[c.joins[0]].phase.Released?
    then rs[c.joins[0]].phase.result else None
  }

  function BodyOf(c: Call): Body { if c.body.Some? then c.body.value else Aborted }

  predicate Joined(rs: seq<Refresh>, c: Call) {
    && (c.joins != [] ==> c.joins[0] < |rs| && c.answers != [] && c.answers[0] == Status(401))
    && (|c.sent| == 2 ==> c.joins != [] && rs[c.joins[0]].phase.Released? && c.sent[1].auth.Some?
                          && c.sent[1].auth == JoinedResult(rs, c))
  }

  predicate CallOk(rs: seq<Refresh>, c: Call) {
    && |c.joins| <= 1 && 1 <= |c.sent| <= 2
    && Joined(rs, c)
    && match c.phase
       case FirstTry => c.joins == [] && c.answers == [] && |c.sent| == 1 && c.body.None?
       case Waiting => c.joins != [] && |c.answers| == 1 == |c.sent| && c.body.None?
       case SecondTry => |c.answers| == 1 && |c.sent| == 2 && c.body.None?
       case Reading(code) =>
         && |c.answers| == |c.sent| && c.answers[|c.answers| - 1] == Status(code)
         && |c.sent| == |c.joins| + 1 && (c.joins == [] ==> code != 401) && c.body.None?
       case Finished(outcome) =>
         && |c.answers| == |c.sent|
         && (c.joins != [] <==> c.answers[0] == Status(401))
         && (c.joins != [] ==> rs[c.joins[0]].phase.Released?)
         && (|c.sent| == 2 <==> JoinedResult(rs, c).Some?)
         && outcome == Sequential(c.kind, c.answers[0], JoinedResult(rs, c), c.answers[|c.answers| - 1], BodyOf(c))
  }

  predicate TaskOk(s: State, i: nat)
    requires i < |s.tasks|
  {
    s.tasks[i].ApiTask? ==> CallOk(s.refreshes, s.tasks[i].call)
  }

  predicate Protocol(s: State) {
    SingleFlight(s) && forall i: nat | i < |s.tasks| :: TaskOk(s, i)
  }

  lemma UntouchedCallOk(s: State, e: Event, c: Call)
    requires CallOk(s.refreshes, c)
    ensures CallOk(Step(s, e).refreshes, c)
  {
    if c.joins != [] {
      EachRefreshMovesOn(s, e, c.joins[0]);
    }
  }

  lemma ResponseOk(s: State, i: nat, answer: Answer)
    requires SingleFlight(s) && Enabled(s, Respond(i, answer)) && s.tasks[i].ApiTask? && TaskOk(s, i)
    ensures TaskOk(Step(s, Respond(i, answer)), i)
  {
    UntouchedCallOk(s, Respond(i, answer), s.tasks[i].call);
    if s.tasks[i].call.phase.SecondTry? {
      SecondResponseOk(s, i, answer);
    }
  }

  lemma SecondResponseOk(s: State, i: nat, answer: Answer)
    requires Enabled(s, Respond(i, answer)) && s.tasks[i].ApiTask? && TaskOk(s, i)
    requires s.tasks[i].call.phase.SecondTry?
    ensures TaskOk(Step(s, Respond(i, answer)), i)
  {
  }

  lemma ResumeOk(s: State, i: nat)
    requires Enabled(s, Resume(i)) && TaskOk(s, i)
    ensures TaskOk(Step(s, Resume(i)), i)
  {
  }

  lemma BodyOk(s: State, i: nat, body: Body)
    requires Enabled(s, ReadBody(i, body)) && TaskOk(s, i)
    ensures TaskOk(Step(s, ReadBody(i, body)), i)
  {
  }

  /** Whether an event runs the continuation of API call i. */
  predicate Continues(e: Event, i: nat) {
    (e.Respond? && e.i == i) || (e.Resume? && e.i == i) || (e.ReadBody? && e.i == i)
  }

  lemma TaskOkStep(s: State, e: Event, i: nat)
    requires SingleFlight(s) && (i < |s.tasks| ==> TaskOk(s, i))
    requires i < |Step(s, e).tasks|
    ensures TaskOk(Step(s, e), i)
  {
    if i >= |s.tasks| {
      TaskOrigin(s, e, i);
    } else if !s.tasks[i].ApiTask? {
      TaskMovesOn(s, e, i);
    } else if !Enabled(s, e) {
    } else if !Continues(e, i) {
      TaskMovesOn(s, e, i);
      UntouchedCallOk(s, e, s.tasks[i].call);
    } else {
      match e
      case Respond(_, answer) => ResponseOk(s, i, answer);
      case Resume(_) => ResumeOk(s, i);
      case ReadBody(_, body) => BodyOk(s, i, body);
      case _ =>
    }
  }

  lemma {:induction false} ProtocolLasts(ss: seq<State>, es: seq<Event>, k: nat)
    requires Run(Step, ss, es) && Protocol(ss[0]) && k <= |es|
    ensures Protocol(ss[k])
  {
    if k > 0 {
      ProtocolLasts(ss, es, k - 1);
      var s0, e := ss[k - 1], es[k - 1];
      SingleFlightStep(s0, e);
      forall i: nat | i < |Step(s0, e).tasks| ensures TaskOk(Step(s0, e), i) {
        TaskOkStep(s0, e, i);
      }
    }
  }

  /** In every run: at most one refresh is in flight, it is the one refreshPromise stands for, and every
      API call follows its protocol. */
  lemma ProtocolThroughout(ss: seq<State>, es: seq<Event>, k: nat)
    requires Run(Step, ss, es) && Fresh(ss[0]) && k <= |es|
    ensures Protocol(ss[k])
  {
    ProtocolLasts(ss, es, k);
  }

  /** The promises of the API layer, for one call. It sends at most twice and waits for at most one
      refresh; while it waits, that refresh is the live one or its result is ready; its retry carries
      the tokens of that very refresh; a refresh without tokens ends it unauthorized, with no retry;
      and it ends as the sequential reading of its own answers says, well exactly after an ok answer with
      a readable body. */
  predicate KeepsPromises(s: State, i: nat)
    requires i < |s.tasks| && s.tasks[i].ApiTask?
  {
    var c := s.tasks[i].call;
    var result := JoinedResult(s.refreshes, c);
    && 1 <= |c.sent| <= 2 && |c.joins| <= 1
    && (|c.sent| == 2 ==> c.sent[1].auth.Some? && c.sent[1].auth == result)
    && (c.phase.Waiting? ==> CanResume(s, i) || (|c.joins| == 1 && s.lock == Some(c.joins[0])))
    && (c.phase.Finished? ==>
          && c.answers != []
          && var last := c.answers[|c.answers| - 1];
          && c.phase.outcome == Sequential(c.kind, c.answers[0], result, last, BodyOf(c))
          && (c.phase.outcome.Unauthorized? <==> c.answers[0] == Status(401) && result.None?)
          && (c.phase.outcome.Unauthorized? ==> |c.sent| == 1)
          && (c.phase.outcome.Succeeded? <==>
                && last.Status? && 200 <= last.code <= 299
                && (BodyOf(c).JsonText? || (BodyOf(c).EmptyText? && c.kind.FetchWithAuth?))))
  }

  lemma ProtocolKeepsPromises(s: State, i: nat)
    requires Protocol(s) && i < |s.tasks| && s.tasks[i].ApiTask?
    ensures KeepsPromises(s, i)
  {
    assert TaskOk(s, i);
  }

  /** Whatever else runs in between, in every state of every run every API call keeps its promises. */
  lemma EveryCall(ss: seq<State>, es: seq<Event>, k: nat, i: nat)
    requires Run(Step, ss, es) && Fresh(ss[0]) && k <= |es| && i < |ss[k].tasks| && ss[k].tasks[i].ApiTask?
    ensures KeepsPromises(ss[k], i)
  {
    ProtocolThroughout(ss, es, k);
    ProtocolKeepsPromises(ss[k], i);
  }

  /** In every run, the step that ends a call unauthorized is the one that empties the store, and sends nothing. */
  lemma UnauthorizedEmpties(ss: seq<State>, es: seq<Event>, k: nat, i: nat)
    requires Run(Step, ss, es) && Fresh(ss[0]) && k < |es|
    requires i < |ss[k + 1].tasks| && ss[k + 1].tasks[i].ApiTask?
    requires ss[k + 1].tasks[i].call.phase == Finished(Unauthorized)
    requires i < |ss[k].tasks| ==> ss[k].tasks[i] != ss[k + 1].tasks[i]
    ensures Empty(ss[k + 1]) && es[k] == Resume(i)
    ensures i < |ss[k].tasks| && ss[k].tasks[i].ApiTask? && ss[k].tasks[i].call.sent == ss[k + 1].tasks[i].call.sent
  {
    ProtocolThroughout(ss, es, k);
    var s, e := ss[k], es[k];
    if i >= |s.tasks| {
      TaskOrigin(s, e, i);
    } else {
      TaskMovesOn(s, e, i);
      ContinuedMovesOn(s, e);
      assert TaskOk(s, i);
    }
  }

  // ---------------------------------------------------------------- how many refreshes

  /** How many steps of a run start a refresh. */
  function Starts(ss: seq<State>, es: seq<Event>, k: nat): nat
    requires k <= |es| < |ss|
  {
    if k == 0 then 0 else Starts(ss, es, k - 1) + (if StartsRefresh(ss[k - 1], es[k - 1]) then 1 else 0)
  }

  /** A run starts one refresh for each 401 that finds the lock free, and no other. */
  lemma {:induction false} RefreshCount(ss: seq<State>, es: seq<Event>, k: nat)
    requires Run(Step, ss, es) && k <= |es|
    ensures |ss[k].refreshes| == |ss[0].refreshes| + Starts(ss, es, k)
  {
    if k > 0 {
      RefreshCount(ss, es, k - 1);
      RefreshesAfter(ss[k - 1], es[k - 1]);
    }
  }

  function Saw401(t: Task): nat {
    if t.ApiTask? && t.call.answers != [] && t.call.answers[0] == Status(401) then 1 else 0
  }

  lemma Saw401Step(s: State, e: Event)
    requires Protocol(s)
    ensures SumOf(Saw401, Step(s, e).tasks) >= SumOf(Saw401, s.tasks) + (if StartsRefresh(s, e) then 1 else 0)
  {
    TasksAfter(s, e);
    if StartEvent(e) {
      SumOfAppend(Saw401, s.tasks, Started(s, e));
    } else if TaskEvent(e) && Enabled(s, e) {
      ContinuedMovesOn(s, e);
      assert TaskOk(s, e.i);
      SumOfUpdate(Saw401, s.tasks, e.i, Step(s, e).tasks[e.i]);
      if StartsRefresh(s, e) {
        FirstAnswerIsLogged(s, e);
      }
    }
  }

  lemma FirstAnswerIsLogged(s: State, e: Event)
    requires Protocol(s) && StartsRefresh(s, e)
    ensures Saw401(s.tasks[e.i]) == 0 && Saw401(Step(s, e).tasks[e.i]) == 1
  {
    assert TaskOk(s, e.i);
  }

  /** Refreshes started never exceed the calls that saw a 401 on their first try. */
  lemma {:induction false} RefreshesBoundedBy401s(ss: seq<State>, es: seq<Event>, k: nat)
    requires Run(Step, ss, es) && Fresh(ss[0]) && k <= |es|
    ensures |ss[k].refreshes| <= SumOf(Saw401, ss[k].tasks)
  {
    if k > 0 {
      RefreshesBoundedBy401s(ss, es, k - 1);
      ProtocolThroughout(ss, es, k - 1);
      var s0, e := ss[k - 1], es[k - 1];
      Saw401Step(s0, e);
      RefreshesAfter(s0, e);
    }
  }

  /** One expiry can cost two refreshes: a second 401 that arrives after the first refresh has
      finished finds the lock free again. */
  lemma LateAnswerStartsSecondRefresh()
    ensures exists ss: seq<State>, es: seq<Event> ::
      Run(Step, ss, es) && Fresh(ss[0]) && |ss[|es|].refreshes| == 2 && forall k | 0 <= k < |es| :: !es[k].Tick?
  {
    var es := LateAnswers();
    var ss := seq(7, k requires 0 <= k => LateRun(k)) + [Step(LateRun(6), es[6])];
    LateRunSteps();
    SecondStart(LateRun(6));
    forall k | 0 <= k < |es| ensures ss[k + 1] == Step(ss[k], es[k]) {
      assert k < 6 ==> Step(LateRun(k), LateAnswers()[k]) == LateRun(k + 1);
    }
    assert Run(Step, ss, es) && |ss[7].refreshes| == 2;
  }

  function LateAnswers(): seq<Event> {
    [StartCall(FetchWithAuth), StartCall(FetchWithAuth), Respond(0, Status(401)), RefreshRespond(0, Status(200)),
     RefreshRead(0, Some(Grant("b", "q", 100, 1))), RunFinally(0), Respond(1, Status(401))]
  }

  function LateRun(k: nat): State {
    var t, t' := Some(Tokens("a", "r", 100, 1)), Some(Tokens("b", "q", 100000, 1));
    var h := Sent(t, 0);
    var first := ApiTask(Call(FetchWithAuth, [h], [], [], None, FirstTry));
    var waiting := ApiTask(Call(FetchWithAuth, [h], [Status(401)], [0], None, Waiting));
    var s0 := State(0, t, Some(User(1, "u")), None, [], []);
    var s3 := s0.(tasks := [waiting, first], lock := Some(0), refreshes := [Refresh(h, Fetching)]);
    if k == 0 then s0
    else if k == 1 then s0.(tasks := [first])
    else if k == 2 then s0.(tasks := [first, first])
    else if k == 3 then s3
    else if k == 4 then s3.(refreshes := [Refresh(h, ReadingTokens)])
    else if k == 5 then s3.(refreshes := [Refresh(h, Settled(t'))], tokens := t')
    else s3.(refreshes := [Refresh(h, Released(t'))], tokens := t', lock := None)
  }

  lemma LateRunSteps()
    ensures forall k: nat | k < 6 :: Step(LateRun(k), LateAnswers()[k]) == LateRun(k + 1)
  {
    forall k: nat | k < 6 ensures Step(LateRun(k), LateAnswers()[k]) == LateRun(k + 1) {
      if k < 2 {
        LateStart(k);
      } else if k == 2 {
        LateFirst401();
      } else {
        LateRefresh(k);
      }
    }
  }

  lemma LateStart(k: nat)
    requires k < 2
    ensures Step(LateRun(k), LateAnswers()[k]) == LateRun(k + 1)
  {
    TasksAfter(LateRun(k), LateAnswers()[k]);
  }

  lemma LateFirst401()
    ensures Step(LateRun(2), LateAnswers()[2]) == LateRun(3)
  {
    var s, s' := Step(LateRun(2), LateAnswers()[2]), LateRun(3);
    assert s.tasks[0].call.answers == s'.tasks[0].call.answers && s.tasks[0].call.joins == s'.tasks[0].call.joins;
    assert s.tasks == s'.tasks;
    assert s.refreshes == s'.refreshes;
  }

  lemma LateRefresh(k: nat)
    requires 3 <= k < 6
    ensures Step(LateRun(k), LateAnswers()[k]) == LateRun(k + 1)
  {
    assert Step(LateRun(k), LateAnswers()[k]).refreshes == LateRun(k + 1).refreshes;
  }

  lemma SecondStart(s: State)
    requires s == LateRun(6)
    ensures |Step(s, Respond(1, Status(401))).refreshes| == 2
  {
  }
}
