/** What one step can change: the frame that the invariants of the session rest on. */
module SessionSteps {
  import opened Options
  import opened SessionModel

  /** The continuation of a task, the continuation of a refresh, and the start of a task. */
  predicate TaskEvent(e: Event) {
    e.Respond? || e.Resume? || e.ReadBody? || e.ReadGrant? || e.ReadMe?
  }

  predicate RefreshEvent(e: Event) { e.RefreshRespond? || e.RefreshRead? || e.RunFinally? }

  predicate StartEvent(e: Event) { e.StartCall? || e.StartSignIn? || e.StartLogout? || e.StartGetMe? }

  function Started(s: State, e: Event): Task
    requires StartEvent(e)
  {
    match e
    case StartCall(kind) => ApiTask(Call(kind, [Header(s)], [], [], None, FirstTry))
    case StartSignIn(route) => SignInTask(route, SigningIn)
    case StartLogout => LogoutTask(Header(s), Header(s).auth.None?)
    case StartGetMe => GetMeTask(Header(s), Asking)
  }

  /** The tasks after a step: one more, the same, or the same but for the one continued. */
  lemma TasksAfter(s: State, e: Event)
    ensures StartEvent(e) ==> Step(s, e).tasks == s.tasks + [Started(s, e)]
    ensures !StartEvent(e) && !(TaskEvent(e) && Enabled(s, e)) ==> Step(s, e).tasks == s.tasks
    ensures TaskEvent(e) && Enabled(s, e) ==>
              e.i < |s.tasks| && |Step(s, e).tasks| == |s.tasks| && Step(s, e).tasks == s.tasks[e.i := Step(s, e).tasks[e.i]]
  {
  }

  /** A task only moves on: its kind and its headers stay, what it sent, saw and joined only grows, and
      what is over stays over. */
  predicate MovesOn(t: Task, t': Task) {
    match t
    case ApiTask(c) =>
      && t'.ApiTask? && t'.call.kind == c.kind
      && c.sent <= t'.call.sent && c.joins <= t'.call.joins && c.answers <= t'.call.answers
      && (c.phase.Finished? ==> t'.call == c)
    case SignInTask(route, p) => t'.SignInTask? && t'.route == route && (p.SignInOver? ==> t' == t)
    case LogoutTask(h, done) => t'.LogoutTask? && t'.header == h && (done ==> t' == t)
    case GetMeTask(h, p) => t'.GetMeTask? && t'.header == h && (p.GetMeOver? ==> t' == t)
  }

  lemma ContinuedMovesOn(s: State, e: Event)
    requires TaskEvent(e) && Enabled(s, e)
    ensures e.i < |s.tasks| && e.i < |Step(s, e).tasks| && MovesOn(s.tasks[e.i], Step(s, e).tasks[e.i])
  {
  }

  lemma TaskMovesOn(s: State, e: Event, i: nat)
    requires i < |s.tasks|
    ensures i < |Step(s, e).tasks| && MovesOn(s.tasks[i], Step(s, e).tasks[i])
    ensures !(TaskEvent(e) && e.i == i) ==> Step(s, e).tasks[i] == s.tasks[i]
  {
    TasksAfter(s, e);
    if TaskEvent(e) && Enabled(s, e) {
      ContinuedMovesOn(s, e);
    }
  }

  lemma TaskOrigin(s: State, e: Event, i: nat)
    requires |s.tasks| <= i < |Step(s, e).tasks|
    ensures i == |s.tasks| && StartEvent(e) && Step(s, e).tasks[i] == Started(s, e)
  {
    TasksAfter(s, e);
  }

  // ---------------------------------------------------------------- refreshes

  predicate Live(r: Refresh) { !r.phase.Released? }

  /** The only step outside a refresh that touches the refreshes is a 401 on a first try, and it
      starts one only while the lock is free. */
  predicate StartsRefresh(s: State, e: Event) {
    && e.Respond? && Enabled(s, e) && s.tasks[e.i].ApiTask? && s.tasks[e.i].call.phase.FirstTry?
    && e.answer == Status(401) && s.lock.None?
  }

  function StartedRefresh(s: State): Refresh {
    var t := AfterRead(s).tokens;
    if t.None? || t.value.refresh == "" then Refresh(Sent(None, s.now), Settled(None))
    else Refresh(Sent(t, s.now), Fetching)
  }

  lemma RefreshesAfter(s: State, e: Event)
    ensures StartsRefresh(s, e) ==>
              Step(s, e).refreshes == s.refreshes + [StartedRefresh(s)] && Step(s, e).lock == Some(|s.refreshes|)
    ensures !RefreshEvent(e) && !StartsRefresh(s, e) ==> Step(s, e).refreshes == s.refreshes && Step(s, e).lock == s.lock
    ensures RefreshEvent(e) && Enabled(s, e) ==>
              && e.r < |s.refreshes| && |Step(s, e).refreshes| == |s.refreshes|
              && Step(s, e).refreshes == s.refreshes[e.r := Step(s, e).refreshes[e.r]]
    ensures RefreshEvent(e) && !Enabled(s, e) ==> Step(s, e) == s
  {
    if e.Respond? && Enabled(s, e) {
      RefreshesAfterResponse(s, e.i, e.answer);
    }
  }

  lemma RefreshesAfterResponse(s: State, i: nat, answer: Answer)
    requires Enabled(s, Respond(i, answer))
    ensures var s' := Step(s, Respond(i, answer));
      if StartsRefresh(s, Respond(i, answer))
      then s'.refreshes == s.refreshes + [StartedRefresh(s)] && s'.lock == Some(|s.refreshes|)
      else s'.refreshes == s.refreshes && s'.lock == s.lock
  {
  }

  /** A refresh only moves on: its request stays, it does not go back to fetching, and its result is final. */
  predicate RefreshMovesOn(r: Refresh, r': Refresh) {
    && r'.request == r.request
    && (r'.phase.Fetching? ==> r == r')
    && (r'.phase.ReadingTokens? ==> r.phase.Fetching? || r.phase.ReadingTokens?)
    && (r.phase.Settled? ==> r' == r || r'.phase == Released(r.phase.result))
    && (r.phase.Released? ==> r' == r)
  }

  lemma RefreshContinues(s: State, e: Event)
    requires RefreshEvent(e) && Enabled(s, e)
    ensures e.r < |Step(s, e).refreshes| && RefreshMovesOn(s.refreshes[e.r], Step(s, e).refreshes[e.r])
    ensures Live(s.refreshes[e.r])
    ensures if e.RunFinally? then Step(s, e).lock.None? && !Live(Step(s, e).refreshes[e.r])
            else Step(s, e).lock == s.lock && Live(Step(s, e).refreshes[e.r])
  {
  }

  lemma EachRefreshMovesOn(s: State, e: Event, r: nat)
    requires r < |s.refreshes|
    ensures r < |Step(s, e).refreshes| && RefreshMovesOn(s.refreshes[r], Step(s, e).refreshes[r])
  {
    RefreshesAfter(s, e);
    if RefreshEvent(e) && Enabled(s, e) {
      RefreshContinues(s, e);
    }
  }

  lemma RefreshOrigin(s: State, e: Event, r: nat)
    requires |s.refreshes| <= r < |Step(s, e).refreshes|
    ensures r == |s.refreshes| && StartsRefresh(s, e) && Step(s, e).refreshes[r] == StartedRefresh(s)
  {
    RefreshesAfter(s, e);
  }
}
