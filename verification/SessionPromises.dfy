/** What callers and the store get in each case, told from the answers alone. */
module SessionPromises {
  import opened Options
  import opened Runs
  import opened SessionModel
  import opened SessionSteps
  import opened SessionStore
  import opened SessionCalls

  predicate Success(a: Answer) { a.Status? && 200 <= a.code <= 299 }

  /** Tokens as a refresh, or a sign-in with a lifetime, is granted them at a time. */
  predicate Granted(t: Tokens, g: Grant, now: int) {
    t.access == g.access && t.refresh == g.refresh && t.expiresAt == now + 1000 * g.expires && t.owner == g.owner
  }

  /** On the OAuth route the grant names the end itself. */
  predicate SignedIn(t: Tokens, route: Route, g: Grant, now: int) {
    if route == OAuth then t == Tokens(g.access, g.refresh, g.expires, g.owner) else Granted(t, g, now)
  }

  // ---------------------------------------------------------------- what a refresh hands out

  /** A refresh that is granted tokens settles with them, whatever the store holds, and stores them beside a user only. */
  lemma RefreshHandsOut(s: State, r: nat, g: Grant)
    requires Enabled(s, RefreshRead(r, Some(g)))
    ensures var s' := Step(s, RefreshRead(r, Some(g)));
      && r < |s'.refreshes| && s'.refreshes[r].phase.Settled? && s'.refreshes[r].phase.result.Some?
      && Granted(s'.refreshes[r].phase.result.value, g, s.now)
      && s'.tokens == (if s.user.Some? then s'.refreshes[r].phase.result else s.tokens) && s'.user == s.user
  {
  }

  /** One that fails hands out nothing, and its tokens are read only after a successful answer. */
  lemma RefreshFails(s: State, r: nat, answer: Answer)
    requires Enabled(s, RefreshRespond(r, answer))
    ensures var s' := Step(s, RefreshRespond(r, answer));
      && r < |s'.refreshes|
      && (Success(answer) ==> forall grant :: Enabled(s', RefreshRead(r, grant)))
      && (!Success(answer) ==> s'.refreshes[r].phase == Settled(None) && Empty(s'))
  {
  }

  lemma RefreshUnreadable(s: State, r: nat)
    requires Enabled(s, RefreshRead(r, None))
    ensures var s' := Step(s, RefreshRead(r, None));
      r < |s'.refreshes| && s'.refreshes[r].phase == Settled(None) && Empty(s')
  {
  }

  /** What a refresh that is over has handed out, if anything. */
  function Result(r: Refresh): Option<Tokens> {
    if r.phase.Settled? || r.phase.Released? then r.phase.result else None
  }

  /** Step j reads the grant of refresh r, and the tokens are those. */
  predicate GrantRead(s: State, e: Event, r: nat, t: Tokens) {
    e.RefreshRead? && e.r == r && Enabled(s, e) && e.grant.Some? && Granted(t, e.grant.value, s.now)
  }

  predicate GrantedBy(ss: seq<State>, es: seq<Event>, k: nat, r: nat, t: Tokens)
    requires k <= |es| < |ss|
  {
    exists j {:trigger es[j]} | 0 <= j < k :: GrantRead(ss[j], es[j], r, t)
  }

  lemma ResultStep(s: State, e: Event, r: nat)
    requires r < |s.refreshes|
    ensures r < |Step(s, e).refreshes|
    ensures var res, res' := Result(s.refreshes[r]), Result(Step(s, e).refreshes[r]);
      && (res.Some? ==> res' == res)
      && (res.None? && res'.Some? ==> GrantRead(s, e, r, res'.value))
      && (e.RefreshRead? && e.r == r && Enabled(s, e) && e.grant.Some? ==> res'.Some? && GrantRead(s, e, r, res'.value))
  {
    EachRefreshMovesOn(s, e, r);
    RefreshesAfter(s, e);
    if RefreshEvent(e) && Enabled(s, e) && e.r == r {
      match e
      case RefreshRespond(_, answer) => RefreshFails(s, r, answer);
      case RefreshRead(_, Some(g)) => RefreshHandsOut(s, r, g);
      case RefreshRead(_, None) => RefreshUnreadable(s, r);
      case RunFinally(_) =>
    }
  }

  lemma StartedWithout(s: State, e: Event, r: nat)
    requires |s.refreshes| <= r < |Step(s, e).refreshes|
    ensures Result(Step(s, e).refreshes[r]).None?
  {
    RefreshOrigin(s, e, r);
  }

  /** In every run, what a refresh has handed out are the tokens of the grant it read. */
  lemma {:induction false} ResultsAreGranted(ss: seq<State>, es: seq<Event>, k: nat, r: nat)
    requires Run(Step, ss, es) && Fresh(ss[0]) && k <= |es| && r < |ss[k].refreshes|
    requires Result(ss[k].refreshes[r]).Some?
    ensures GrantedBy(ss, es, k, r, Result(ss[k].refreshes[r]).value)
  {
    if k > 0 {
      var s, e := ss[k - 1], es[k - 1];
      assert ss[k] == Step(s, e);
      if r >= |s.refreshes| {
        StartedWithout(s, e, r);
      } else {
        ResultStep(s, e, r);
        if Result(s.refreshes[r]).Some? {
          ResultsAreGranted(ss, es, k - 1, r);
          GrantedLater(ss, es, k - 1, k, r, Result(s.refreshes[r]).value);
        }
      }
    }
  }

  lemma GrantedLater(ss: seq<State>, es: seq<Event>, k: nat, m: nat, r: nat, t: Tokens)
    requires k <= m <= |es| < |ss| && GrantedBy(ss, es, k, r, t)
    ensures GrantedBy(ss, es, m, r, t)
  {
  }

  /** And a grant once read is handed out for good. */
  lemma {:induction false} GrantsAreResults(ss: seq<State>, es: seq<Event>, j: nat, k: nat, r: nat)
    requires Run(Step, ss, es) && j < k <= |es|
    requires es[j].RefreshRead? && es[j].r == r && Enabled(ss[j], es[j]) && es[j].grant.Some?
    ensures r < |ss[k].refreshes| && Result(ss[k].refreshes[r]).Some?
    ensures Granted(Result(ss[k].refreshes[r]).value, es[j].grant.value, ss[j].now)
    decreases k
  {
    if k == j + 1 {
      ResultStep(ss[j], es[j], r);
    } else {
      GrantsAreResults(ss, es, j, k - 1, r);
      ResultStep(ss[k - 1], es[k - 1], r);
    }
  }

  /** In every run the retry of a call carries the tokens that the refresh it joined was granted. */
  lemma RetryCarriesGrant(ss: seq<State>, es: seq<Event>, k: nat, i: nat)
    requires Run(Step, ss, es) && Fresh(ss[0]) && k <= |es| && i < |ss[k].tasks| && ss[k].tasks[i].ApiTask?
    requires |ss[k].tasks[i].call.sent| > 1
    ensures var c := ss[k].tasks[i].call;
      |c.joins| == 1 && c.sent[1].auth.Some? && GrantedBy(ss, es, k, c.joins[0], c.sent[1].auth.value)
  {
    ProtocolThroughout(ss, es, k);
    assert TaskOk(ss[k], i);
    ResultsAreGranted(ss, es, k, ss[k].tasks[i].call.joins[0]);
  }

  /** And a call that joined a refresh is over without a retry exactly if that refresh was granted nothing. */
  lemma RetriedIffGranted(ss: seq<State>, es: seq<Event>, k: nat, i: nat)
    requires Run(Step, ss, es) && Fresh(ss[0]) && k <= |es| && i < |ss[k].tasks| && ss[k].tasks[i].ApiTask?
    requires ss[k].tasks[i].call.phase.Finished? && ss[k].tasks[i].call.joins != []
    ensures var c := ss[k].tasks[i].call;
      |c.sent| == 2 <==> exists t :: GrantedBy(ss, es, k, c.joins[0], t)
  {
    ProtocolThroughout(ss, es, k);
    assert TaskOk(ss[k], i);
    var r := ss[k].tasks[i].call.joins[0];
    if Result(ss[k].refreshes[r]).Some? {
      ResultsAreGranted(ss, es, k, r);
    } else {
      forall t ensures !GrantedBy(ss, es, k, r, t) {
        forall j | 0 <= j < k ensures !GrantRead(ss[j], es[j], r, t) {
          if GrantRead(ss[j], es[j], r, t) {
            GrantsAreResults(ss, es, j, k, r);
          }
        }
      }
    }
  }

  // ---------------------------------------------------------------- how a call ends

  /** The end of a call, told from its last answer and body. */
  predicate EndsAs(kind: Kind, last: Answer, body: Option<Body>, outcome: Outcome) {
    match outcome
    case NetworkError => last.Rejected?
    case HttpError(code) => last == Status(code) && !Success(last)
    case Succeeded => Success(last) && (body == Some(JsonText) || (body == Some(EmptyText) && kind == FetchWithAuth))
    case BadBody => Success(last) && !(body == Some(JsonText) || (body == Some(EmptyText) && kind == FetchWithAuth))
    case Unauthorized => last == Status(401)
  }

  /** In every run a finished call ends unauthorized if it was answered 401 and its refresh was granted nothing, and
      otherwise as its last answer and body say. */
  lemma EveryOutcome(ss: seq<State>, es: seq<Event>, k: nat, i: nat)
    requires Run(Step, ss, es) && Fresh(ss[0]) && k <= |es| && i < |ss[k].tasks| && ss[k].tasks[i].ApiTask?
    requires ss[k].tasks[i].call.phase.Finished?
    ensures var c := ss[k].tasks[i].call;
      && c.answers != [] && EndsAs(c.kind, c.answers[|c.answers| - 1], c.body, c.phase.outcome)
      && (c.phase.outcome.Unauthorized? <==> |c.answers| == 1 && c.answers[0] == Status(401))
  {
    ProtocolThroughout(ss, es, k);
    assert TaskOk(ss[k], i);
  }

  // ---------------------------------------------------------------- what is sent

  /** The stored tokens, unless they have expired. */
  function Good(s: State): Option<Tokens> {
    if s.tokens.Some? && s.now <= s.tokens.value.expiresAt then s.tokens else None
  }

  /** What a new task sends first: the stored tokens, if they are good. A logout without any sends nothing. */
  lemma StartsWith(s: State, e: Event)
    requires StartEvent(e)
    ensures var s', h := Step(s, e), Sent(Good(s), s.now);
      && |s'.tasks| == |s.tasks| + 1 && s'.tasks[..|s.tasks|] == s.tasks
      && s'.tasks[|s.tasks|] ==
         (match e
          case StartCall(kind) => ApiTask(Call(kind, [h], [], [], None, FirstTry))
          case StartSignIn(route) => SignInTask(route, SigningIn)
          case StartLogout => LogoutTask(h, Good(s).None?)
          case StartGetMe => GetMeTask(h, Asking))
  {
    TasksAfter(s, e);
  }

  /** A refresh sends good tokens that can be refreshed, and without such it is over at once, with nothing. */
  lemma RefreshSends(s: State, e: Event)
    requires StartsRefresh(s, e)
    ensures var s' := Step(s, e);
      && |s'.refreshes| == |s.refreshes| + 1
      && s'.refreshes[|s.refreshes|] ==
         (if Good(s).Some? && Good(s).value.refresh != "" then Refresh(Sent(Good(s), s.now), Fetching)
          else Refresh(Sent(None, s.now), Settled(None)))
  {
    RefreshesAfter(s, e);
  }

  /** A call that resumes with tokens sends them, and without sends nothing. */
  lemma ResumeSends(s: State, i: nat)
    requires Enabled(s, Resume(i))
    ensures var s', c := Step(s, Resume(i)), s.tasks[i].call;
      var result := s.refreshes[c.joins[|c.joins| - 1]].phase.result;
      && |s'.tasks| == |s.tasks| && s'.tasks[i].ApiTask?
      && s'.tasks[i].call.sent == c.sent + (if result.Some? then [Sent(result, s.now)] else [])
  {
  }

  lemma OnlyTicksMoveTheClock(s: State, e: Event)
    ensures Step(s, e).now == s.now + if e.Tick? then e.ms else 0
  {
  }

  // ---------------------------------------------------------------- what is stored

  /** An answer to a sign-in is read, whatever its status, and one to getMe if it was a success. */
  lemma AnswersAreRead(s: State, i: nat, answer: Answer)
    requires Enabled(s, Respond(i, answer)) && (s.tasks[i].SignInTask? || s.tasks[i].GetMeTask?)
    ensures var s' := Step(s, Respond(i, answer));
      && (forall signedIn :: Enabled(s', ReadGrant(i, signedIn)) <==> s.tasks[i].SignInTask? && answer.Status?)
      && (forall me :: Enabled(s', ReadMe(i, me)) <==> s.tasks[i].GetMeTask? && Success(answer))
      && s'.tokens == s.tokens && s'.user == s.user
  {
  }

  /** The answer that a task reads. */
  predicate AnswerTo(s: State, e: Event, i: nat, success: bool) {
    e.Respond? && e.i == i && Enabled(s, e) && e.answer.Status? && (success <==> Success(e.answer))
  }

  ghost predicate AnsweredBefore(ss: seq<State>, es: seq<Event>, k: nat, i: nat, success: bool)
    requires k <= |es| < |ss|
  {
    exists j {:trigger es[j]} | 0 <= j < k :: AnswerTo(ss[j], es[j], i, success)
  }

  predicate Reads(t: Task, success: bool) {
    (t.SignInTask? && t.signIn == ReadingGrant(success)) || (t.GetMeTask? && t.getMe == ReadingMe && success)
  }

  lemma ReadsStep(s: State, e: Event, i: nat, success: bool)
    requires i < |s.tasks| && Reads(Step(s, e).tasks[i], success)
    ensures Reads(s.tasks[i], success) || AnswerTo(s, e, i, success)
  {
    TaskMovesOn(s, e, i);
    if TaskEvent(e) && e.i == i && Enabled(s, e) {
      ContinuedReads(s, e, success);
    }
  }

  lemma ContinuedReads(s: State, e: Event, success: bool)
    requires TaskEvent(e) && Enabled(s, e) && Reads(Step(s, e).tasks[e.i], success)
    ensures AnswerTo(s, e, e.i, success)
  {
  }

  lemma {:induction false} ReadsAfterAnswer(ss: seq<State>, es: seq<Event>, k: nat, i: nat, success: bool)
    requires Run(Step, ss, es) && Fresh(ss[0]) && k <= |es| && i < |ss[k].tasks| && Reads(ss[k].tasks[i], success)
    ensures AnsweredBefore(ss, es, k, i, success)
  {
    var s, e := ss[k - 1], es[k - 1];
    assert ss[k] == Step(s, e);
    if i >= |s.tasks| {
      TaskOrigin(s, e, i);
    } else {
      ReadsStep(s, e, i, success);
      if Reads(s.tasks[i], success) {
        ReadsAfterAnswer(ss, es, k - 1, i, success);
      }
    }
  }

  /** In every run: what a sign-in reads was answered before, and it stores tokens and user as granted exactly if that
      answer was a success and could be read. Otherwise it leaves the store as it is. */
  lemma SignInStores(ss: seq<State>, es: seq<Event>, k: nat, i: nat, signedIn: Option<(Grant, User)>)
    requires Run(Step, ss, es) && Fresh(ss[0]) && k < |es| && es[k] == ReadGrant(i, signedIn) && Enabled(ss[k], es[k])
    ensures exists success ::
      && AnsweredBefore(ss, es, k, i, success)
      && if success && signedIn.Some?
         then ss[k + 1].tokens.Some? && SignedIn(ss[k + 1].tokens.value, ss[k].tasks[i].route, signedIn.value.0, ss[k].now)
              && ss[k + 1].user == Some(signedIn.value.1)
         else ss[k + 1].tokens == ss[k].tokens && ss[k + 1].user == ss[k].user
  {
    var ok := ss[k].tasks[i].signIn.ok;
    ReadsAfterAnswer(ss, es, k, i, ok);
    assert ss[k + 1] == Step(ss[k], es[k]);
  }

  /** getMe stores its user after a success, beside good tokens. */
  lemma GetMeStores(ss: seq<State>, es: seq<Event>, k: nat, i: nat, me: Option<User>)
    requires Run(Step, ss, es) && Fresh(ss[0]) && k < |es| && es[k] == ReadMe(i, me) && Enabled(ss[k], es[k])
    ensures AnsweredBefore(ss, es, k, i, true)
    ensures var s, s' := ss[k], ss[k + 1];
      if me.None? || s.tokens.None? then s'.tokens == s.tokens && s'.user == s.user
      else if Good(s).Some? then s'.tokens == s.tokens && s'.user == me
      else Empty(s')
  {
    ReadsAfterAnswer(ss, es, k, i, true);
    assert ss[k + 1] == Step(ss[k], es[k]);
  }

  /** What any other step makes of the store: it empties it, or it leaves it but for a user set. */
  lemma OtherwiseStored(s: State, e: Event)
    requires Enabled(s, e) && !e.ReadGrant? && !e.ReadMe? && !e.RefreshRead? && !e.RefreshRespond?
    ensures var s' := Step(s, e);
      var ends := (e.Respond? && s.tasks[e.i].LogoutTask?) || (e.Resume? && ResumedWith(s, e.i).None?)
                  || (e.StartLogout? && Good(s).None?);
      var looks := e.ReadSession? || e.StartCall? || e.StartLogout? || e.StartGetMe? || StartsRefresh(s, e);
      if ends || (looks && s.tokens.Some? && Good(s).None?) then Empty(s')
      else s'.tokens == s.tokens && s'.user == (if e.SetUser? then Some(e.u) else s.user)
  {
    if e.Respond? && s.tasks[e.i].ApiTask? {
      CallAnswered(s, e.i, e.answer);
    }
  }

  lemma CallAnswered(s: State, i: nat, answer: Answer)
    requires Enabled(s, Respond(i, answer)) && s.tasks[i].ApiTask?
    ensures var s' := Step(s, Respond(i, answer));
      if StartsRefresh(s, Respond(i, answer)) && s.tokens.Some? && Good(s).None? then Empty(s')
      else s'.tokens == s.tokens && s'.user == s.user
  {
  }
}
