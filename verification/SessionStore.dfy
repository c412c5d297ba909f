/** What every run does to the store: pairing, no revival, fresh headers. */
module SessionStore {
  import opened Options
  import opened Runs
  import opened SessionModel
  import opened SessionSteps

  // ---------------------------------------------------------------- tokens and user come in pairs

  predicate Paired(s: State) { s.tokens.Some? <==> s.user.Some? }

  /** setStoredUser on an empty store. */
  predicate OrphanUser(s: State, e: Event) { e.SetUser? && s.user.None? }

  lemma PairedStep(s: State, e: Event)
    requires Paired(s)
    ensures Paired(Step(s, e)) <==> !OrphanUser(s, e)
  {
  }

  /** The two entries stay present together through any interleaving of sign-ins, refreshes,
      getMe, logout and expiry, and setStoredUser on an empty store is the one thing that parts them. */
  lemma PairedThroughout(ss: seq<State>, es: seq<Event>)
    requires Run(Step, ss, es) && Paired(ss[0])
    ensures Always(Paired, ss) <==> !SomeStep(OrphanUser, ss, es, |es|)
  {
    forall k | 0 <= k < |es| ensures KeepsUnlessBad(Step, Paired, OrphanUser, ss[k], es[k]) {
      if Paired(ss[k]) {
        PairedStep(ss[k], es[k]);
      }
    }
    KeptIffNoBadStep(Step, Paired, OrphanUser, ss, es);
  }

  /** On a page without a session setStoredUser does part them. */
  lemma UserWithoutTokens()
    ensures exists ss: seq<State>, es: seq<Event> ::
      Run(Step, ss, es) && Fresh(ss[0]) && Empty(ss[0]) && ss[|es|].user.Some? && ss[|es|].tokens.None?
  {
    var es := [SetUser(User(1, "u"))];
    var ss := EveryListRuns(Step, State(0, None, None, None, [], []), es);
    assert ss[1] == Step(ss[0], es[0]);
    assert ss[|es|].user.Some?;
  }

  // ---------------------------------------------------------------- an emptied store stays empty

  predicate Empty(s: State) { s.tokens.None? && s.user.None? }

  /** The step that completes a login, a registration or an OAuth callback. */
  predicate SignsIn(s: State, e: Event) {
    Enabled(s, e) && e.ReadGrant? && s.tasks[e.i].signIn.ok && e.signedIn.Some?
  }

  predicate Revives(s: State, e: Event) { SignsIn(s, e) || e.SetUser? }

  lemma EmptyStep(s: State, e: Event)
    requires Empty(s)
    ensures Empty(Step(s, e)) <==> !Revives(s, e)
  {
  }

  /** From an empty store, with anything in flight, late refresh and getMe answers included:
      the store stays empty exactly until a sign-in completes or setStoredUser is called. */
  lemma EmptyThroughout(ss: seq<State>, es: seq<Event>)
    requires Run(Step, ss, es) && Empty(ss[0])
    ensures Always(Empty, ss) <==> !SomeStep(Revives, ss, es, |es|)
  {
    forall k | 0 <= k < |es| ensures KeepsUnlessBad(Step, Empty, Revives, ss[k], es[k]) {
      if Empty(ss[k]) {
        EmptyStep(ss[k], es[k]);
      }
    }
    KeptIffNoBadStep(Step, Empty, Revives, ss, es);
  }

  /** A page with a session whose one API call is refused, so that a refresh is on its way; the state after k
      of the events. Runs that go wrong from here follow. */
  function PendingRefreshEvents(): seq<Event> {
    [StartCall(FetchWithAuth), Respond(0, Status(401)), RefreshRespond(0, Status(200))]
  }

  function PendingRefresh(k: nat): State {
    var t := Some(Tokens("a", "r", 100, 1));
    var h := Sent(t, 0);
    var s0 := State(0, t, Some(User(1, "u")), None, [], []);
    var s2 := s0.(tasks := [ApiTask(Call(FetchWithAuth, [h], [Status(401)], [0], None, Waiting))],
                  lock := Some(0), refreshes := [Refresh(h, Fetching)]);
    if k == 0 then s0
    else if k == 1 then s0.(tasks := [ApiTask(Call(FetchWithAuth, [h], [], [], None, FirstTry))])
    else if k == 2 then s2
    else s2.(refreshes := [Refresh(h, ReadingTokens)])
  }

  lemma PendingRefreshStep(k: nat)
    requires k < 3
    ensures Step(PendingRefresh(k), PendingRefreshEvents()[k]) == PendingRefresh(k + 1)
  {
    var s, s' := Step(PendingRefresh(k), PendingRefreshEvents()[k]), PendingRefresh(k + 1);
    if k == 1 {
      assert s.tasks[0].call.answers == s'.tasks[0].call.answers && s.tasks[0].call.joins == s'.tasks[0].call.joins;
    }
    assert s.tasks == s'.tasks && s.refreshes == s'.refreshes;
  }

  /** The user logs out while the refresh is pending, and setStoredUser comes after. */
  function RevivalEvents(): seq<Event> {
    PendingRefreshEvents() +
    [StartLogout, Respond(1, Status(200)), SetUser(User(1, "u")), RefreshRead(0, Some(Grant("b", "q", 100, 1)))]
  }

  function Revival(k: nat): State {
    var s3 := PendingRefresh(3);
    var h := Sent(s3.tokens, 0);
    var s5 := s3.(tokens := None, user := None, tasks := s3.tasks + [LogoutTask(h, true)]);
    var t := Some(Tokens("b", "q", 100000, 1));
    if k <= 3 then PendingRefresh(k)
    else if k == 4 then s3.(tasks := s3.tasks + [LogoutTask(h, false)])
    else if k == 5 then s5
    else if k == 6 then s5.(user := Some(User(1, "u")))
    else s5.(user := Some(User(1, "u")), tokens := t, refreshes := [Refresh(h, Settled(t))])
  }

  lemma RevivalStep(k: nat)
    requires 3 <= k < 7
    ensures Step(Revival(k), RevivalEvents()[k]) == Revival(k + 1)
  {
    var s, s' := Step(Revival(k), RevivalEvents()[k]), Revival(k + 1);
    assert s.tasks == s'.tasks && s.refreshes == s'.refreshes;
  }

  /** Tokens without a sign-in: from a loaded page on, a logout empties the store, setStoredUser puts a user
      into it, and the late refresh answer then stores its tokens. */
  lemma OrphanUserLetsRefreshRevive()
    ensures exists ss: seq<State>, es: seq<Event>, j: nat ::
      && Run(Step, ss, es) && Fresh(ss[0])
      && !SomeStep(SignsIn, ss, es, |es|)
      && j < |ss| && Empty(ss[j]) && ss[|es|].tokens.Some?
  {
    var es := RevivalEvents();
    var ss := seq(8, k requires 0 <= k => Revival(k));
    forall k | 0 <= k < |es| ensures ss[k + 1] == Step(ss[k], es[k]) {
      if k < 3 {
        PendingRefreshStep(k);
      } else {
        RevivalStep(k);
      }
    }
    assert Run(Step, ss, es);
    assert Empty(ss[5]) && ss[7].tokens.Some?;
    assert !SomeStep(SignsIn, ss, es, |es|);
  }

  /** The steps that read the stored tokens, expiry check included. */
  predicate ReadsTokens(s: State, e: Event) {
    e.ReadSession? || e.StartCall? || e.StartLogout? || e.StartGetMe? || (e.ReadMe? && e.me.Some?) || StartsRefresh(s, e)
  }

  /** The ways to end a session: reading expired tokens, logging out, a refresh that fails, and a call that
      resumes without tokens. */
  predicate EndsSession(s: State, e: Event)
    requires s.tokens.Some?
  {
    Enabled(s, e) &&
    match e
    case Respond(i, _) => s.tasks[i].LogoutTask? || (StartsRefresh(s, e) && Expired(s.tokens.value, s.now))
    case RefreshRespond(_, answer) => !(answer.Status? && Ok(answer.code))
    case RefreshRead(_, grant) => grant.None?
    case Resume(i) => ResumedWith(s, i).None?
    case _ => ReadsTokens(s, e) && Expired(s.tokens.value, s.now)
  }

  lemma WhatEmpties(s: State, e: Event)
    requires Paired(s) && !Empty(s)
    ensures Empty(Step(s, e)) <==> EndsSession(s, e)
  {
    if e.Respond? && Enabled(s, e) && s.tasks[e.i].ApiTask? {
      ResponseEmpties(s, e.i, e.answer);
    }
  }

  lemma ResponseEmpties(s: State, i: nat, answer: Answer)
    requires Paired(s) && !Empty(s) && Enabled(s, Respond(i, answer)) && s.tasks[i].ApiTask?
    ensures Empty(Step(s, Respond(i, answer))) <==> StartsRefresh(s, Respond(i, answer)) && Expired(s.tokens.value, s.now)
  {
  }

  // ---------------------------------------------------------------- a refresh keeps the user

  /** No step of a refresh replaces the stored user: it keeps the user, or empties the whole store.
      When it does store tokens, they are the ones it hands to its waiters. */
  lemma RefreshKeepsUser(s: State, e: Event)
    requires RefreshEvent(e) && Enabled(s, e)
    ensures Step(s, e).user == s.user || Empty(Step(s, e))
    ensures Step(s, e).tokens != s.tokens && !Empty(Step(s, e)) ==>
              s.user.Some? && Step(s, e).refreshes[e.r].phase == Settled(Step(s, e).tokens)
  {
  }

  predicate ReplacesUser(s: State, e: Event) { SignsIn(s, e) || e.ReadMe? || e.SetUser? }

  /** So over a whole run of calls, refreshes, logouts and expiries the stored user is the first one or none. */
  lemma {:induction false} UserOutlastsRefreshes(ss: seq<State>, es: seq<Event>, k: nat)
    requires Run(Step, ss, es) && k <= |es| && !SomeStep(ReplacesUser, ss, es, k)
    ensures ss[k].user == ss[0].user || ss[k].user.None?
  {
    if k > 0 {
      UserOutlastsRefreshes(ss, es, k - 1);
      assert !ReplacesUser(ss[k - 1], es[k - 1]);
      UserStep(ss[k - 1], es[k - 1]);
    }
  }

  lemma UserStep(s: State, e: Event)
    requires !ReplacesUser(s, e)
    ensures Step(s, e).user == s.user || Step(s, e).user.None?
  {
  }

  // ---------------------------------------------------------------- how long a session lasts

  /** What isAuthenticated answers. */
  predicate Authenticated(s: State) { s.tokens.Some? && s.now < s.tokens.value.expiresAt }

  /** The lifetime in milliseconds that a sign-in or a refresh grants. An OAuth answer names the end itself. */
  function Lifetime(s: State, e: Event): int
    requires (SignsIn(s, e) || (e.RefreshRead? && e.grant.Some?))
  {
    match e
    case ReadGrant(i, Some((g, _))) => if s.tasks[i].route == OAuth then g.expires - s.now else g.expires * 1000
    case RefreshRead(_, Some(g)) => g.expires * 1000
  }

  /** A session that a sign-in or a refresh stores is authenticated for exactly the lifetime granted: left
      alone for `ms` it still is if `ms` is less, and the first read after the end empties the store. */
  lemma SessionLasts(s: State, e: Event, ms: nat)
    requires Enabled(s, e) && (SignsIn(s, e) || (e.RefreshRead? && e.grant.Some? && s.user.Some?))
    ensures var s' := Step(Step(s, e), Tick(ms));
      && (Authenticated(s') <==> ms < Lifetime(s, e))
      && (Empty(Step(s', ReadSession)) <==> ms > Lifetime(s, e))
  {
  }

  // ---------------------------------------------------------------- headers and refresh requests are fresh

  predicate FreshlyBuilt(h: Sent) { h.auth.Some? ==> h.at <= h.auth.value.expiresAt }

  predicate TaskFresh(t: Task) {
    match t
    case ApiTask(c) => c.sent != [] && FreshlyBuilt(c.sent[0])
    case SignInTask(_, _) => true
    case LogoutTask(h, _) => FreshlyBuilt(h)
    case GetMeTask(h, _) => FreshlyBuilt(h)
  }

  predicate RefreshFresh(r: Refresh) {
    FreshlyBuilt(r.request) && (r.request.auth.Some? ==> r.request.auth.value.refresh != "")
  }

  predicate HeadersFresh(s: State) {
    && (forall i | 0 <= i < |s.tasks| :: TaskFresh(s.tasks[i]))
    && (forall r | 0 <= r < |s.refreshes| :: RefreshFresh(s.refreshes[r]))
  }

  lemma TaskFreshStep(s: State, e: Event, i: nat)
    requires i < |s.tasks| ==> TaskFresh(s.tasks[i])
    ensures i < |Step(s, e).tasks| ==> TaskFresh(Step(s, e).tasks[i])
  {
    if i < |s.tasks| {
      TaskMovesOn(s, e, i);
    } else if i < |Step(s, e).tasks| {
      TaskOrigin(s, e, i);
    }
  }

  lemma RefreshFreshStep(s: State, e: Event, r: nat)
    requires r < |s.refreshes| ==> RefreshFresh(s.refreshes[r])
    ensures r < |Step(s, e).refreshes| ==> RefreshFresh(Step(s, e).refreshes[r])
  {
    if r < |s.refreshes| {
      EachRefreshMovesOn(s, e, r);
    } else if r < |Step(s, e).refreshes| {
      RefreshOrigin(s, e, r);
    }
  }

  /** Over every run: a first attempt, a logout, a getMe and a refresh request carry tokens that
      had not expired on the clock of the step that built them. */
  lemma {:induction false} HeadersFreshThroughout(ss: seq<State>, es: seq<Event>, k: nat)
    requires Run(Step, ss, es) && Fresh(ss[0]) && k <= |es|
    ensures HeadersFresh(ss[k])
  {
    if k > 0 {
      HeadersFreshThroughout(ss, es, k - 1);
      var s0, e := ss[k - 1], es[k - 1];
      forall i: nat | i < |Step(s0, e).tasks| ensures TaskFresh(Step(s0, e).tasks[i]) {
        TaskFreshStep(s0, e, i);
      }
      forall r: nat | r < |Step(s0, e).refreshes| ensures RefreshFresh(Step(s0, e).refreshes[r]) {
        RefreshFreshStep(s0, e, r);
      }
    }
  }
}
