/** Whose tokens sit beside whose user: when the store can mix two accounts. */
module SessionOwnership {
  import opened Options
  import opened Runs
  import opened SessionModel
  import opened SessionSteps
  import opened SessionStore

  /** The stored tokens were issued for the stored user. */
  predicate Owned(s: State) {
    s.tokens.Some? && s.user.Some? ==> s.tokens.value.owner == s.user.value.account
  }

  /** A server that keeps accounts apart: it signs a user in with that user's tokens, refreshes tokens
      with tokens of the same account, and tells a bearer who they are. */
  predicate Honest(s: State, e: Event) {
    Enabled(s, e) ==>
      match e
      case ReadGrant(_, Some((g, u))) => g.owner == u.account
      case RefreshRead(r, Some(g)) => s.refreshes[r].request.auth.Some? && g.owner == s.refreshes[r].request.auth.value.owner
      case ReadMe(i, Some(u)) => s.tasks[i].header.auth.Some? && u.account == s.tasks[i].header.auth.value.owner
      case _ => true
  }

  ghost predicate HonestRun(ss: seq<State>, es: seq<Event>) {
    Run(Step, ss, es) && forall k {:trigger es[k]} | 0 <= k < |es| :: Honest(ss[k], es[k])
  }

  /** A late answer, or a setStoredUser, that meets the other half of the store in another account's hands. */
  predicate Crosses(s: State, e: Event) {
    Enabled(s, e) &&
    match e
    case RefreshRead(_, Some(g)) => s.user.Some? && s.user.value.account != g.owner
    case ReadMe(_, Some(u)) => AfterRead(s).tokens.Some? && AfterRead(s).tokens.value.owner != u.account
    case SetUser(u) => s.tokens.Some? && s.tokens.value.owner != u.account
    case _ => false
  }

  lemma OwnedStep(s: State, e: Event)
    requires Owned(s) && Honest(s, e)
    ensures Owned(Step(s, e)) <==> !Crosses(s, e)
  {
  }

  /** With an honest server, the store mixes two accounts exactly when some late answer crosses. */
  lemma OwnedThroughout(ss: seq<State>, es: seq<Event>)
    requires HonestRun(ss, es) && Owned(ss[0])
    ensures Always(Owned, ss) <==> !SomeStep(Crosses, ss, es, |es|)
  {
    forall k | 0 <= k < |es| ensures KeepsUnlessBad(Step, Owned, Crosses, ss[k], es[k]) {
      if Owned(ss[k]) {
        OwnedStep(ss[k], es[k]);
      }
    }
    KeptIffNoBadStep(Step, Owned, Crosses, ss, es);
  }

  // ---------------------------------------------------------------- when no answer can cross

  predicate RefreshFor(r: Refresh, a: Account) {
    (r.phase.Fetching? || r.phase.ReadingTokens?) && r.request.auth.Some? ==> r.request.auth.value.owner == a
  }

  predicate TaskFor(t: Task, a: Account) {
    t.GetMeTask? && !t.getMe.GetMeOver? && t.header.auth.Some? ==> t.header.auth.value.owner == a
  }

  /** Every refresh and every getMe still in flight was started with tokens of account `a`. */
  predicate InFlightFor(s: State, a: Account) {
    && (forall r: nat | r < |s.refreshes| :: RefreshFor(s.refreshes[r], a))
    && (forall i: nat | i < |s.tasks| :: TaskFor(s.tasks[i], a))
  }

  predicate Aligned(s: State) {
    Paired(s) && Owned(s) && (s.user.Some? ==> InFlightFor(s, s.user.value.account))
  }

  /** A sign-in completes only while what is in flight is its own account's, and setStoredUser
      only updates the user who is signed in. */
  predicate Orderly(s: State, e: Event) {
    && (SignsIn(s, e) ==> InFlightFor(s, e.signedIn.value.1.account))
    && (e.SetUser? ==> s.user.Some? && s.user.value.account == e.u.account)
  }

  lemma RefreshForStep(s: State, e: Event, a: Account, r: nat)
    requires s.tokens.Some? ==> s.tokens.value.owner == a
    requires r < |s.refreshes| ==> RefreshFor(s.refreshes[r], a)
    ensures r < |Step(s, e).refreshes| ==> RefreshFor(Step(s, e).refreshes[r], a)
  {
    if r < |s.refreshes| {
      EachRefreshMovesOn(s, e, r);
    } else if r < |Step(s, e).refreshes| {
      RefreshOrigin(s, e, r);
    }
  }

  lemma TaskForStep(s: State, e: Event, a: Account, i: nat)
    requires s.tokens.Some? ==> s.tokens.value.owner == a
    requires i < |s.tasks| ==> TaskFor(s.tasks[i], a)
    ensures i < |Step(s, e).tasks| ==> TaskFor(Step(s, e).tasks[i], a)
  {
    if i < |s.tasks| {
      TaskMovesOn(s, e, i);
    } else if i < |Step(s, e).tasks| {
      TaskOrigin(s, e, i);
    }
  }

  lemma InFlightForStep(s: State, e: Event, a: Account)
    requires s.tokens.Some? ==> s.tokens.value.owner == a
    requires InFlightFor(s, a)
    ensures InFlightFor(Step(s, e), a)
  {
    forall r: nat | r < |Step(s, e).refreshes| ensures RefreshFor(Step(s, e).refreshes[r], a) {
      RefreshForStep(s, e, a, r);
    }
    forall i: nat | i < |Step(s, e).tasks| ensures TaskFor(Step(s, e).tasks[i], a) {
      TaskForStep(s, e, a, i);
    }
  }

  /** A sign-in itself starts nothing and answers nothing else. */
  lemma SignInKeepsInFlight(s: State, e: Event, a: Account)
    requires SignsIn(s, e) && InFlightFor(s, a)
    ensures InFlightFor(Step(s, e), a)
  {
  }

  lemma WhoIsStored(s: State, e: Event)
    requires Aligned(s) && Honest(s, e) && Orderly(s, e)
    ensures Paired(Step(s, e)) && Owned(Step(s, e))
    ensures Step(s, e).user.Some? && !SignsIn(s, e) ==>
              s.user.Some? && Step(s, e).user.value.account == s.user.value.account
    ensures SignsIn(s, e) ==> Step(s, e).user == Some(e.signedIn.value.1)
  {
    if Enabled(s, e) && e.RefreshRead? {
      assert RefreshFor(s.refreshes[e.r], 0) || s.refreshes[e.r].request.auth.Some?;
    }
    if Enabled(s, e) && e.ReadMe? {
      assert TaskFor(s.tasks[e.i], 0) || s.tasks[e.i].header.auth.Some?;
    }
  }

  lemma AlignedStep(s: State, e: Event)
    requires Aligned(s) && Honest(s, e) && Orderly(s, e)
    ensures Aligned(Step(s, e))
  {
    WhoIsStored(s, e);
    if Step(s, e).user.Some? {
      if SignsIn(s, e) {
        SignInKeepsInFlight(s, e, e.signedIn.value.1.account);
      } else {
        InFlightForStep(s, e, s.user.value.account);
      }
    }
  }

  predicate Disorderly(s: State, e: Event) { !Orderly(s, e) }

  lemma DisorderMisaligns(s: State, e: Event)
    requires Aligned(s) && !Orderly(s, e)
    ensures !Aligned(Step(s, e))
  {
    if SignsIn(s, e) {
      var a := e.signedIn.value.1.account;
      if !(forall r: nat | r < |s.refreshes| :: RefreshFor(s.refreshes[r], a)) {
        var r: nat :| r < |s.refreshes| && !RefreshFor(s.refreshes[r], a);
        assert !RefreshFor(Step(s, e).refreshes[r], a);
      } else {
        var i: nat :| i < |s.tasks| && !TaskFor(s.tasks[i], a);
        assert !TaskFor(Step(s, e).tasks[i], a);
      }
    }
  }

  /** With an honest server, tokens belong to the stored user, and everything in flight to the same account,
      throughout a run exactly when each sign-in completes only while what is in flight is its own account's
      and setStoredUser only updates the user signed in. */
  lemma AlignedThroughout(ss: seq<State>, es: seq<Event>)
    requires HonestRun(ss, es) && Aligned(ss[0])
    ensures Always(Aligned, ss) <==> !SomeStep(Disorderly, ss, es, |es|)
  {
    forall k | 0 <= k < |es| ensures KeepsUnlessBad(Step, Aligned, Disorderly, ss[k], es[k]) {
      if Aligned(ss[k]) {
        if Orderly(ss[k], es[k]) {
          AlignedStep(ss[k], es[k]);
        } else {
          DisorderMisaligns(ss[k], es[k]);
        }
      }
    }
    KeptIffNoBadStep(Step, Aligned, Disorderly, ss, es);
  }

  // ---------------------------------------------------------------- a run that mixes two accounts

  /** While a refresh of account 1 is pending, account 2 signs in. */
  function MixingEvents(): seq<Event> {
    PendingRefreshEvents() +
    [StartSignIn(Password), Respond(1, Status(200)), ReadGrant(1, Some((Grant("c", "p", 10, 2), User(2, "v")))),
     RefreshRead(0, Some(Grant("b", "q", 100, 1)))]
  }

  function Mixing(k: nat): State {
    var s3 := PendingRefresh(3);
    var t := Some(Tokens("b", "q", 100000, 1));
    var s6 := s3.(tokens := Some(Tokens("c", "p", 10000, 2)), user := Some(User(2, "v")),
                  tasks := s3.tasks + [SignInTask(Password, SignInOver)]);
    if k <= 3 then PendingRefresh(k)
    else if k == 4 then s3.(tasks := s3.tasks + [SignInTask(Password, SigningIn)])
    else if k == 5 then s3.(tasks := s3.tasks + [SignInTask(Password, ReadingGrant(true))])
    else if k == 6 then s6
    else s6.(tokens := t, refreshes := [Refresh(s3.refreshes[0].request, Settled(t))])
  }

  lemma MixingStep(k: nat)
    requires 3 <= k < 7
    ensures Step(Mixing(k), MixingEvents()[k]) == Mixing(k + 1) && Honest(Mixing(k), MixingEvents()[k])
  {
    var s, s' := Step(Mixing(k), MixingEvents()[k]), Mixing(k + 1);
    assert s.tasks == s'.tasks && s.refreshes == s'.refreshes;
  }

  lemma MixingRun() returns (ss: seq<State>, es: seq<Event>)
    ensures HonestRun(ss, es) && |es| == 7
    ensures ss[0] == Mixing(0) && ss[5] == Mixing(5) && es[5] == MixingEvents()[5] && ss[7] == Mixing(7)
  {
    es := MixingEvents();
    ss := seq(8, k requires 0 <= k => Mixing(k));
    forall k | 0 <= k < |es| ensures ss[k + 1] == Step(ss[k], es[k]) && Honest(ss[k], es[k]) {
      if k < 3 {
        PendingRefreshStep(k);
      } else {
        MixingStep(k);
      }
    }
  }

  /** From a loaded page on, with an honest server: a sign-in that completes while another account's refresh is
      pending, and the refresh then stores tokens of account 1 beside the user of account 2. */
  lemma LoginDuringRefreshMixesAccounts()
    ensures exists ss: seq<State>, es: seq<Event> ::
      HonestRun(ss, es) && Fresh(ss[0]) && Aligned(ss[0]) && SomeStep(SignsIn, ss, es, |es|) && !Owned(ss[|es|])
  {
    var ss, es := MixingRun();
    assert es[5].ReadGrant? && SignsIn(ss[5], es[5]);
    assert Fresh(ss[0]) && Aligned(ss[0]) && !Owned(ss[7]);
  }
}
