/** What holds of the toast store in every run. */
module ToastProperties {
  import opened Options
  import opened Runs
  import opened ToastModel

  /** Number.MAX_SAFE_INTEGER, at which the counter starts over. */
  const WRAP: nat := 9007199254740991

  // ---------------------------------------------------------------- the list: bounded, newest first

  predicate Descending(ts: seq<Toast>) {
    forall i, j | 0 <= i < j < |ts| :: ts[i].id > ts[j].id
  }

  predicate Has(ts: seq<Toast>, id: nat) { exists i :: 0 <= i < |ts| && ts[i].id == id }

  predicate Ordered(s: State) {
    && |s.toasts| <= 5
    && Descending(s.toasts)
    && forall i | 0 <= i < |s.toasts| :: 1 <= s.toasts[i].id <= s.count
  }

  /** Removing an id keeps exactly the other toasts, in order. */
  lemma {:induction false} WithoutIs(ts: seq<Toast>, id: nat)
    ensures |Without(ts, id)| <= |ts|
    ensures forall t :: t in Without(ts, id) <==> t in ts && t.id != id
  {
    if ts != [] {
      WithoutIs(ts[..|ts| - 1], id);
      assert ts == ts[..|ts| - 1] + [ts[|ts| - 1]];
    }
  }

  lemma {:induction false} WithoutDescends(ts: seq<Toast>, id: nat)
    requires Descending(ts)
    ensures Descending(Without(ts, id))
  {
    if ts != [] {
      var init, last := ts[..|ts| - 1], ts[|ts| - 1];
      WithoutDescends(init, id);
      WithoutIs(init, id);
      var kept := Without(init, id);
      forall i | 0 <= i < |kept| ensures kept[i].id > last.id {
        assert kept[i] in init;
      }
    }
  }

  lemma SameIds(s: State, a: Action)
    requires a.UpdateToast? || a.DismissToast?
    ensures |Reduced(s.toasts, a)| == |s.toasts|
    ensures forall i | 0 <= i < |s.toasts| :: Reduced(s.toasts, a)[i].id == s.toasts[i].id
  {
  }

  /** Arming timers touches nothing but the timers. */
  lemma {:induction false} ArmedEachTouches(s: State, ts: seq<Toast>)
    ensures ArmedEach(s, ts) == s.(timeouts := ArmedEach(s, ts).timeouts, timers := ArmedEach(s, ts).timers, handles := ArmedEach(s, ts).handles)
  {
    if ts != [] {
      ArmedEachTouches(s, ts[..|ts| - 1]);
    }
  }

  lemma DispatchTouches(s: State, a: Action)
    ensures var s' := Dispatched(s, a);
      && s'.toasts == Reduced(s.toasts, a) && s'.count == s.count && s'.now == s.now && s'.listeners == s.listeners
      && s'.views == Notified(s.views, s.listeners, s'.toasts)
      && s'.timeouts == ArmedFor(s, a).timeouts && s'.timers == ArmedFor(s, a).timers && s'.handles == ArmedFor(s, a).handles
  {
    ArmedEachTouches(s, s.toasts);
  }

  lemma OrderedShow(s: State, body: string)
    requires Ordered(s) && s.count + 1 < WRAP
    ensures Ordered(Step(s, Show(body))) && Step(s, Show(body)).count == s.count + 1
  {
    DispatchTouches(s.(count := NextId(s.count)), AddToast(Toast(NextId(s.count), true, body)));
    var s' := Step(s, Show(body));
    assert s'.toasts[0].id == s.count + 1 && |s'.toasts| <= 5;
    assert forall i | 1 <= i < |s'.toasts| :: s'.toasts[i] == s.toasts[i - 1];
  }

  lemma OrderedFire(s: State, h: nat)
    requires Ordered(s) && Enabled(s, Fire(h))
    ensures Ordered(Step(s, Fire(h)))
  {
    var id, s' := s.timers[h].id, Step(s, Fire(h));
    WithoutIs(s.toasts, id);
    WithoutDescends(s.toasts, id);
    forall i | 0 <= i < |s'.toasts| ensures 1 <= s'.toasts[i].id <= s.count {
      assert s'.toasts[i] in s.toasts;
    }
  }

  lemma OrderedStep(s: State, e: Event)
    requires Ordered(s) && (e.Show? ==> s.count + 1 < WRAP)
    ensures Ordered(Step(s, e)) && Step(s, e).count == s.count + (if e.Show? then 1 else 0)
  {
    if Enabled(s, e) {
      match e
      case Show(body) => OrderedShow(s, body);
      case Update(id, open, text) => SameIds(s, UpdateToast(id, open, text));
      case Dismiss(target) =>
        DispatchTouches(s, DismissToast(target));
        SameIds(s, DismissToast(target));
      case Fire(h) => OrderedFire(s, h);
      case _ =>
    }
  }

  /** Until the counter wraps around, the list is bounded and its ids fall from newest to oldest. */
  lemma {:induction false} OrderedThroughout(ss: seq<State>, es: seq<Event>, k: nat)
    requires Run(Step, ss, es) && Initial(ss[0]) && k <= |es| && Shown(es, k) < WRAP
    ensures Ordered(ss[k]) && ss[k].count == Shown(es, k)
  {
    if k > 0 {
      OrderedThroughout(ss, es, k - 1);
      OrderedStep(ss[k - 1], es[k - 1]);
    }
  }

  /** The order lasts just as long as the counter does: the toast that wraps it gets an id below all others. */
  lemma OrderEndsWithTheCounter(s: State, body: string)
    requires Ordered(s) && s.toasts != [] && s.count < WRAP
    ensures Descending(Step(s, Show(body)).toasts) <==> s.count + 1 < WRAP
  {
    var s' := Step(s, Show(body));
    DispatchTouches(s.(count := NextId(s.count)), AddToast(Toast(NextId(s.count), true, body)));
    assert s'.toasts[1] == s.toasts[0] && 1 <= s.toasts[0].id;
    if s.count + 1 < WRAP {
      OrderedShow(s, body);
    } else {
      assert s'.toasts[0].id == 0;
    }
  }

  lemma {:induction false} ShownGrows(es: seq<Event>, j: nat, k: nat)
    requires j <= k <= |es|
    ensures Shown(es, j) <= Shown(es, k)
  {
    if j < k {
      ShownGrows(es, j, k - 1);
    }
  }

  /** The step at which n ids have been generated. */
  lemma {:induction false} ShownReaches(es: seq<Event>, n: nat, k: nat) returns (j: nat)
    requires k <= |es| && 0 < n <= Shown(es, k)
    ensures 0 < j <= k && es[j - 1].Show? && Shown(es, j) == n && Shown(es, j - 1) == n - 1
  {
    if Shown(es, k - 1) == n - 1 {
      return k;
    }
    j := ShownReaches(es, n, k - 1);
  }

  /** Over a run: the list is bounded and its ids fall throughout exactly when fewer ids are generated than the
      counter can count. */
  lemma OrderedUntilTheWrap(ss: seq<State>, es: seq<Event>)
    requires Run(Step, ss, es) && Initial(ss[0])
    ensures Always(Ordered, ss) <==> Shown(es, |es|) < WRAP
  {
    if Shown(es, |es|) < WRAP {
      forall k | 0 <= k < |ss| ensures Ordered(ss[k]) {
        ShownGrows(es, k, |es|);
        OrderedThroughout(ss, es, k);
      }
    } else {
      var j := ShownReaches(es, WRAP, |es|);
      OrderedThroughout(ss, es, j - 1);
      WrapDisorders(ss[j - 1], es[j - 1].body);
      assert !Ordered(ss[j]);
    }
  }

  lemma WrapDisorders(s: State, body: string)
    requires s.count + 1 == WRAP
    ensures !Ordered(Step(s, Show(body)))
  {
    var s' := Step(s, Show(body));
    DispatchTouches(s.(count := NextId(s.count)), AddToast(Toast(NextId(s.count), true, body)));
    assert s'.toasts[0].id == 0;
  }

  lemma ShownAll(es: seq<Event>, k: nat)
    requires k <= |es| && forall i | 0 <= i < |es| :: es[i].Show?
    ensures Shown(es, k) == k
  {
    if k > 0 {
      ShownAll(es, k - 1);
    }
  }

  lemma ShowsSomething(s: State, body: string)
    ensures Step(s, Show(body)).toasts != []
  {
    DispatchTouches(s.(count := NextId(s.count)), AddToast(Toast(NextId(s.count), true, body)));
  }

  /** Once as many toasts have been shown as the counter counts, the newest one has the smallest id. */
  lemma IdsStartOver()
    ensures exists ss: seq<State>, es: seq<Event> ::
      Run(Step, ss, es) && Initial(ss[0]) && |es| == WRAP && !Descending(ss[|es|].toasts)
  {
    var n := WRAP;
    var es := seq(n, i => Show("a"));
    var ss := EveryListRuns(Step, Loaded(), es);
    ShownAll(es, n - 1);
    OrderedThroughout(ss, es, n - 1);
    assert ss[n - 1] == Step(ss[n - 2], es[n - 2]) && ss[n] == Step(ss[n - 1], es[n - 1]);
    ShowsSomething(ss[n - 2], "a");
    OrderEndsWithTheCounter(ss[n - 1], "a");
  }

  /** A new toast is shown open and on top, and pushes out the oldest one only, and only from a full list. */
  lemma OnlyTheOldestIsEvicted(s: State, body: string, id: nat)
    requires Ordered(s) && s.count + 1 < WRAP
    ensures var s' := Step(s, Show(body));
      && s'.toasts != [] && s'.toasts[0] == Toast(s.count + 1, true, body)
      && (forall i | 1 <= i < |s'.toasts| :: s'.toasts[i] == s.toasts[i - 1])
      && (Has(s.toasts, id) ==>
            (!Has(s'.toasts, id) <==> |s.toasts| == 5 && id == s.toasts[4].id))
  {
    var s' := Step(s, Show(body));
    DispatchTouches(s.(count := NextId(s.count)), AddToast(Toast(NextId(s.count), true, body)));
    if Has(s.toasts, id) {
      var i :| 0 <= i < |s.toasts| && s.toasts[i].id == id;
      if i + 1 < |s'.toasts| {
        assert s'.toasts[i + 1].id == id;
      }
    }
  }

  // ---------------------------------------------------------------- timers and toastTimeouts

  /** toastTimeouts has an id exactly when one removal callback for it is pending, and points at it. */
  predicate TimersMatch(s: State) {
    && (forall id | id in s.timeouts :: s.timeouts[id] in s.timers && s.timers[s.timeouts[id]].id == id)
    && (forall h | h in s.timers :: h < s.handles && s.timers[h].id in s.timeouts && s.timeouts[s.timers[h].id] == h)
  }

  /** What arming keeps, and what it adds: timers for `delay` from now. */
  predicate OnlyArms(s: State, s': State) {
    && TimersMatch(s') && s'.now == s.now
    && (forall id | id in s.timeouts :: id in s'.timeouts && s'.timeouts[id] == s.timeouts[id])
    && (forall h | h in s.timers :: h in s'.timers && s'.timers[h] == s.timers[h])
    && (forall id | id in s'.timeouts && id !in s.timeouts :: s'.timers[s'.timeouts[id]].due == s.now + 5000)
  }

  lemma ArmedMatches(s: State, id: nat)
    requires TimersMatch(s)
    ensures OnlyArms(s, Armed(s, id)) && id in Armed(s, id).timeouts
  {
  }

  lemma OnlyArmsTwice(s: State, s1: State, s2: State)
    requires TimersMatch(s) && OnlyArms(s, s1) && OnlyArms(s1, s2)
    ensures OnlyArms(s, s2)
  {
  }

  lemma {:induction false} ArmedEachMatches(s: State, ts: seq<Toast>)
    requires TimersMatch(s)
    ensures OnlyArms(s, ArmedEach(s, ts))
    ensures forall t | t in ts :: t.id in ArmedEach(s, ts).timeouts
  {
    if ts != [] {
      var init, last := ts[..|ts| - 1], ts[|ts| - 1];
      ArmedEachMatches(s, init);
      ArmedMatches(ArmedEach(s, init), last.id);
      OnlyArmsTwice(s, ArmedEach(s, init), ArmedEach(s, ts));
      assert ts == init + [last];
    }
  }

  /** What a dismissal arms: every id it names or lists, at once, and none anew that was armed. */
  predicate Arms(s: State, target: Target, id: nat) {
    target == One(id) || (!target.One? && Has(s.toasts, id))
  }

  lemma ArmedForDismissal(s: State, target: Target)
    requires TimersMatch(s)
    ensures var s' := ArmedFor(s, DismissToast(target));
      OnlyArms(s, s') && forall id | Arms(s, target, id) :: id in s'.timeouts
  {
    if target.One? {
      ArmedMatches(s, target.id);
    } else {
      ArmedEachMatches(s, s.toasts);
      forall id | Has(s.toasts, id) ensures id in ArmedEach(s, s.toasts).timeouts {
        var i :| 0 <= i < |s.toasts| && s.toasts[i].id == id;
        assert s.toasts[i] in s.toasts;
      }
    }
  }

  lemma TimersMatchStep(s: State, e: Event)
    requires TimersMatch(s)
    ensures TimersMatch(Step(s, e))
  {
    if e.Dismiss? {
      ArmedForDismissal(s, e.target);
      DispatchTouches(s, DismissToast(e.target));
    }
  }

  /** In every run, with or without a wrapped counter. */
  lemma {:induction false} TimersMatchThroughout(ss: seq<State>, es: seq<Event>, k: nat)
    requires Run(Step, ss, es) && Initial(ss[0]) && k <= |es|
    ensures TimersMatch(ss[k])
  {
    if k > 0 {
      TimersMatchThroughout(ss, es, k - 1);
      TimersMatchStep(ss[k - 1], es[k - 1]);
    }
  }

  /** Every closed toast is on its way out. */
  predicate ClosedArmed(s: State) {
    forall i | 0 <= i < |s.toasts| && !s.toasts[i].open :: s.toasts[i].id in s.timeouts
  }

  /** An update that closes a toast nobody has dismissed. */
  predicate ClosesByUpdate(s: State, e: Event) {
    e.Update? && e.open == Some(false) && Has(s.toasts, e.id) && e.id !in s.timeouts
  }

  /** A closed toast always has its removal pending, except when an update closes it without a dismissal. */
  lemma ClosedArmedStep(s: State, e: Event)
    requires TimersMatch(s) && ClosedArmed(s)
    ensures ClosedArmed(Step(s, e)) <==> !ClosesByUpdate(s, e)
  {
    var s' := Step(s, e);
    if Enabled(s, e) {
      match e
      case Dismiss(target) =>
        ArmedForDismissal(s, target);
        DispatchTouches(s, DismissToast(target));
        forall i | 0 <= i < |s'.toasts| && !s'.toasts[i].open ensures s'.toasts[i].id in s'.timeouts {
          assert s.toasts[i].id == s'.toasts[i].id;
          assert Has(s.toasts, s.toasts[i].id);
        }
      case Fire(h) =>
        WithoutIs(s.toasts, s.timers[h].id);
        forall i | 0 <= i < |s'.toasts| && !s'.toasts[i].open ensures s'.toasts[i].id in s'.timeouts {
          assert s'.toasts[i] in s.toasts;
        }
      case Update(id, open, text) =>
        assert |s'.toasts| == |s.toasts|;
        forall i | 0 <= i < |s'.toasts|
          ensures s'.toasts[i] == if s.toasts[i].id == id then Merged(s.toasts[i], open, text) else s.toasts[i]
        {
        }
        if ClosesByUpdate(s, e) {
          var i :| 0 <= i < |s.toasts| && s.toasts[i].id == id;
          assert !s'.toasts[i].open && s'.toasts[i].id !in s'.timeouts;
        }
      case _ =>
    }
  }

  /** Over a run: closed toasts always have their removal pending exactly when no update closes one undismissed. */
  lemma ClosedArmedThroughout(ss: seq<State>, es: seq<Event>)
    requires Run(Step, ss, es) && Initial(ss[0])
    ensures Always(ClosedArmed, ss) <==> !SomeStep(ClosesByUpdate, ss, es, |es|)
  {
    forall k | 0 <= k < |es| ensures KeepsUnlessBad(Step, ClosedArmed, ClosesByUpdate, ss[k], es[k]) {
      if ClosedArmed(ss[k]) {
        TimersMatchThroughout(ss, es, k);
        ClosedArmedStep(ss[k], es[k]);
      }
    }
    KeptIffNoBadStep(Step, ClosedArmed, ClosesByUpdate, ss, es);
  }

  /** A toast that an update has closed, and that nothing will remove. */
  lemma ClosedButNotRemoved()
    ensures exists ss: seq<State>, es: seq<Event> ::
      && Run(Step, ss, es) && Initial(ss[0])
      && ss[|es|].toasts == [Toast(1, false, "a")] && ss[|es|].timers == map[] && !ClosedArmed(ss[|es|])
  {
    var es := [Show("a"), Update(1, Some(false), None)];
    var ss := EveryListRuns(Step, Loaded(), es);
    assert ss[1] == Step(ss[0], es[0]) && ss[2] == Step(ss[1], es[1]);
    assert ss[1].toasts == [Toast(1, true, "a")];
    assert ss[2].toasts[0] == Toast(1, false, "a") && ss[2].timeouts == map[];
    assert !ClosedArmed(ss[|es|]);
  }

  // ---------------------------------------------------------------- a dismissed toast goes, and on time

  /** Generated, and no longer in the list. */
  predicate Gone(s: State, id: nat) { id <= s.count && !Has(s.toasts, id) }

  /** The removal of `id` is pending for `due`, or has happened for good. */
  predicate Doomed(s: State, id: nat, due: int) {
    id <= s.count && (Gone(s, id) || (id in s.timeouts && s.timeouts[id] in s.timers && s.timers[s.timeouts[id]].due == due))
  }

  lemma GoneShow(s: State, body: string, id: nat)
    requires Gone(s, id) && s.count + 1 < WRAP
    ensures Gone(Step(s, Show(body)), id)
  {
    var s' := Step(s, Show(body));
    DispatchTouches(s.(count := NextId(s.count)), AddToast(Toast(NextId(s.count), true, body)));
    assert forall i | 0 < i < |s'.toasts| :: s'.toasts[i] == s.toasts[i - 1];
  }

  lemma GoneFire(s: State, h: nat, id: nat)
    requires Gone(s, id) && Enabled(s, Fire(h))
    ensures Gone(Step(s, Fire(h)), id)
  {
    var s' := Step(s, Fire(h));
    WithoutIs(s.toasts, s.timers[h].id);
    assert forall i | 0 <= i < |s'.toasts| :: s'.toasts[i] in s.toasts;
  }

  /** What is gone stays gone while the counter does not wrap. */
  lemma GoneStep(s: State, e: Event, id: nat)
    requires Gone(s, id) && (e.Show? ==> s.count + 1 < WRAP)
    ensures Gone(Step(s, e), id)
  {
    if Enabled(s, e) {
      match e
      case Show(body) => GoneShow(s, body, id);
      case Update(u, open, text) => SameIds(s, UpdateToast(u, open, text));
      case Dismiss(target) =>
        DispatchTouches(s, DismissToast(target));
        SameIds(s, DismissToast(target));
      case Fire(h) => GoneFire(s, h, id);
      case _ =>
    }
  }

  lemma DoomedStep(s: State, e: Event, id: nat, due: int)
    requires TimersMatch(s) && Doomed(s, id, due) && (e.Show? ==> s.count + 1 < WRAP)
    ensures Doomed(Step(s, e), id, due)
  {
    if Gone(s, id) {
      GoneStep(s, e, id);
    } else if Enabled(s, e) {
      match e
      case Dismiss(target) =>
        ArmedForDismissal(s, target);
        DispatchTouches(s, DismissToast(target));
      case Fire(h) =>
        WithoutIs(s.toasts, s.timers[h].id);
        if s.timers[h].id == id {
          FiringRemoves(s, h);
        }
      case _ =>
    }
  }

  /** Dismissing the empty id starts the removal of every toast and closes none. */
  lemma BlankDismissalClosesNothing(s: State, id: nat)
    requires TimersMatch(s) && Has(s.toasts, id)
    ensures Step(s, Dismiss(Blank)).toasts == s.toasts
    ensures id in Step(s, Dismiss(Blank)).timeouts
  {
    ArmedForDismissal(s, Blank);
    DispatchTouches(s, DismissToast(Blank));
  }

  /** When a removal timer fires, its toast is in the list no more. */
  lemma FiringRemoves(s: State, h: nat)
    requires Enabled(s, Fire(h))
    ensures !Has(Step(s, Fire(h)).toasts, s.timers[h].id)
  {
    var id, s' := s.timers[h].id, Step(s, Fire(h));
    WithoutIs(s.toasts, id);
    assert forall i | 0 <= i < |s'.toasts| :: s'.toasts[i] in Without(s.toasts, id);
  }

  /** From its first dismissal on, alone or with all others, a toast's removal is pending for exactly
      5000 ms after that dismissal until it is gone for good. Later dismissals, updates, evictions
      and other toasts change nothing about that. */
  lemma {:induction false} FirstDismissalDooms(ss: seq<State>, es: seq<Event>, d: nat, id: nat, k: nat)
    requires Run(Step, ss, es) && Initial(ss[0]) && d < k <= |es| && Shown(es, k) < WRAP
    requires es[d].Dismiss? && Arms(ss[d], es[d].target, id)
    requires Has(ss[d].toasts, id) && id !in ss[d].timeouts
    ensures Doomed(ss[k], id, ss[d].now + 5000)
    decreases k
  {
    var s0, e := ss[k - 1], es[k - 1];
    TimersMatchThroughout(ss, es, k - 1);
    OrderedThroughout(ss, es, k - 1);
    if k == d + 1 {
      ArmedForDismissal(s0, e.target);
      DispatchTouches(s0, DismissToast(e.target));
    } else {
      FirstDismissalDooms(ss, es, d, id, k - 1);
      OrderedThroughout(ss, es, k);
      DoomedStep(s0, e, id, ss[d].now + 5000);
    }
  }

  /** Timers that fire on their deadline: the clock never passes one that is pending. */
  predicate OnTime(ss: seq<State>) {
    forall k, h | 0 <= k < |ss| && h in ss[k].timers :: ss[k].now <= ss[k].timers[h].due
  }

  /** With timers on time, a dismissed toast is gone once its deadline has passed. */
  lemma DismissedIsGoneInTime(ss: seq<State>, es: seq<Event>, d: nat, id: nat, k: nat)
    requires Run(Step, ss, es) && Initial(ss[0]) && d < k <= |es| && Shown(es, k) < WRAP
    requires es[d].Dismiss? && Arms(ss[d], es[d].target, id)
    requires Has(ss[d].toasts, id) && id !in ss[d].timeouts
    requires OnTime(ss) && ss[k].now > ss[d].now + 5000
    ensures Gone(ss[k], id)
  {
    FirstDismissalDooms(ss, es, d, id, k);
  }

  /** An id that was removed or evicted never reappears before the counter wraps. */
  lemma {:induction false} GoneForGood(ss: seq<State>, es: seq<Event>, j: nat, k: nat, id: nat)
    requires Run(Step, ss, es) && Initial(ss[0]) && j <= k <= |es| && Shown(es, k) < WRAP
    requires Gone(ss[j], id)
    ensures Gone(ss[k], id)
  {
    if j < k {
      OrderedThroughout(ss, es, k);
      GoneForGood(ss, es, j, k - 1, id);
      OrderedThroughout(ss, es, k - 1);
      GoneStep(ss[k - 1], es[k - 1], id);
    }
  }

  // ---------------------------------------------------------------- what components see

  /** Every listening component has rendered the current list. */
  predicate UpToDate(s: State) {
    forall i | 0 <= i < |s.listeners| :: s.listeners[i] in s.views && s.views[s.listeners[i]] == s.toasts
  }

  /** A component whose effect runs after the list has moved on from its first render. */
  predicate MountsLate(s: State, e: Event) {
    e.Mount? && Enabled(s, e) && s.views[e.component] != s.toasts
  }

  lemma {:induction false} NotifiedIs(views: map<nat, seq<Toast>>, ls: seq<nat>, ts: seq<Toast>)
    ensures forall i | 0 <= i < |ls| :: ls[i] in Notified(views, ls, ts) && Notified(views, ls, ts)[ls[i]] == ts
    ensures forall c | c in views :: c in Notified(views, ls, ts)
  {
    if ls != [] {
      NotifiedIs(views, ls[..|ls| - 1], ts);
      assert forall i | 0 <= i < |ls| - 1 :: ls[i] == ls[..|ls| - 1][i];
    }
  }

  lemma {:induction false} RemoveFirstIs(ls: seq<nat>, x: nat)
    ensures forall y | y in RemoveFirst(ls, x) :: y in ls
  {
    if ls != [] && ls[0] != x {
      RemoveFirstIs(ls[1..], x);
    }
  }

  /** Each dispatch brings every listener up to date; only a late mount leaves one behind. */
  lemma UpToDateStep(s: State, e: Event)
    requires UpToDate(s)
    ensures UpToDate(Step(s, e)) <==> !MountsLate(s, e)
  {
    var s' := Step(s, e);
    if Enabled(s, e) {
      match e
      case Show(body) =>
        DispatchTouches(s.(count := NextId(s.count)), AddToast(Toast(NextId(s.count), true, body)));
        NotifiedIs(s.views, s.listeners, s'.toasts);
      case Update(id, open, text) =>
        NotifiedIs(s.views, s.listeners, s'.toasts);
      case Dismiss(target) =>
        DispatchTouches(s, DismissToast(target));
        NotifiedIs(s.views, s.listeners, s'.toasts);
      case Fire(h) =>
        NotifiedIs(s.views, s.listeners, s'.toasts);
      case Mount(c) =>
        assert s'.listeners[|s.listeners|] == c;
        assert forall i | 0 <= i < |s.listeners| :: s'.listeners[i] == s.listeners[i];
      case Unmount(c) =>
        RemoveFirstIs(s.listeners, c);
        forall i | 0 <= i < |s'.listeners| ensures s'.listeners[i] in s'.views && s'.views[s'.listeners[i]] == s'.toasts {
          assert s'.listeners[i] in s.listeners;
        }
      case _ =>
    }
  }

  /** Over a run: listeners always show the current list exactly when no component mounts late. */
  lemma UpToDateThroughout(ss: seq<State>, es: seq<Event>)
    requires Run(Step, ss, es) && Initial(ss[0])
    ensures Always(UpToDate, ss) <==> !SomeStep(MountsLate, ss, es, |es|)
  {
    forall k | 0 <= k < |es| ensures KeepsUnlessBad(Step, UpToDate, MountsLate, ss[k], es[k]) {
      if UpToDate(ss[k]) {
        UpToDateStep(ss[k], es[k]);
      }
    }
    KeptIffNoBadStep(Step, UpToDate, MountsLate, ss, es);
  }

  /** A component that listens and shows no toast while there is one. */
  lemma MountedLate()
    ensures exists ss: seq<State>, es: seq<Event> ::
      && Run(Step, ss, es) && Initial(ss[0])
      && ss[|es|].listeners == [0] && ss[|es|].views == map[0 := []] && ss[|es|].toasts != []
  {
    var es := [Render(0), Show("a"), Mount(0)];
    var ss := EveryListRuns(Step, Loaded(), es);
    assert ss[1] == Step(ss[0], es[0]) && ss[2] == Step(ss[1], es[1]) && ss[3] == Step(ss[2], es[2]);
    ShowsSomething(ss[1], "a");
    assert ss[2].views == map[0 := []];
    assert ss[|es|].toasts != [];
  }
}
