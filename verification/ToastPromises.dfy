/** What becomes of a toast: what shows it, changes it, closes it and removes it, and who sees it. */
module ToastPromises {
  import opened Options
  import opened Runs
  import opened ToastModel
  import opened ToastProperties

  // ---------------------------------------------------------------- one event

  /** A dismissal of all, or of this id. The empty id closes nothing. */
  predicate Dismisses(e: Event, id: nat) { e == Dismiss(All) || e == Dismiss(One(id)) }

  /** A dismissal closes the toasts it is for and changes nothing else in the list. */
  lemma DismissCloses(s: State, target: Target, i: nat)
    requires i < |s.toasts|
    ensures var t, s' := s.toasts[i], Step(s, Dismiss(target));
      && |s'.toasts| == |s.toasts|
      && s'.toasts[i] == (if Dismisses(Dismiss(target), t.id) then Toast(t.id, false, t.body) else t)
  {
    DispatchTouches(s, DismissToast(target));
  }

  /** An update puts in what it gives, in the toast of its id. */
  lemma UpdateMerges(s: State, id: nat, open: Option<bool>, text: Option<string>, i: nat)
    requires i < |s.toasts|
    ensures var t, s' := s.toasts[i], Step(s, Update(id, open, text));
      && |s'.toasts| == |s.toasts| && s'.toasts[i].id == t.id
      && s'.toasts[i].open == (if t.id == id && open.Some? then open.value else t.open)
      && s'.toasts[i].body == (if t.id == id && text.Some? then text.value else t.body)
  {
    DispatchTouches(s, UpdateToast(id, open, text));
  }

  lemma {:induction false} WithoutOne(ts: seq<Toast>, id: nat, i: nat)
    requires i <= |ts| && forall j | 0 <= j < |ts| :: ts[j].id == id <==> j == i
    ensures Without(ts, id) == if i < |ts| then ts[..i] + ts[i + 1..] else ts
  {
    if ts != [] {
      var n := |ts| - 1;
      assert ts == ts[..n] + [ts[n]];
      if i == n {
        WithoutOne(ts[..n], id, n);
      } else {
        WithoutOne(ts[..n], id, if i < n then i else n);
        assert i < n ==> ts[..i] + ts[i + 1..] == ts[..n][..i] + ts[..n][i + 1..] + [ts[n]];
      }
    }
  }

  /** A timer that fires removes its toast, which stands at i or, if it is gone, nowhere, and keeps the others in order. */
  lemma FireRemoves(s: State, h: nat, i: nat)
    requires Enabled(s, Fire(h)) && Descending(s.toasts) && i <= |s.toasts|
    requires if i < |s.toasts| then s.toasts[i].id == s.timers[h].id else !Has(s.toasts, s.timers[h].id)
    ensures Step(s, Fire(h)).toasts == if i < |s.toasts| then s.toasts[..i] + s.toasts[i + 1..] else s.toasts
  {
    WithoutOne(s.toasts, s.timers[h].id, i);
  }

  lemma ShowAdds(s: State, body: string)
    ensures var s', t := Step(s, Show(body)), Toast((s.count + 1) % WRAP, true, body);
      && s'.toasts == (if |s.toasts| < 5 then [t] + s.toasts else [t] + s.toasts[..4]) && s'.count == t.id
      && s'.timeouts == s.timeouts && s'.timers == s.timers
  {
    DispatchTouches(s.(count := NextId(s.count)), AddToast(Toast(NextId(s.count), true, body)));
    if |s.toasts| >= 5 {
      assert ([Toast(NextId(s.count), true, body)] + s.toasts)[..5] == [Toast(NextId(s.count), true, body)] + s.toasts[..4];
    }
  }

  /** A toast leaves the list in two ways only: pushed out of a full list of five, or by its timer, when that is due. */
  lemma LeavesInTwoWays(s: State, e: Event, id: nat)
    requires Ordered(s) && Has(s.toasts, id) && !Has(Step(s, e).toasts, id)
    ensures (e.Show? && |s.toasts| == 5 && s.toasts[4].id == id)
            || (e.Fire? && e.handle in s.timers && s.timers[e.handle].id == id && s.timers[e.handle].due <= s.now)
  {
    var i: nat :| i < |s.toasts| && s.toasts[i].id == id;
    if !(e.Show? && i == 4) && !(e.Fire? && Enabled(s, e) && s.timers[e.handle].id == id) {
      var i' := StandsAfter(s, e, i);
    }
  }

  /** Where a toast stands after an event that is not its end. */
  lemma StandsAfter(s: State, e: Event, i: nat) returns (i': nat)
    requires i < |s.toasts| && |s.toasts| <= 5
    requires !(e.Show? && i == 4) && !(e.Fire? && Enabled(s, e) && s.timers[e.handle].id == s.toasts[i].id)
    ensures var s' := Step(s, e);
      && i' < |s'.toasts| && s'.toasts[i'].id == s.toasts[i].id && i' <= i + (if e.Show? then 1 else 0)
      && (!e.Update? && !e.Dismiss? ==> s'.toasts[i'] == s.toasts[i])
  {
    i' := i;
    match e
    case Show(body) =>
      ShowAdds(s, body);
      i' := i + 1;
    case Update(id, open, text) => UpdateMerges(s, id, open, text, i);
    case Dismiss(target) => DismissCloses(s, target, i);
    case Fire(h) =>
      if Enabled(s, e) {
        i' := KeptByWithout(s.toasts, s.timers[h].id, i);
      }
    case _ =>
  }

  lemma {:induction false} KeptByWithout(ts: seq<Toast>, id: nat, i: nat) returns (i': nat)
    requires i < |ts| && ts[i].id != id
    ensures i' < |Without(ts, id)| && i' <= i && Without(ts, id)[i'] == ts[i]
  {
    if i < |ts| - 1 {
      i' := KeptByWithout(ts[..|ts| - 1], id, i);
    } else {
      WithoutIs(ts[..|ts| - 1], id);
      i' := |Without(ts[..|ts| - 1], id)|;
    }
  }

  // ---------------------------------------------------------------- a dismissed toast stays closed

  /** What the list has under the id is closed. */
  predicate IsClosed(s: State, id: nat) { forall i | 0 <= i < |s.toasts| && s.toasts[i].id == id :: !s.toasts[i].open }

  predicate Reopens(e: Event, id: nat) { e.Update? && e.id == id && e.open == Some(true) }

  lemma ClosedShow(s: State, body: string, id: nat)
    requires IsClosed(s, id) && id <= s.count && s.count + 1 < WRAP
    ensures IsClosed(Step(s, Show(body)), id)
  {
    var s' := Step(s, Show(body));
    ShowAdds(s, body);
    assert forall i | 0 < i < |s'.toasts| :: s'.toasts[i] == s.toasts[i - 1];
  }

  lemma ClosedFire(s: State, h: nat, id: nat)
    requires IsClosed(s, id) && Enabled(s, Fire(h))
    ensures IsClosed(Step(s, Fire(h)), id)
  {
    var s' := Step(s, Fire(h));
    WithoutIs(s.toasts, s.timers[h].id);
    assert forall i | 0 <= i < |s'.toasts| :: s'.toasts[i] in s.toasts;
  }

  lemma ClosedDismiss(s: State, target: Target, id: nat)
    requires IsClosed(s, id) || Dismisses(Dismiss(target), id)
    ensures IsClosed(Step(s, Dismiss(target)), id)
  {
    DispatchTouches(s, DismissToast(target));
    forall i: nat | i < |s.toasts| ensures var t := Step(s, Dismiss(target)).toasts[i]; t.id == id ==> !t.open {
      DismissCloses(s, target, i);
    }
  }

  lemma ClosedUpdate(s: State, u: nat, open: Option<bool>, text: Option<string>, id: nat)
    requires IsClosed(s, id)
    ensures IsClosed(Step(s, Update(u, open, text)), id) <==> !(Reopens(Update(u, open, text), id) && Has(s.toasts, id))
  {
    var s' := Step(s, Update(u, open, text));
    DispatchTouches(s, UpdateToast(u, open, text));
    forall i: nat | i < |s.toasts|
      ensures s'.toasts[i].id == s.toasts[i].id
      ensures s'.toasts[i].open == (if s.toasts[i].id == u && open.Some? then open.value else s.toasts[i].open)
    {
      UpdateMerges(s, u, open, text, i);
    }
    if Reopens(Update(u, open, text), id) && Has(s.toasts, id) {
      var i: nat :| i < |s.toasts| && s.toasts[i].id == id;
      assert s'.toasts[i].id == id && s'.toasts[i].open;
    }
  }

  /** A closed toast is open again exactly after an update that opens it. */
  lemma ClosedAfter(s: State, e: Event, id: nat)
    requires IsClosed(s, id) && id <= s.count && (e.Show? ==> s.count + 1 < WRAP)
    ensures IsClosed(Step(s, e), id) <==> !(Reopens(e, id) && Has(s.toasts, id))
  {
    match e
    case Show(body) => ClosedShow(s, body, id);
    case Update(u, open, text) => ClosedUpdate(s, u, open, text, id);
    case Dismiss(target) => ClosedDismiss(s, target, id);
    case Fire(h) =>
      if Enabled(s, e) {
        ClosedFire(s, h, id);
      }
    case _ =>
  }

  /** In every run a dismissed toast is closed at once, and stays closed until it is gone or an update opens it. */
  lemma {:induction false} StaysClosed(ss: seq<State>, es: seq<Event>, d: nat, k: nat, id: nat)
    requires Run(Step, ss, es) && Initial(ss[0]) && d < k <= |es| && Shown(es, k) < WRAP
    requires Dismisses(es[d], id) && Has(ss[d].toasts, id)
    requires forall j | d < j < k :: !Reopens(es[j], id)
    ensures IsClosed(ss[k], id) && id <= ss[k].count
    decreases k
  {
    ShownGrows(es, d, k);
    OrderedThroughout(ss, es, d);
    OrderedThroughout(ss, es, k - 1);
    var s, e := ss[k - 1], es[k - 1];
    assert ss[k] == Step(s, e);
    if k == d + 1 {
      ClosedDismiss(s, e.target, id);
    } else {
      StaysClosed(ss, es, d, k - 1, id);
      assert !Reopens(es[k - 1], id);
      ClosedAfter(s, e, id);
    }
    OrderedThroughout(ss, es, k);
    CountGrows(ss, es, d, k);
  }

  lemma CountGrows(ss: seq<State>, es: seq<Event>, d: nat, k: nat)
    requires Run(Step, ss, es) && Initial(ss[0]) && d <= k <= |es| && Shown(es, k) < WRAP
    ensures ss[d].count <= ss[k].count
  {
    ShownGrows(es, d, k);
    OrderedThroughout(ss, es, d);
    OrderedThroughout(ss, es, k);
  }

  // ---------------------------------------------------------------- a shown toast stays listed

  predicate Touches(s: State, e: Event, id: nat) {
    (e.Update? && e.id == id) || (e.Dismiss? && Arms(s, e.target, id))
  }

  /** Only a dismissal that is for it arms an id's timer. */
  lemma ArmsNoOther(s: State, e: Event, id: nat)
    requires TimersMatch(s) && id !in s.timeouts && !(e.Dismiss? && Arms(s, e.target, id))
    ensures id !in Step(s, e).timeouts
  {
    if e.Dismiss? {
      DispatchTouches(s, DismissToast(e.target));
      if !e.target.One? {
        assert forall i | 0 <= i < |s.toasts| :: s.toasts[i].id != id;
        ArmedEachOnly(s, s.toasts, id);
      }
    }
  }

  lemma {:induction false} ArmedEachOnly(s: State, ts: seq<Toast>, id: nat)
    requires id !in s.timeouts && forall i | 0 <= i < |ts| :: ts[i].id != id
    ensures id !in ArmedEach(s, ts).timeouts
  {
    if ts != [] {
      ArmedEachOnly(s, ts[..|ts| - 1], id);
    }
  }

  /** The toast stands among the first n. */
  predicate Stands(s: State, t: Toast, n: int) { exists i :: 0 <= i < |s.toasts| && i < n && s.toasts[i] == t }

  lemma StandsStep(s: State, e: Event, t: Toast, n: int)
    requires TimersMatch(s) && |s.toasts| <= 5 && Stands(s, t, n) && t.id !in s.timeouts && !Touches(s, e, t.id)
    requires e.Show? ==> n < 5
    ensures Stands(Step(s, e), t, if e.Show? then n + 1 else n) && t.id !in Step(s, e).timeouts
  {
    ArmsNoOther(s, e, t.id);
    var i: nat :| i < |s.toasts| && i < n && s.toasts[i] == t;
    var i' := StandsAfter(s, e, i);
    match e
    case Update(id, open, text) => UpdateMerges(s, id, open, text, i);
    case Dismiss(target) => DismissCloses(s, target, i);
      assert Step(s, e).toasts[i] == t by {
        assert Has(s.toasts, t.id);
      }
    case _ =>
  }

  lemma StandsFirst(s: State, body: string)
    requires s.count + 1 < WRAP && s.count + 1 !in s.timeouts
    ensures var s' := Step(s, Show(body));
      s'.count == s.count + 1 && Stands(s', Toast(s.count + 1, true, body), 1) && s'.count !in s'.timeouts
  {
    ShowAdds(s, body);
    assert Step(s, Show(body)).toasts[0] == Toast(s.count + 1, true, body);
  }

  /** In every run a toast that is shown, and whose id has not been dismissed in advance, stays listed as it was shown
      until it is dismissed or updated or five more have been shown. */
  lemma {:induction false} ShownStays(ss: seq<State>, es: seq<Event>, j: nat, k: nat)
    requires Run(Step, ss, es) && Initial(ss[0]) && j < k <= |es| && Shown(es, k) < WRAP
    requires es[j].Show? && ss[j].count + 1 !in ss[j].timeouts && Shown(es, k) < Shown(es, j) + 6
    requires forall m {:trigger es[m]} | j < m < k :: !Touches(ss[m], es[m], ss[j + 1].count)
    ensures Stands(ss[k], Toast(ss[j + 1].count, true, es[j].body), Shown(es, k) - Shown(es, j))
    ensures ss[j + 1].count !in ss[k].timeouts
    decreases k
  {
    var s, e, t := ss[k - 1], es[k - 1], Toast(ss[j + 1].count, true, es[j].body);
    assert ss[k] == Step(s, e);
    if k == j + 1 {
      OrderedThroughout(ss, es, j);
      StandsFirst(ss[j], es[j].body);
    } else {
      ShownStays(ss, es, j, k - 1);
      assert !Touches(s, e, t.id);
      TimersMatchThroughout(ss, es, k - 1);
      OrderedThroughout(ss, es, k - 1);
      StandsStep(s, e, t, Shown(es, k - 1) - Shown(es, j));
    }
  }

  /** Time passes and timers fire, and nothing else happens. */
  predicate Waits(es: seq<Event>) { forall e | e in es :: e.Tick? || e.Fire? }

  predicate Remains(s: State, t: Toast, es: seq<Event>) { Stands(After(Step, s, es), t, 1) }

  lemma {:induction false} RemainsListed(s: State, t: Toast, es: seq<Event>)
    requires Waits(es) && TimersMatch(s) && |s.toasts| <= 5 && Stands(s, t, 1) && t.id !in s.timeouts
    ensures Remains(s, t, es)
    ensures var s' := After(Step, s, es); TimersMatch(s') && |s'.toasts| <= 5 && t.id !in s'.timeouts
  {
    if es != [] {
      var init, e := es[..|es| - 1], es[|es| - 1];
      assert e in es && forall e' | e' in init :: e' in es;
      RemainsListed(s, t, init);
      var s1 := After(Step, s, init);
      StandsStep(s1, e, t, 1);
      TimersMatchStep(s1, e);
      if e.Fire? {
        WithoutIs(s1.toasts, if e.handle in s1.timers then s1.timers[e.handle].id else 0);
      }
    }
  }

  /** The timer that a dismissal in advance has armed. */
  lemma RemovedInAdvance(s: State, body: string)
    requires TimersMatch(s) && s.count + 1 < WRAP && s.count + 1 in s.timeouts
    ensures var s1, h := Step(s, Show(body)), s.timeouts[s.count + 1];
      h in s.timers && exists ms: nat :: !Remains(s1, Toast(s.count + 1, true, body), [Tick(ms), Fire(h)])
  {
    var s1, h := Step(s, Show(body)), s.timeouts[s.count + 1];
    ShowAdds(s, body);
    var ms: nat := if s.timers[h].due > s.now then s.timers[h].due - s.now else 0;
    OnlyTicksMoveTheClock(s, Show(body));
    var s2 := Step(s1, Tick(ms));
    assert s2.timers == s1.timers && s2.timers[h].due <= s2.now;
    FiringRemoves(s2, h);
    AfterOne(Step, s1, Tick(ms));
    AfterConcat(Step, s1, [Tick(ms)], [Fire(h)]);
    AfterOne(Step, s2, Fire(h));
    assert [Tick(ms)] + [Fire(h)] == [Tick(ms), Fire(h)];
    assert !Remains(s1, Toast(s.count + 1, true, body), [Tick(ms), Fire(h)]);
  }

  /** A new toast remains listed, however long nothing is done to it, exactly if its id was not dismissed in advance. */
  lemma RemainsIff(s: State, body: string)
    requires TimersMatch(s) && s.count + 1 < WRAP
    ensures s.count + 1 !in s.timeouts <==>
            forall es {:trigger Waits(es)} | Waits(es) :: Remains(Step(s, Show(body)), Toast(s.count + 1, true, body), es)
  {
    var s1, t := Step(s, Show(body)), Toast(s.count + 1, true, body);
    ShowAdds(s, body);
    if s.count + 1 !in s.timeouts {
      StandsFirst(s, body);
      TimersMatchStep(s, Show(body));
      forall es {:trigger Waits(es)} | Waits(es) ensures Remains(s1, t, es) {
        RemainsListed(s1, t, es);
      }
    } else {
      RemovedInAdvance(s, body);
      var ms: nat :| !Remains(s1, t, [Tick(ms), Fire(s.timeouts[s.count + 1])]);
      assert Waits([Tick(ms), Fire(s.timeouts[s.count + 1])]);
    }
  }

  /** And it can be: a toast that is gone although nothing was done to it since it was shown. */
  lemma DismissedInAdvance()
    ensures exists ss: seq<State>, es: seq<Event> ::
      && Run(Step, ss, es) && Initial(ss[0]) && |es| == 4
      && es[1] == Show("a") && ss[2].toasts == [Toast(1, true, "a")] && Waits(es[2..]) && ss[4].toasts == []
  {
    var es := [Dismiss(One(1)), Show("a"), Tick(5000), Fire(0)];
    var ss := EveryListRuns(Step, Loaded(), es);
    assert ss[1] == Step(ss[0], es[0]) && ss[2] == Step(ss[1], es[1]) && ss[3] == Step(ss[2], es[2]) && ss[4] == Step(ss[3], es[3]);
    assert ss[1].timers == map[0 := Timer(1, 5000)] && ss[1].count == 0 && ss[1].toasts == [];
    ShowAdds(ss[1], "a");
    assert ss[2].toasts == [Toast(1, true, "a")];
    assert ss[3].now == 5000 by {
      OnlyTicksMoveTheClock(ss[0], es[0]);
      OnlyTicksMoveTheClock(ss[1], es[1]);
    }
    assert Enabled(ss[3], Fire(0));
    FireRemoves(ss[3], 0, 0);
    assert Waits(es[2..]);
  }

  // ---------------------------------------------------------------- who sees it

  predicate Once(ls: seq<nat>) { forall i, j | 0 <= i < j < |ls| :: ls[i] != ls[j] }

  predicate ListensOnce(s: State) { Once(s.listeners) }

  lemma OnceMore(ls: seq<nat>, x: nat)
    requires Once(ls) && x !in ls
    ensures Once(ls + [x]) && Once([x] + ls)
  {
  }

  lemma {:induction false} RemovesOne(ls: seq<nat>, x: nat)
    requires Once(ls)
    ensures forall c :: c in RemoveFirst(ls, x) <==> c in ls && c != x
    ensures Once(RemoveFirst(ls, x))
  {
    if ls != [] {
      assert ls == [ls[0]] + ls[1..];
      assert forall j | 0 <= j < |ls[1..]| :: ls[1..][j] == ls[j + 1];
      assert ls[0] !in ls[1..];
      if ls[0] != x {
        RemovesOne(ls[1..], x);
        OnceMore(RemoveFirst(ls[1..], x), ls[0]);
      }
    }
  }

  lemma DispatchesOnly(s: State, e: Event)
    requires !e.Mount? && !e.Unmount?
    ensures Step(s, e).listeners == s.listeners
  {
    match e
    case Show(body) => DispatchTouches(s.(count := NextId(s.count)), AddToast(Toast(NextId(s.count), true, body)));
    case Dismiss(target) => DispatchTouches(s, DismissToast(target));
    case _ =>
  }

  /** A component listens from its mount to its unmount. */
  lemma WhoListens(s: State, e: Event, c: nat)
    requires ListensOnce(s)
    ensures ListensOnce(Step(s, e))
    ensures c in Step(s, e).listeners <==>
            (e == Mount(c) && c in s.views) || (c in s.listeners && e != Unmount(c))
  {
    match e
    case Mount(x) =>
      if Enabled(s, e) {
        OnceMore(s.listeners, x);
        assert Step(s, e).listeners == s.listeners + [x];
      }
    case Unmount(x) => RemovesOne(s.listeners, x);
    case _ => DispatchesOnly(s, e);
  }

  /** In every run, a component that renders and then mounts listens until it unmounts. */
  lemma {:induction false} ListensThroughout(ss: seq<State>, es: seq<Event>, j: nat, k: nat, c: nat)
    requires Run(Step, ss, es) && Initial(ss[0]) && j < k <= |es|
    requires es[j] == Mount(c) && c in ss[j].views && forall m | j < m < k :: es[m] != Unmount(c)
    ensures c in ss[k].listeners
    decreases k
  {
    var s, e := ss[k - 1], es[k - 1];
    ListensOnceThroughout(ss, es, k - 1);
    WhoListens(s, e, c);
    if k > j + 1 {
      ListensThroughout(ss, es, j, k - 1, c);
      assert es[k - 1] != Unmount(c);
    }
  }

  lemma {:induction false} ListensOnceThroughout(ss: seq<State>, es: seq<Event>, k: nat)
    requires Run(Step, ss, es) && Initial(ss[0]) && k <= |es|
    ensures ListensOnce(ss[k])
  {
    if k > 0 {
      ListensOnceThroughout(ss, es, k - 1);
      WhoListens(ss[k - 1], es[k - 1], 0);
    }
  }

  lemma {:induction false} NotifiesOnly(views: map<nat, seq<Toast>>, ls: seq<nat>, ts: seq<Toast>, c: nat)
    ensures c in Notified(views, ls, ts) <==> c in views || c in ls
    ensures c in Notified(views, ls, ts) ==> Notified(views, ls, ts)[c] == if c in ls then ts else views[c]
  {
    if ls != [] {
      NotifiesOnly(views, ls[..|ls| - 1], ts, c);
      assert ls == ls[..|ls| - 1] + [ls[|ls| - 1]];
    }
  }

  /** The events that hand the list to the listeners. */
  predicate Hands(s: State, e: Event) { e.Show? || e.Update? || e.Dismiss? || (e.Fire? && Enabled(s, e)) }

  /** What a component shows: the list as it is when it renders first, and then what it is handed as a listener. */
  lemma WhatIsSeen(s: State, e: Event, c: nat)
    ensures var s' := Step(s, e);
      && (c in s'.views <==> c in s.views || e == Render(c) || (Hands(s, e) && c in s.listeners))
      && (c in s'.views ==>
            s'.views[c] == if Hands(s, e) && c in s.listeners then s'.toasts
                           else if c in s.views then s.views[c] else s.toasts)
  {
    var ts := Step(s, e).toasts;
    match e
    case Show(body) =>
      DispatchTouches(s.(count := NextId(s.count)), AddToast(Toast(NextId(s.count), true, body)));
      NotifiesOnly(s.views, s.listeners, ts, c);
    case Dismiss(target) =>
      DispatchTouches(s, DismissToast(target));
      NotifiesOnly(s.views, s.listeners, ts, c);
    case Update(_, _, _) => NotifiesOnly(s.views, s.listeners, ts, c);
    case Fire(_) => NotifiesOnly(s.views, s.listeners, ts, c);
    case _ =>
  }

  lemma OnlyTicksMoveTheClock(s: State, e: Event)
    ensures Step(s, e).now == s.now + if e.Tick? then e.ms else 0
  {
    match e
    case Show(body) => DispatchTouches(s.(count := NextId(s.count)), AddToast(Toast(NextId(s.count), true, body)));
    case Dismiss(target) => DispatchTouches(s, DismissToast(target));
    case _ =>
  }
}
