/** Paging in the pooler clients table: which page is current, and which rows it shows. */
module Pagination {
  import opened Runs

  type PageSize = n: nat | n > 0 witness 1

  /** A page of a size, as one query of the table. */
  datatype Query = Query(page: int, size: nat)

  /** `totals` is the total that the last answer to each query has told, as the query client keeps it. */
  datatype State = State(page: int, pageSize: PageSize, totals: map<Query, nat>)

  const PAGE_SIZES: set<nat> := {10, 20, 50, 100}

  /** An answer may come to any query made before, and one that is not shown may be forgotten. */
  datatype Event =
    | First | Previous | Next | Last
    | SetPageSize(size: nat)
    | Answered(query: Query, total: nat)
    | Forgotten(query: Query)

  function Shown(s: State): Query { Query(s.page, s.pageSize) }

  /** No answer yet to what is to be shown: there is nothing but a skeleton. */
  predicate Loading(s: State) { Shown(s) !in s.totals }

  function Total(s: State): nat { if Loading(s) then 0 else s.totals[Shown(s)] }

  /** Math.ceil(totalCount / pageSize) */
  function TotalPages(s: State): nat {
    (Total(s) + s.pageSize - 1) / s.pageSize
  }

  function Max(a: int, b: int): int { if a < b then b else a }
  function Min(a: int, b: int): int { if a < b then a else b }

  /** The buttons appear only with several pages, and are disabled at the ends. */
  predicate Enabled(s: State, e: Event) {
    match e
    case First => TotalPages(s) > 1 && s.page != 1
    case Previous => TotalPages(s) > 1 && s.page != 1
    case Next => TotalPages(s) > 1 && s.page != TotalPages(s)
    case Last => TotalPages(s) > 1 && s.page != TotalPages(s)
    case SetPageSize(size) => !Loading(s) && size in PAGE_SIZES
    case Answered(_, _) => true
    case Forgotten(query) => query != Shown(s)
  }

  function Step(s: State, e: Event): State {
    if !Enabled(s, e) then s
    else match e
      case First => s.(page := 1)
      case Previous => s.(page := Max(1, s.page - 1))
      case Next => s.(page := Min(TotalPages(s), s.page + 1))
      case Last => s.(page := TotalPages(s))
      case SetPageSize(size) => s.(page := 1, pageSize := size)
      case Answered(query, total) => s.(totals := s.totals[query := total])
      case Forgotten(query) => s.(totals := s.totals - {query})
  }

  class ClientsTable {
    var page: int
    var pageSize: PageSize
    /** The query client's, which answers fill. */
    var totals: map<Query, nat>

    function View(): State
      reads this
    {
      State(page, pageSize, totals)
    }

    constructor (totals: map<Query, nat>)
      ensures View() == State(1, 20, totals)
    {
      page, pageSize, this.totals := 1, 20, totals;
    }

    method FirstClicked()
      requires Enabled(View(), First)
      modifies this`page
      ensures View() == Step(old(View()), First)
    {
      page := 1;
    }

    method PreviousClicked()
      requires Enabled(View(), Previous)
      modifies this`page
      ensures View() == Step(old(View()), Previous)
    {
      page := if page - 1 < 1 then 1 else page - 1;
    }

    method NextClicked()
      requires Enabled(View(), Next)
      modifies this`page
      ensures View() == Step(old(View()), Next)
    {
      var totalPages := TotalPages(View());
      page := if totalPages < page + 1 then totalPages else page + 1;
    }

    method LastClicked()
      requires Enabled(View(), Last)
      modifies this`page
      ensures View() == Step(old(View()), Last)
    {
      page := TotalPages(View());
    }

    method PageSizeSelected(size: nat)
      requires Enabled(View(), SetPageSize(size))
      modifies this`page, this`pageSize
      ensures View() == Step(old(View()), SetPageSize(size))
    {
      pageSize := size;
      page := 1;
    }
  }

  // ---------------------------------------------------------------- the current page

  /** A page is in range until an answer tells otherwise. */
  predicate InRange(s: State) {
    s.page >= 1 && (Loading(s) || s.page <= Max(1, TotalPages(s)))
  }

  /** No client is left for the page. */
  predicate TooFew(total: nat, page: int, size: nat) { page > 1 && total <= (page - 1) * size }

  lemma InRangeByRows(s: State)
    requires s.page >= 1
    ensures InRange(s) <==> Loading(s) || !TooFew(Total(s), s.page, s.pageSize)
  {
    PagesByRows(Total(s), s.pageSize, s.page);
  }

  lemma PagesByRows(total: nat, size: PageSize, page: nat)
    requires page >= 1
    ensures page <= Max(1, (total + size - 1) / size) <==> !TooFew(total, page, size)
  {
    var p := (total + size - 1) / size;
    DivisionIs(total + size - 1, size, p);
    assert (p + 1) * size == p * size + size;
    if page - 1 >= p {
      MulMonotone(p, page - 1, size);
    } else {
      MulMonotone(page - 1, p - 1, size);
      assert (p - 1) * size == p * size - size;
    }
  }

  lemma SeveralPages(s: State)
    ensures TotalPages(s) > 1 <==> Total(s) > s.pageSize
  {
    PagesByRows(Total(s), s.pageSize, 2);
    assert (2 - 1) * s.pageSize == s.pageSize;
  }

  /** The page that a click leads to. */
  function Target(s: State, e: Event): int {
    match e
    case Previous => Max(1, s.page - 1)
    case Next => Min(TotalPages(s), s.page + 1)
    case Last => TotalPages(s)
    case _ => 1
  }

  /** What was last heard of the page leaves no clients for it. */
  predicate HeardTooFew(s: State, page: int) {
    var q := Query(page, s.pageSize);
    q in s.totals && TooFew(s.totals[q], page, s.pageSize)
  }

  /** An answer that leaves no clients for the current page, or a click to a page of which such an answer is kept. */
  predicate LosesPage(s: State, e: Event) {
    match e
    case Answered(query, total) => query == Shown(s) && TooFew(total, s.page, s.pageSize)
    case Previous => Enabled(s, e) && HeardTooFew(s, Target(s, e))
    case Next => Enabled(s, e) && HeardTooFew(s, Target(s, e))
    case Last => Enabled(s, e) && HeardTooFew(s, Target(s, e))
    case _ => false
  }

  /** With answers that agree on the total no click loses the page; else a click can, as an answer can. */
  lemma InRangeAfter(s: State, e: Event)
    requires InRange(s)
    ensures InRange(Step(s, e)) <==> !LosesPage(s, e)
  {
    SeveralPages(s);
    InRangeByRows(s);
    InRangeByRows(Step(s, e));
  }

  /** What brings a page beyond the last one back: with at most one page left there are no buttons, and only
      a page size or an answer with more clients helps; otherwise every button does whose page has not been heard
      to have too few clients either. */
  predicate Recovers(s: State, e: Event) {
    match e
    case First => Total(s) > s.pageSize
    case Previous => Total(s) > s.pageSize && !HeardTooFew(s, s.page - 1)
    case Next => Total(s) > s.pageSize && !HeardTooFew(s, TotalPages(s))
    case Last => Total(s) > s.pageSize && !HeardTooFew(s, TotalPages(s))
    case SetPageSize(size) => size in PAGE_SIZES
    case Answered(query, total) => query == Shown(s) && !TooFew(total, s.page, s.pageSize)
    case Forgotten(_) => false
  }

  lemma BeyondAfter(s: State, e: Event)
    requires s.page >= 1 && !InRange(s)
    ensures InRange(Step(s, e)) <==> Recovers(s, e)
  {
    SeveralPages(s);
    InRangeByRows(s);
    InRangeByRows(Step(s, e));
  }

  /** Over a run: the page stays in range exactly when no answer and no click loses it. */
  lemma InRangeUnlessLost(ss: seq<State>, es: seq<Event>)
    requires Run(Step, ss, es) && InRange(ss[0])
    ensures Always(InRange, ss) <==> !SomeStep(LosesPage, ss, es, |es|)
  {
    forall k | 0 <= k < |es| ensures KeepsUnlessBad(Step, InRange, LosesPage, ss[k], es[k]) {
      if InRange(ss[k]) {
        InRangeAfter(ss[k], es[k]);
      }
    }
    KeptIffNoBadStep(Step, InRange, LosesPage, ss, es);
  }

  /** Clients leave while the last page is shown, and the previous button does not lead back to the others. */
  lemma StrandedBeyondTheLast()
    ensures exists ss: seq<State>, es: seq<Event> ::
      && Run(Step, ss, es) && ss[0] == State(1, 20, map[]) && |es| == 5
      && !InRange(ss[3]) && Enabled(ss[3], es[3]) && es[3] == Previous && !InRange(ss[5])
  {
    var es := [Answered(Query(1, 20), 100), Last, Answered(Query(5, 20), 30), Previous, Answered(Query(4, 20), 30)];
    var ss := EveryListRuns(Step, State(1, 20, map[]), es);
    assert ss[1] == Step(ss[0], es[0]) && ss[2] == Step(ss[1], es[1]) && ss[3] == Step(ss[2], es[2]);
    assert ss[4] == Step(ss[3], es[3]) && ss[5] == Step(ss[4], es[4]);
    assert TotalPages(ss[1]) == 5 && ss[3].page == 5 && TotalPages(ss[3]) == 2;
    assert ss[5].page == 4 && TotalPages(ss[5]) == 2;
  }

  /** All that has been heard of the number of clients agrees. */
  predicate Agree(s: State, total: nat) { forall q | q in s.totals :: s.totals[q] == total }

  /** While the number of clients stays the same, no clicking leads out of range. */
  lemma {:induction false} InRangeThroughout(ss: seq<State>, es: seq<Event>, k: nat, total: nat)
    requires Run(Step, ss, es) && k <= |es|
    requires ss[0].page >= 1 && !TooFew(total, ss[0].page, ss[0].pageSize) && Agree(ss[0], total)
    requires forall i | 0 <= i < |es| :: es[i].Answered? ==> es[i].total == total
    ensures ss[k].page >= 1 && !TooFew(total, ss[k].page, ss[k].pageSize) && Agree(ss[k], total) && InRange(ss[k])
  {
    if k > 0 {
      InRangeThroughout(ss, es, k - 1, total);
      AgreeStep(ss[k - 1], es[k - 1], total);
    }
    InRangeByRows(ss[k]);
  }

  lemma AgreeStep(s: State, e: Event, total: nat)
    requires s.page >= 1 && !TooFew(total, s.page, s.pageSize) && Agree(s, total)
    requires e.Answered? ==> e.total == total
    ensures var s' := Step(s, e); s'.page >= 1 && !TooFew(total, s'.page, s'.pageSize) && Agree(s', total)
  {
    SeveralPages(s);
    if TotalPages(s) > 1 && (e.Previous? || e.Next? || e.Last?) {
      PagesByRows(total, s.pageSize, s.page);
      PagesByRows(total, s.pageSize, Step(s, e).page);
    }
  }

  // ---------------------------------------------------------------- the rows of a page

  /** `Showing {FirstRow} to {LastRow} of {total}` */
  function FirstRow(s: State): int { (s.page - 1) * s.pageSize + 1 }
  function LastRow(s: State): int { Min(s.page * s.pageSize, Total(s)) }

  predicate Shows(s: State, row: int) { FirstRow(s) <= row <= LastRow(s) }

  /** The page on which a row stands. */
  function PageOf(s: State, row: int): int
    requires row >= 1
  {
    (row - 1) / s.pageSize + 1
  }

  /** The pages partition the rows: a row from 1 to the total stands on exactly one page, which is a page
      from 1 to totalPages, and no page shows any other row. */
  lemma PagesPartitionRows(s: State, row: int)
    requires s.page >= 1
    ensures Shows(s, row) <==> 1 <= row <= Total(s) && s.page == PageOf(s, row)
    ensures 1 <= row <= Total(s) ==> 1 <= PageOf(s, row) <= TotalPages(s)
  {
    if row >= 1 {
      RowsOfPage(s.page, s.pageSize, row);
      if row <= Total(s) {
        NotPastTheLast(row, Total(s), s.pageSize);
      }
    } else {
      MulMonotone(0, s.page - 1, s.pageSize);
    }
  }

  lemma RowsOfPage(page: nat, size: nat, row: nat)
    requires size > 0 && page >= 1 && row >= 1
    ensures (page - 1) * size + 1 <= row <= page * size <==> page == (row - 1) / size + 1
  {
    var q := (row - 1) / size;
    DivisionIs(row - 1, size, q);
    if page - 1 > q {
      MulMonotone(q + 1, page - 1, size);
    } else if page - 1 < q {
      MulMonotone(page, q, size);
    }
  }

  lemma NotPastTheLast(row: nat, total: nat, size: nat)
    requires size > 0 && 1 <= row <= total
    ensures (row - 1) / size + 1 <= (total + size - 1) / size
  {
    var q, p := (row - 1) / size, (total + size - 1) / size;
    DivisionIs(row - 1, size, q);
    DivisionIs(total + size - 1, size, p);
    assert (p + 1) * size == p * size + size;
    if p <= q {
      MulMonotone(p, q, size);
    }
  }

  lemma DivisionIs(a: nat, b: nat, q: nat)
    requires b > 0 && q == a / b
    ensures q * b <= a < (q + 1) * b
  {
  }

  lemma MulMonotone(a: int, b: int, c: nat)
    requires a <= b
    ensures a * c <= b * c
  {
  }

  /** A page is in range exactly when it shows something, unless there is nothing to show. */
  lemma InRangeIffShowsSomething(s: State)
    requires s.page >= 1 && Total(s) > 0
    ensures InRange(s) <==> FirstRow(s) <= LastRow(s)
  {
    InRangeByRows(s);
    assert (s.page - 1) * s.pageSize + s.pageSize == s.page * s.pageSize;
  }

  // ---------------------------------------------------------------- where clicks lead

  /** The last page, of a total and a size. */
  predicate IsLast(page: int, total: nat, size: nat) { (page - 1) * size < total <= page * size }

  /** Where a click leads from a page with others beside it, and what it leaves. */
  lemma ClickLeads(s: State, e: Event)
    requires Enabled(s, e) && s.page >= 1
    ensures var s' := Step(s, e);
      && (e.First? || e.SetPageSize? ==> s'.page == 1)
      && (e.Previous? ==> s'.page == s.page - 1)
      && (e.Next? ==> IsLast(s'.page, Total(s), s.pageSize) || (s'.page == s.page + 1 && s.page * s.pageSize < Total(s)))
      && (e.Next? && !TooFew(Total(s), s.page, s.pageSize) ==> s'.page == s.page + 1)
      && (e.Last? ==> IsLast(s'.page, Total(s), s.pageSize))
      && s'.pageSize == (if e.SetPageSize? then e.size else s.pageSize)
      && (e.Answered? || e.Forgotten? ==> s'.page == s.page)
  {
    SeveralPages(s);
    if e.Next? || e.Last? {
      LastIs(Total(s), s.pageSize);
    }
    if e.Next? {
      NextLeads(Total(s), s.pageSize, s.page, TotalPages(s));
    }
  }

  /** What is known of a query after an event: what it was answered last, until that is forgotten. */
  lemma WhatIsKnown(s: State, e: Event, q: Query)
    ensures var s' := Step(s, e);
      && (q in s'.totals <==> (e.Answered? && e.query == q) || (q in s.totals && !(e == Forgotten(q) && q != Shown(s))))
      && (q in s'.totals ==> s'.totals[q] == if e.Answered? && e.query == q then e.total else s.totals[q])
  {
  }

  /** What can be clicked: a button that leads elsewhere, if there are more clients than fit, and four page sizes. */
  lemma ClickableIff(s: State, e: Event)
    requires s.page >= 1
    ensures e.First? || e.Previous? ==> (Enabled(s, e) <==> Total(s) > s.pageSize && s.page > 1)
    ensures e.Next? || e.Last? ==> (Enabled(s, e) <==> Total(s) > s.pageSize && !IsLast(s.page, Total(s), s.pageSize))
    ensures e.SetPageSize? ==> (Enabled(s, e) <==> Shown(s) in s.totals && e.size in {10, 20, 50, 100})
  {
    SeveralPages(s);
    if Total(s) > 0 {
      LastIs(Total(s), s.pageSize);
      if IsLast(s.page, Total(s), s.pageSize) {
        OneLast(s.page, TotalPages(s), Total(s), s.pageSize);
      }
    }
  }

  lemma OneLast(p: int, q: int, total: nat, size: PageSize)
    requires IsLast(p, total, size) && IsLast(q, total, size)
    ensures p == q
  {
    if p < q {
      MulMonotone(p, q - 1, size);
    } else if q < p {
      MulMonotone(q, p - 1, size);
    }
  }

  lemma NextLeads(total: nat, size: PageSize, page: nat, last: nat)
    requires page >= 1 && page != last && 1 <= last == (total + size - 1) / size
    ensures page < last ==> page * size < total
    ensures page > last ==> TooFew(total, page, size)
  {
    PagesByRows(total, size, page);
    PagesByRows(total, size, page + 1);
    assert (page + 1 - 1) * size == page * size;
  }

  lemma LastIs(total: nat, size: PageSize)
    requires total > 0
    ensures IsLast((total + size - 1) / size, total, size)
  {
    var p := (total + size - 1) / size;
    DivisionIs(total + size - 1, size, p);
    assert (p + 1) * size == p * size + size && (p - 1) * size == p * size - size;
  }

  /** From the first page on, with answers that agree, the next button leads to every page up to the last. */
  lemma {:induction false} PageIsReached(total: nat, page: nat) returns (es: seq<Event>)
    requires 1 <= page && (page - 1) * 20 < total
    ensures var s := After(Step, State(1, 20, map[]), es);
      s.page == page && s.pageSize == 20 && !Loading(s) && Total(s) == total
  {
    var s0 := State(1, 20, map[]);
    if page == 1 {
      es := [Answered(Query(1, 20), total)];
      AfterOne(Step, s0, es[0]);
    } else {
      es := PageIsReached(total, page - 1);
      var s := After(Step, s0, es);
      NextWorks(s);
      AfterConcat(Step, s0, es, [Next]);
      AfterOne(Step, s, Next);
      var answer := Answered(Query(page, 20), total);
      AfterConcat(Step, s0, es + [Next], [answer]);
      AfterOne(Step, Step(s, Next), answer);
      es := es + [Next] + [answer];
    }
  }

  lemma NextWorks(s: State)
    requires s.page >= 1 && s.page * s.pageSize < Total(s)
    ensures Enabled(s, Next) && Step(s, Next) == s.(page := s.page + 1)
  {
    PagesByRows(Total(s), s.pageSize, s.page + 1);
    assert (s.page + 1 - 1) * s.pageSize == s.page * s.pageSize;
  }

  /** So every row can be seen. */
  lemma RowIsSeen(total: nat, row: nat) returns (es: seq<Event>)
    requires 1 <= row <= total
    ensures Shows(After(Step, State(1, 20, map[]), es), row)
  {
    var page := (row - 1) / 20 + 1;
    es := PageIsReached(total, page);
    RowsOfPage(page, 20, row);
  }
}
