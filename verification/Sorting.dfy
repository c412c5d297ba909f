/** Stable sorting by a total preorder: what it means, that it exists, and that its result is unique. */
module Sorting {
  function Filter<T>(xs: seq<T>, p: T -> bool): seq<T> {
    if xs == [] then []
    else Filter(xs[..|xs| - 1], p) + (if p(xs[|xs| - 1]) then [xs[|xs| - 1]] else [])
  }

  lemma {:induction false} FilterMembers<T>(xs: seq<T>, p: T -> bool)
    ensures forall x :: x in Filter(xs, p) <==> x in xs && p(x)
  {
    if xs != [] {
      FilterMembers(xs[..|xs| - 1], p);
      assert xs == xs[..|xs| - 1] + [xs[|xs| - 1]];
    }
  }

  lemma {:induction false} FilterNone<T>(xs: seq<T>, p: T -> bool)
    requires forall x | x in xs :: !p(x)
    ensures Filter(xs, p) == []
  {
    if xs != [] {
      assert xs[|xs| - 1] in xs;
      FilterNone(xs[..|xs| - 1], p);
    }
  }

  lemma FilterNext<T>(xs: seq<T>, i: nat, p: T -> bool)
    requires i < |xs|
    ensures Filter(xs[..i + 1], p) == Filter(xs[..i], p) + (if p(xs[i]) then [xs[i]] else [])
  {
    assert xs[..i + 1][..i] == xs[..i];
  }

  lemma {:induction false} FilterConcat<T>(xs: seq<T>, ys: seq<T>, p: T -> bool)
    ensures Filter(xs + ys, p) == Filter(xs, p) + Filter(ys, p)
  {
    if ys == [] {
      assert xs + ys == xs;
    } else {
      FilterConcat(xs, ys[..|ys| - 1], p);
      assert (xs + ys)[..|xs + ys| - 1] == xs + ys[..|ys| - 1];
    }
  }

  lemma {:induction false} FilterCongruent<T>(xs: seq<T>, p: T -> bool, q: T -> bool)
    requires forall x | x in xs :: p(x) == q(x)
    ensures Filter(xs, p) == Filter(xs, q)
  {
    if xs != [] {
      assert xs[|xs| - 1] in xs;
      FilterCongruent(xs[..|xs| - 1], p, q);
    }
  }

  function Both<T>(p: T -> bool, q: T -> bool): T -> bool { x => p(x) && q(x) }

  lemma {:induction false} FilterTwice<T>(xs: seq<T>, p: T -> bool, q: T -> bool)
    ensures Filter(Filter(xs, p), q) == Filter(xs, Both(p, q))
  {
    if xs != [] {
      var init, last := xs[..|xs| - 1], xs[|xs| - 1];
      FilterTwice(init, p, q);
      FilterConcat(Filter(init, p), if p(last) then [last] else [], q);
      assert [last][..0] == [];
    }
  }

  // ---------------------------------------------------------------- orders and stable sorts

  ghost predicate TotalPreorder<T(!new)>(le: (T, T) -> bool) {
    && (forall x, y :: le(x, y) || le(y, x))
    && (forall x, y, z :: le(x, y) && le(y, z) ==> le(x, z))
  }

  ghost predicate TotalOrder<T(!new)>(le: (T, T) -> bool) {
    && TotalPreorder(le)
    && (forall x, y :: le(x, y) && le(y, x) ==> x == y)
  }

  predicate SortedBy<T>(xs: seq<T>, le: (T, T) -> bool) {
    forall i, j | 0 <= i < j < |xs| :: le(xs[i], xs[j])
  }

  lemma SortedConcat<T>(xs: seq<T>, ys: seq<T>, le: (T, T) -> bool)
    requires SortedBy(xs, le) && SortedBy(ys, le)
    requires forall x, y | x in xs && y in ys :: le(x, y)
    ensures SortedBy(xs + ys, le)
  {
  }

  /** The order does not tell `x` from `v`. */
  function Tie<T>(le: (T, T) -> bool, v: T): T -> bool { x => le(x, v) && le(v, x) }

  /** The elements that tie with `v`, in the order in which they stand. */
  function Ties<T>(xs: seq<T>, le: (T, T) -> bool, v: T): seq<T> {
    Filter(xs, Tie(le, v))
  }

  /** `ys` is `xs` sorted stably: in order, and with ties standing as they stood. */
  ghost predicate StableSort<T(!new)>(ys: seq<T>, xs: seq<T>, le: (T, T) -> bool) {
    && SortedBy(ys, le)
    && forall v :: Ties(ys, le, v) == Ties(xs, le, v)
  }

  /** Only one sequence is a stable sort of another. */
  lemma {:induction false} StableSortUnique<T(!new)>(ys: seq<T>, zs: seq<T>, le: (T, T) -> bool)
    requires TotalPreorder(le) && SortedBy(ys, le) && SortedBy(zs, le)
    requires forall v :: Ties(ys, le, v) == Ties(zs, le, v)
    ensures ys == zs
  {
    if ys != [] || zs != [] {
      LastsAgree(ys, zs, le);
      var m, n := |ys| - 1, |zs| - 1;
      forall v ensures Ties(ys[..m], le, v) == Ties(zs[..n], le, v) {
        var ties := Ties(ys, le, v);
        assert ties == Ties(zs, le, v);
        var tail := if le(ys[m], v) && le(v, ys[m]) then [ys[m]] else [];
        assert ties == Ties(ys[..m], le, v) + tail;
        assert ties == Ties(zs[..n], le, v) + tail;
        assert Ties(ys[..m], le, v) == ties[..|ties| - |tail|];
      }
      StableSortUnique(ys[..m], zs[..n], le);
      assert ys == ys[..m] + [ys[m]] && zs == zs[..n] + [zs[n]];
    }
  }

  lemma LastsAgree<T(!new)>(ys: seq<T>, zs: seq<T>, le: (T, T) -> bool)
    requires TotalPreorder(le) && SortedBy(ys, le) && SortedBy(zs, le)
    requires forall v :: Ties(ys, le, v) == Ties(zs, le, v)
    requires ys != [] || zs != []
    ensures ys != [] && zs != [] && ys[|ys| - 1] == zs[|zs| - 1]
  {
    if ys != [] {
      LastIsBelow(ys, zs, le);
    }
    if zs != [] {
      LastIsBelow(zs, ys, le);
    }
    var y, z := ys[|ys| - 1], zs[|zs| - 1];
    var ties := Ties(ys, le, y);
    assert le(y, y) && ties == Ties(zs, le, y);
    assert ties[|ties| - 1] == y;
    assert ties[|ties| - 1] == z;
  }

  lemma LastIsBelow<T(!new)>(ys: seq<T>, zs: seq<T>, le: (T, T) -> bool)
    requires TotalPreorder(le) && SortedBy(zs, le) && ys != []
    requires forall v :: Ties(ys, le, v) == Ties(zs, le, v)
    ensures zs != [] && le(ys[|ys| - 1], zs[|zs| - 1])
  {
    var y := ys[|ys| - 1];
    assert le(y, y);
    FilterMembers(ys, Tie(le, y));
    FilterMembers(zs, Tie(le, y));
    assert y in Ties(ys, le, y) && Ties(ys, le, y) == Ties(zs, le, y);
    var i :| 0 <= i < |zs| && zs[i] == y;
  }

  /** A stable sort loses nothing and adds nothing. */
  lemma StableSortKeepsAll<T(!new)>(ys: seq<T>, xs: seq<T>, le: (T, T) -> bool)
    requires TotalPreorder(le) && StableSort(ys, xs, le)
    ensures multiset(ys) == multiset(xs)
  {
    forall v ensures multiset(ys)[v] == multiset(xs)[v] {
      assert le(v, v) && Ties(ys, le, v) == Ties(xs, le, v);
      CountTies(ys, le, v);
      CountTies(xs, le, v);
    }
  }

  lemma {:induction false} CountTies<T(!new)>(xs: seq<T>, le: (T, T) -> bool, v: T)
    requires le(v, v)
    ensures multiset(Ties(xs, le, v))[v] == multiset(xs)[v]
  {
    if xs != [] {
      CountTies(xs[..|xs| - 1], le, v);
      assert xs == xs[..|xs| - 1] + [xs[|xs| - 1]];
    }
  }

  // ---------------------------------------------------------------- one exists

  function Insert<T>(ys: seq<T>, x: T, le: (T, T) -> bool): seq<T> {
    if ys == [] || le(ys[|ys| - 1], x) then ys + [x]
    else Insert(ys[..|ys| - 1], x, le) + [ys[|ys| - 1]]
  }

  /** Array.prototype.sort, which is stable; by uniqueness any stable algorithm gives this result. */
  function Sort<T>(xs: seq<T>, le: (T, T) -> bool): seq<T> {
    if xs == [] then [] else Insert(Sort(xs[..|xs| - 1], le), xs[|xs| - 1], le)
  }

  lemma {:induction false} InsertMembers<T>(ys: seq<T>, x: T, le: (T, T) -> bool)
    ensures forall y :: y in Insert(ys, x, le) <==> y in ys || y == x
  {
    if ys != [] && !le(ys[|ys| - 1], x) {
      InsertMembers(ys[..|ys| - 1], x, le);
      assert ys == ys[..|ys| - 1] + [ys[|ys| - 1]];
    }
  }

  lemma {:induction false} InsertSorted<T(!new)>(ys: seq<T>, x: T, le: (T, T) -> bool)
    requires TotalPreorder(le) && SortedBy(ys, le)
    ensures SortedBy(Insert(ys, x, le), le)
  {
    if ys != [] {
      var init, last := ys[..|ys| - 1], ys[|ys| - 1];
      if le(last, x) {
        forall i | 0 <= i < |ys| ensures le(ys[i], x) {
          assert i < |ys| - 1 ==> le(ys[i], last);
        }
      } else {
        InsertSorted(init, x, le);
        InsertMembers(init, x, le);
        var r := Insert(init, x, le);
        forall i | 0 <= i < |r| ensures le(r[i], last) {
          assert r[i] in r;
          if r[i] != x {
            var j :| 0 <= j < |init| && init[j] == r[i];
            assert ys[j] == r[i] && le(ys[j], ys[|ys| - 1]);
          }
        }
      }
    }
  }

  lemma {:induction false} InsertTies<T(!new)>(ys: seq<T>, x: T, le: (T, T) -> bool, v: T)
    requires TotalPreorder(le)
    ensures Ties(Insert(ys, x, le), le, v) == Ties(ys, le, v) + Ties([x], le, v)
  {
    if ys == [] || le(ys[|ys| - 1], x) {
      FilterConcat(ys, [x], Tie(le, v));
    } else {
      var init, last := ys[..|ys| - 1], ys[|ys| - 1];
      var tie := Tie(le, v);
      InsertTies(init, x, le, v);
      FilterConcat(Insert(init, x, le), [last], tie);
      FilterConcat(init, [last], tie);
      assert ys == init + [last];
      assert [x][..0] == [] && [last][..0] == [];
      assert !(tie(last) && tie(x));
    }
  }

  lemma {:induction false} SortIsStable<T(!new)>(xs: seq<T>, le: (T, T) -> bool)
    requires TotalPreorder(le)
    ensures StableSort(Sort(xs, le), xs, le)
  {
    if xs != [] {
      var init, last := xs[..|xs| - 1], xs[|xs| - 1];
      SortIsStable(init, le);
      InsertSorted(Sort(init, le), last, le);
      forall v ensures Ties(Sort(xs, le), le, v) == Ties(xs, le, v) {
        InsertTies(Sort(init, le), last, le, v);
        FilterConcat(init, [last], Tie(le, v));
        assert xs == init + [last];
        assert Ties(Sort(init, le), le, v) == Ties(init, le, v);
      }
    }
  }

  /** Sorting what is already sorted changes nothing. */
  lemma SortTwice<T(!new)>(xs: seq<T>, le: (T, T) -> bool)
    requires TotalPreorder(le)
    ensures Sort(Sort(xs, le), le) == Sort(xs, le)
  {
    SortIsStable(xs, le);
    SortIsStable(Sort(xs, le), le);
    StableSortUnique(Sort(Sort(xs, le), le), Sort(xs, le), le);
  }
}
