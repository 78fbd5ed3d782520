/** Python's `sorted`: a stable sort by a total preorder, and the only result it can have. */
module StableSorting {

  ghost predicate Preorder<T(!new)>(le: (T, T) -> bool) {
    && (forall a, b :: le(a, b) || le(b, a))
    && forall a, b, c :: le(a, b) && le(b, c) ==> le(a, c)
  }

  ghost predicate Sorted<T>(s: seq<T>, le: (T, T) -> bool) {
    forall i, j :: 0 <= i <= j < |s| ==> le(s[i], s[j])
  }

  /** After everything that does not come strictly later. */
  function Insert<T>(x: T, s: seq<T>, le: (T, T) -> bool): seq<T> {
    if s == [] then [x]
    else
      var n := |s| - 1;
      if le(s[n], x) then s + [x] else Insert(x, s[..n], le) + [s[n]]
  }

  function SortBy<T>(s: seq<T>, le: (T, T) -> bool): seq<T> {
    if s == [] then [] else Insert(s[|s| - 1], SortBy(s[..|s| - 1], le), le)
  }

  predicate Same<T>(a: T, b: T, le: (T, T) -> bool) {
    le(a, b) && le(b, a)
  }

  /** The elements that rank like x, in the order they have in s. */
  function Ties<T>(s: seq<T>, x: T, le: (T, T) -> bool): seq<T> {
    if s == [] then []
    else
      var n := |s| - 1;
      Ties(s[..n], x, le) + if Same(s[n], x, le) then [s[n]] else []
  }

  lemma TiesAppend<T>(s: seq<T>, y: T, x: T, le: (T, T) -> bool)
    ensures Ties(s + [y], x, le) == Ties(s, x, le) + if Same(y, x, le) then [y] else []
  {
    assert (s + [y])[..|s|] == s;
  }

  lemma {:induction false} InsertPermutes<T>(x: T, s: seq<T>, le: (T, T) -> bool)
    ensures multiset(Insert(x, s, le)) == multiset(s) + multiset{x}
  {
    if s != [] {
      var n := |s| - 1;
      InsertPermutes(x, s[..n], le);
      assert s == s[..n] + [s[n]];
    }
  }

  lemma SortedAppend<T(!new)>(s: seq<T>, y: T, le: (T, T) -> bool)
    requires Preorder(le) && Sorted(s, le) && (s != [] ==> le(s[|s| - 1], y))
    ensures Sorted(s + [y], le)
  {
    assert le(y, y);
    forall i, j | 0 <= i <= j < |s + [y]| ensures le((s + [y])[i], (s + [y])[j]) {
      if i < |s| == j {
        assert le(s[i], s[|s| - 1]);
      }
    }
  }

  lemma {:induction false} InsertSorts<T(!new)>(x: T, s: seq<T>, le: (T, T) -> bool)
    requires Preorder(le) && Sorted(s, le)
    ensures Sorted(Insert(x, s, le), le)
    ensures |Insert(x, s, le)| == |s| + 1
    ensures Insert(x, s, le)[|s|] == if s != [] && !le(s[|s| - 1], x) then s[|s| - 1] else x
  {
    if s == [] || le(s[|s| - 1], x) {
      SortedAppend(s, x, le);
    } else {
      var n := |s| - 1;
      InsertSorts(x, s[..n], le);
      assert n > 0 ==> le(s[n - 1], s[n]);
      SortedAppend(Insert(x, s[..n], le), s[n], le);
    }
  }

  lemma {:induction false} InsertKeepsTies<T(!new)>(x: T, s: seq<T>, y: T, le: (T, T) -> bool)
    requires Preorder(le) && Sorted(s, le)
    ensures Ties(Insert(x, s, le), y, le) == Ties(s + [x], y, le)
  {
    if s != [] {
      var n := |s| - 1;
      if !le(s[n], x) {
        InsertKeepsTies(x, s[..n], y, le);
        TiesAppend(Insert(x, s[..n], le), s[n], y, le);
        TiesAppend(s[..n], x, y, le);
        TiesAppend(s, x, y, le);
      }
    }
  }

  lemma NothingSorted<T>(le: (T, T) -> bool)
    ensures Sorted([], le)
  {
  }

  lemma {:induction false} SortSorts<T(!new)>(s: seq<T>, le: (T, T) -> bool)
    requires Preorder(le)
    ensures Sorted(SortBy(s, le), le) && multiset(SortBy(s, le)) == multiset(s)
  {
    hide Sorted, Preorder, Insert;
    if s == [] {
      NothingSorted(le);
    } else {
      var n := |s| - 1;
      SortSorts(s[..n], le);
      InsertSorts(s[n], SortBy(s[..n], le), le);
      InsertPermutes(s[n], SortBy(s[..n], le), le);
      assert s == s[..n] + [s[n]];
    }
  }

  lemma {:induction false} SortKeepsTies<T(!new)>(s: seq<T>, x: T, le: (T, T) -> bool)
    requires Preorder(le)
    ensures Ties(SortBy(s, le), x, le) == Ties(s, x, le)
  {
    if s != [] {
      var n := |s| - 1;
      SortKeepsTies(s[..n], x, le);
      SortSorts(s[..n], le);
      InsertKeepsTies(s[n], SortBy(s[..n], le), x, le);
      TiesAppend(SortBy(s[..n], le), s[n], x, le);
    }
  }

  /** The result is in order and is a permutation that keeps elements of equal rank as they stood. */
  lemma SortIsStable<T(!new)>(s: seq<T>, le: (T, T) -> bool)
    requires Preorder(le)
    ensures Sorted(SortBy(s, le), le) && multiset(SortBy(s, le)) == multiset(s)
    ensures forall x :: Ties(SortBy(s, le), x, le) == Ties(s, x, le)
  {
    SortSorts(s, le);
    forall x ensures Ties(SortBy(s, le), x, le) == Ties(s, x, le) {
      SortKeepsTies(s, x, le);
    }
  }

  lemma {:induction false} TiesMembers<T(!new)>(s: seq<T>, x: T, le: (T, T) -> bool)
    requires Preorder(le)
    ensures forall y :: y in Ties(s, x, le) <==> y in s && Same(y, x, le)
  {
    if s != [] {
      TiesMembers(s[..|s| - 1], x, le);
      assert s == s[..|s| - 1] + [s[|s| - 1]];
    }
  }

  lemma LastOfSorted<T(!new)>(a: seq<T>, b: seq<T>, le: (T, T) -> bool)
    requires Preorder(le) && Sorted(a, le) && Sorted(b, le) && a != [] && b != []
    requires forall x :: Ties(a, x, le) == Ties(b, x, le)
    ensures a[|a| - 1] == b[|b| - 1]
  {
    var x, y := a[|a| - 1], b[|b| - 1];
    TiesMembers(a, y, le);
    TiesMembers(b, x, le);
    assert y in Ties(b, y, le) by { TiesMembers(b, y, le); }
    assert x in Ties(a, x, le) by { TiesMembers(a, x, le); }
    assert y in a && x in b;
    assert le(y, x) && le(x, y);
    assert Ties(a, x, le)[|Ties(a, x, le)| - 1] == x;
    assert Ties(b, x, le)[|Ties(b, x, le)| - 1] == y;
  }

  /** A list in order with the same ties is the sorted list, however it was computed. */
  lemma {:induction false} StableSortIsUnique<T(!new)>(a: seq<T>, b: seq<T>, le: (T, T) -> bool)
    requires Preorder(le) && Sorted(a, le) && Sorted(b, le)
    requires forall x :: Ties(a, x, le) == Ties(b, x, le)
    ensures a == b
  {
    if a == [] || b == [] {
      if a == [] { EmptyTies(a, b, le); } else { EmptyTies(b, a, le); }
    } else {
      LastOfSorted(a, b, le);
      var n, m := |a| - 1, |b| - 1;
      forall x ensures Ties(a[..n], x, le) == Ties(b[..m], x, le) {
        assert Ties(a, x, le) == Ties(b, x, le);
        assert a == a[..n] + [a[n]] && b == b[..m] + [b[m]];
        TiesAppend(a[..n], a[n], x, le);
        TiesAppend(b[..m], b[m], x, le);
        SameEnd(Ties(a[..n], x, le), Ties(b[..m], x, le), if Same(a[n], x, le) then [a[n]] else []);
      }
      StableSortIsUnique(a[..n], b[..m], le);
      assert a == a[..n] + [a[n]] && b == b[..m] + [b[m]];
    }
  }

  lemma OwnTie<T(!new)>(s: seq<T>, le: (T, T) -> bool)
    requires Preorder(le) && s != []
    ensures Ties(s, s[0], le) != []
  {
    TiesMembers(s, s[0], le);
    assert Same(s[0], s[0], le);
    assert s[0] in Ties(s, s[0], le);
  }

  lemma EmptyTies<T(!new)>(a: seq<T>, b: seq<T>, le: (T, T) -> bool)
    requires Preorder(le) && a == [] && forall x :: Ties(a, x, le) == Ties(b, x, le)
    ensures b == []
  {
    if b != [] {
      OwnTie(b, le);
    }
  }

  lemma SameEnd<T>(u: seq<T>, v: seq<T>, end: seq<T>)
    requires u + end == v + end
    ensures u == v
  {
    assert u == (u + end)[..|u|] && v == (v + end)[..|v|];
  }
}
