/** The stable library sort, for an order given as a strict "comes before" relation. */
module Sorting {

  ghost predicate StrictTotal<T(!new)>(lt: (T, T) -> bool) {
    && (forall a :: !lt(a, a))
    && (forall a, b, c :: lt(a, b) && lt(b, c) ==> lt(a, c))
    && (forall a, b :: a == b || lt(a, b) || lt(b, a))
  }

  /** Irreflexive, transitive, and being unordered is transitive: ties are allowed. */
  ghost predicate StrictWeak<T(!new)>(lt: (T, T) -> bool) {
    && (forall a :: !lt(a, a))
    && (forall a, b, c :: lt(a, b) && lt(b, c) ==> lt(a, c))
    && (forall a, b, c :: lt(a, c) ==> lt(a, b) || lt(b, c))
  }

  ghost predicate StrictlySorted<T>(s: seq<T>, lt: (T, T) -> bool) {
    forall i, j :: 0 <= i < j < |s| ==> lt(s[i], s[j])
  }

  ghost predicate Distinct<T>(s: seq<T>) {
    forall i, j :: 0 <= i < j < |s| ==> s[i] != s[j]
  }

  function Insert<T>(x: T, s: seq<T>, lt: (T, T) -> bool): (r: seq<T>)
    ensures multiset(r) == multiset{x} + multiset(s)
    ensures |r| == |s| + 1
  {
    if s == [] || !lt(s[0], x) then [x] + s
    else
      assert s == [s[0]] + s[1..];
      [s[0]] + Insert(x, s[1..], lt)
  }

  function Sort<T>(s: seq<T>, lt: (T, T) -> bool): (r: seq<T>)
    ensures multiset(r) == multiset(s)
    ensures |r| == |s|
  {
    if s == [] then []
    else
      assert s == [s[0]] + s[1..];
      Insert(s[0], Sort(s[1..], lt), lt)
  }

  lemma SortMembers<T>(s: seq<T>, lt: (T, T) -> bool)
    ensures forall x :: x in Sort(s, lt) <==> x in s
  {
    forall x ensures x in Sort(s, lt) <==> x in s {
      assert x in Sort(s, lt) <==> x in multiset(Sort(s, lt));
      assert x in s <==> x in multiset(s);
    }
  }

  /** The relation a stable sort realises: the comparison first, then the earlier position. */
  ghost predicate Before<T(!new)>(lt: (T, T) -> bool, earlier: (T, T) -> bool, a: T, b: T) {
    lt(a, b) || (!lt(b, a) && earlier(a, b))
  }

  ghost predicate Ordered<T(!new)>(s: seq<T>, lt: (T, T) -> bool, earlier: (T, T) -> bool) {
    forall i, j :: 0 <= i < j < |s| ==> Before(lt, earlier, s[i], s[j])
  }

  lemma {:induction false} InsertStable<T(!new)>(x: T, s: seq<T>, lt: (T, T) -> bool, earlier: (T, T) -> bool)
    requires StrictWeak(lt)
    requires Ordered(s, lt, earlier)
    requires forall y :: y in s ==> earlier(x, y)
    ensures Ordered(Insert(x, s, lt), lt, earlier)
  {
    var r := Insert(x, s, lt);
    if s == [] {
    } else if !lt(s[0], x) {
      assert r == [x] + s;
      forall j | 0 <= j < |s| ensures Before(lt, earlier, x, s[j]) {
        assert j > 0 ==> Before(lt, earlier, s[0], s[j]);
      }
    } else {
      var t := Insert(x, s[1..], lt);
      assert r == [s[0]] + t;
      InsertStable(x, s[1..], lt, earlier);
      forall y | y in t ensures Before(lt, earlier, s[0], y) {
        assert y in multiset(t);
        if y != x { assert y in s[1..]; }
      }
    }
  }

  /** The sort is stable: its result is ordered by the comparison and then by the original position. */
  lemma {:induction false} SortStable<T(!new)>(s: seq<T>, lt: (T, T) -> bool, earlier: (T, T) -> bool)
    requires StrictWeak(lt)
    requires StrictlySorted(s, earlier)
    ensures Ordered(Sort(s, lt), lt, earlier)
  {
    if s != [] {
      SortStable(s[1..], lt, earlier);
      SortMembers(s[1..], lt);
      InsertStable(s[0], Sort(s[1..], lt), lt, earlier);
    }
  }

  /** Two strictly sorted sequences with the same members are the same sequence. */
  lemma {:induction false} SortedUnique<T(!new)>(a: seq<T>, b: seq<T>, lt: (T, T) -> bool)
    requires forall x, y :: lt(x, y) ==> !lt(y, x)
    requires StrictlySorted(a, lt) && StrictlySorted(b, lt)
    requires forall x :: x in a <==> x in b
    ensures a == b
  {
    assert |a| > 0 ==> a[0] in b;
    assert |b| > 0 ==> b[0] in a;
    if |a| > 0 {
      assert a == [a[0]] + a[1..] && b == [b[0]] + b[1..];
      assert a[0] == b[0];
      assert a[0] !in a[1..] && b[0] !in b[1..];
      forall x ensures x in a[1..] <==> x in b[1..] {
        assert x in a <==> x == a[0] || x in a[1..];
        assert x in b <==> x == b[0] || x in b[1..];
      }
      SortedUnique(a[1..], b[1..], lt);
    }
  }

  lemma SortSameMembers<T>(a: seq<T>, b: seq<T>, lt: (T, T) -> bool)
    requires forall e :: e in a <==> e in b
    ensures forall e :: e in Sort(a, lt) <==> e in Sort(b, lt)
  {
    SortMembers(a, lt);
    SortMembers(b, lt);
  }

  lemma SortedSame<T(!new)>(a: seq<T>, b: seq<T>, lt: (T, T) -> bool)
    requires forall x, y :: lt(x, y) ==> !lt(y, x)
    requires StrictlySorted(Sort(a, lt), lt) && StrictlySorted(Sort(b, lt), lt)
    requires forall e :: e in a <==> e in b
    ensures Sort(a, lt) == Sort(b, lt)
  {
    SortSameMembers(a, b, lt);
    hide Sort;
    SortedUnique(Sort(a, lt), Sort(b, lt), lt);
  }

  function Filter<T(!new)>(xs: seq<T>, keep: T -> bool): (r: seq<T>)
    ensures forall x :: x in r <==> x in xs && keep(x)
  {
    if xs == [] then []
    else
      assert xs == [xs[0]] + xs[1..];
      (if keep(xs[0]) then [xs[0]] else []) + Filter(xs[1..], keep)
  }

  lemma {:induction false} FilterCount<T(!new)>(xs: seq<T>, keep: T -> bool, x: T)
    ensures multiset(Filter(xs, keep))[x] == if keep(x) then multiset(xs)[x] else 0
  {
    if xs != [] {
      assert xs == [xs[0]] + xs[1..];
      FilterCount(xs[1..], keep, x);
    }
  }

  lemma {:induction false} FilterConcat<T(!new)>(a: seq<T>, b: seq<T>, keep: T -> bool)
    ensures Filter(a + b, keep) == Filter(a, keep) + Filter(b, keep)
  {
    if a == [] {
      assert a + b == b;
    } else {
      assert (a + b)[0] == a[0] && (a + b)[1..] == a[1..] + b;
      FilterConcat(a[1..], b, keep);
    }
  }

  lemma FilterOne<T(!new)>(x: T, keep: T -> bool)
    ensures Filter([x], keep) == if keep(x) then [x] else []
  {
    assert [x][1..] == [];
  }

  lemma {:induction false} FilterNone<T(!new)>(xs: seq<T>, keep: T -> bool)
    requires forall x :: x in xs ==> !keep(x)
    ensures Filter(xs, keep) == []
  {
    if xs != [] { FilterNone(xs[1..], keep); }
  }

  /** What is kept and what is not make up the whole. */
  lemma {:induction false} FilterPartition<T(!new)>(xs: seq<T>, keep: T -> bool, drop: T -> bool)
    requires forall x :: drop(x) <==> !keep(x)
    ensures |Filter(xs, keep)| + |Filter(xs, drop)| == |xs|
  {
    if xs != [] { FilterPartition(xs[1..], keep, drop); }
  }

  lemma FilterPermuted<T(!new)>(a: seq<T>, b: seq<T>, keep: T -> bool)
    requires multiset(a) == multiset(b)
    ensures multiset(Filter(a, keep)) == multiset(Filter(b, keep))
  {
    forall x ensures multiset(Filter(a, keep))[x] == multiset(Filter(b, keep))[x] {
      FilterCount(a, keep, x);
      FilterCount(b, keep, x);
    }
  }

  lemma SmallSame<T(!new)>(f: seq<T>, g: seq<T>)
    requires multiset(f) == multiset(g) && |f| <= 1
    ensures f == g
  {
    assert |f| == |multiset(f)| && |g| == |multiset(g)|;
    if |f| == 1 { assert g[0] in multiset(f); }
  }

  /** Reordering changes neither the absence of kept items nor a single kept item. */
  lemma FilterReordered<T(!new)>(a: seq<T>, b: seq<T>, keep: T -> bool)
    requires multiset(a) == multiset(b) && |Filter(a, keep)| <= 1
    ensures Filter(b, keep) == Filter(a, keep)
  {
    FilterPermuted(a, b, keep);
    SmallSame(Filter(a, keep), Filter(b, keep));
  }

  /** One key decides, and where it ties another order does. */
  ghost predicate Refines<T(!new)>(lt: (T, T) -> bool, key: T -> string, less: (string, string) -> bool, next: (T, T) -> bool) {
    forall a, b :: lt(a, b) <==> if key(a) != key(b) then less(key(a), key(b)) else next(a, b)
  }

  lemma RefinedWeak<T(!new)>(lt: (T, T) -> bool, key: T -> string, less: (string, string) -> bool, next: (T, T) -> bool)
    requires StrictTotal(less) && StrictWeak(next) && Refines(lt, key, less, next)
    ensures StrictWeak(lt)
  {
    forall a ensures !lt(a, a) { assert lt(a, a) <==> next(a, a); }
    forall a, b, c | lt(a, b) && lt(b, c) ensures lt(a, c) { Asymmetric(less, key(a), key(b)); }
    forall a, b, c | lt(a, c) ensures lt(a, b) || lt(b, c) { Asymmetric(less, key(a), key(b)); }
  }

  lemma Asymmetric(less: (string, string) -> bool, x: string, y: string)
    requires StrictTotal(less)
    ensures !(less(x, y) && less(y, x))
  {
  }
}
