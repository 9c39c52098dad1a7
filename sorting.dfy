/** Ordering of query results. A SQL `ORDER BY` and a JavaScript comparator sort are both
    described by a total preorder `le` ("may come first"); `SortBy` is a stable insertion
    sort by such a preorder. */
module Sorting {

  /** `le` is total and transitive, as every ORDER BY key list and comparator used here is. */
  ghost predicate TotalPreorder<T(!new)>(le: (T, T) -> bool)
  {
    && (forall a, b :: le(a, b) || le(b, a))
    && (forall a, b, c :: le(a, b) && le(b, c) ==> le(a, c))
  }

  /** Every earlier element may come before every later one. */
  ghost predicate SortedBy<T>(s: seq<T>, le: (T, T) -> bool)
  {
    forall i, j :: 0 <= i < j < |s| ==> le(s[i], s[j])
  }

  /** `a` and `b` are tied under `le`. */
  predicate Tied<T>(le: (T, T) -> bool, a: T, b: T)
  {
    le(a, b) && le(b, a)
  }

  /** The elements of `s` tied with `y`, in the order they occur in `s`. */
  function TiedWith<T>(s: seq<T>, y: T, le: (T, T) -> bool): (r: seq<T>)
    ensures |r| <= |s|
  {
    if s == [] then []
    else if Tied(le, s[0], y) then [s[0]] + TiedWith(s[1..], y, le)
    else TiedWith(s[1..], y, le)
  }

  /** Inserts `x` before the first element it may precede, so `x` goes ahead of its ties. */
  function Insert<T>(x: T, s: seq<T>, le: (T, T) -> bool): (r: seq<T>)
    ensures |r| == |s| + 1
    ensures multiset(r) == multiset(s) + multiset{x}
  {
    if s == [] then [x]
    else if le(x, s[0]) then [x] + s
    else
      assert s == [s[0]] + s[1..];
      [s[0]] + Insert(x, s[1..], le)
  }

  /** Stable insertion sort: each element is inserted ahead of the already sorted rest. */
  function SortBy<T>(s: seq<T>, le: (T, T) -> bool): (r: seq<T>)
    ensures |r| == |s|
    ensures multiset(r) == multiset(s)
  {
    if s == [] then []
    else
      assert s == [s[0]] + s[1..];
      Insert(s[0], SortBy(s[1..], le), le)
  }

  lemma {:induction false} InsertSorted<T(!new)>(x: T, s: seq<T>, le: (T, T) -> bool)
    requires TotalPreorder(le)
    requires SortedBy(s, le)
    ensures SortedBy(Insert(x, s, le), le)
  {
    if s == [] || le(x, s[0]) {
      var r := Insert(x, s, le);
      forall i, j | 0 <= i < j < |r| ensures le(r[i], r[j]) {
        if i == 0 && s != [] {
          assert r[j] == s[j - 1];
          if j - 1 > 0 { assert le(s[0], s[j - 1]); }
        }
      }
    } else {
      var t := Insert(x, s[1..], le);
      InsertSorted(x, s[1..], le);
      var r := [s[0]] + t;
      assert le(s[0], x);
      forall j | 0 <= j < |t| ensures le(s[0], t[j]) {
        assert t[j] in multiset(t);
        if t[j] != x {
          assert t[j] in multiset(s[1..]);
          var k :| 0 <= k < |s[1..]| && s[1..][k] == t[j];
          assert s[k + 1] == t[j];
        }
      }
      assert Insert(x, s, le) == r;
    }
  }

  lemma {:induction false} SortByIsSorted<T(!new)>(s: seq<T>, le: (T, T) -> bool)
    requires TotalPreorder(le)
    ensures SortedBy(SortBy(s, le), le)
  {
    if s != [] {
      SortByIsSorted(s[1..], le);
      InsertSorted(s[0], SortBy(s[1..], le), le);
    }
  }

  lemma {:induction false} TiedWithConcat<T>(a: seq<T>, b: seq<T>, y: T, le: (T, T) -> bool)
    ensures TiedWith(a + b, y, le) == TiedWith(a, y, le) + TiedWith(b, y, le)
  {
    if a == [] {
      assert a + b == b;
    } else {
      assert (a + b)[0] == a[0] && (a + b)[1..] == a[1..] + b;
      TiedWithConcat(a[1..], b, y, le);
    }
  }

  /** Inserting `x` into a sorted sequence puts it first among the elements tied with it. */
  lemma {:induction false} InsertKeepsTieOrder<T(!new)>(x: T, s: seq<T>, y: T, le: (T, T) -> bool)
    requires TotalPreorder(le)
    requires SortedBy(s, le)
    ensures TiedWith(Insert(x, s, le), y, le) == TiedWith([x], y, le) + TiedWith(s, y, le)
  {
    if s == [] || le(x, s[0]) {
      TiedWithConcat([x], s, y, le);
    } else {
      assert SortedBy(s[1..], le);
      InsertKeepsTieOrder(x, s[1..], y, le);
      TiedWithConcat([s[0]], Insert(x, s[1..], le), y, le);
      TiedWithConcat([x], s[1..], y, le);
      if Tied(le, x, y) {
        assert !Tied(le, s[0], y);
      }
      assert TiedWith(s, y, le) == TiedWith([s[0]], y, le) + TiedWith(s[1..], y, le) by {
        assert s == [s[0]] + s[1..];
        TiedWithConcat([s[0]], s[1..], y, le);
      }
    }
  }

  /** Stability: among elements tied with any `y`, the sort keeps their input order. */
  lemma {:induction false} SortByIsStable<T(!new)>(s: seq<T>, y: T, le: (T, T) -> bool)
    requires TotalPreorder(le)
    ensures TiedWith(SortBy(s, le), y, le) == TiedWith(s, y, le)
  {
    if s != [] {
      SortByIsStable(s[1..], y, le);
      SortByIsSorted(s[1..], le);
      InsertKeepsTieOrder(s[0], SortBy(s[1..], le), y, le);
      assert s == [s[0]] + s[1..];
      TiedWithConcat([s[0]], s[1..], y, le);
    }
  }

  /** The first `n` elements, or all of them when there are fewer: JavaScript's
      `slice(0, n)` and SQL's `LIMIT n`. */
  function Take<T>(s: seq<T>, n: nat): (r: seq<T>)
    ensures |r| == if |s| <= n then |s| else n
    ensures r <= s
  {
    if |s| <= n then s else s[..n]
  }

  lemma TakeSorted<T>(s: seq<T>, n: nat, le: (T, T) -> bool)
    requires SortedBy(s, le)
    ensures SortedBy(Take(s, n), le)
  {
  }

  /** Cutting a sequence short keeps a prefix of each group of tied elements. */
  lemma TiedWithTake<T>(s: seq<T>, n: nat, y: T, le: (T, T) -> bool)
    ensures TiedWith(Take(s, n), y, le) <= TiedWith(s, y, le)
  {
    if n < |s| {
      assert s == s[..n] + s[n..];
      TiedWithConcat(s[..n], s[n..], y, le);
    }
  }

  /** The first `n` of a sorted permutation of `s`: at most `n` of its elements, in order,
      each of which may come before every element left out. This is `ORDER BY ... LIMIT n`
      and `sort(...).slice(0, n)`. */
  lemma TopOfSortBy<T(!new)>(s: seq<T>, n: nat, le: (T, T) -> bool)
    requires TotalPreorder(le)
    ensures var r := Take(SortBy(s, le), n);
      && multiset(r) <= multiset(s)
      && SortedBy(r, le)
      && forall x, y :: x in r && y in multiset(s) - multiset(r) ==> le(x, y)
  {
    var sorted := SortBy(s, le);
    SortByIsSorted(s, le);
    var r := Take(sorted, n);
    assert sorted == r + sorted[|r|..];
    assert multiset(s) == multiset(r) + multiset(sorted[|r|..]);
    forall x, y | x in r && y in multiset(s) - multiset(r) ensures le(x, y) {
      assert y in sorted[|r|..];
      var j :| 0 <= j < |sorted[|r|..]| && sorted[|r|..][j] == y;
      var i :| 0 <= i < |r| && r[i] == x;
      assert sorted[i] == x && sorted[|r| + j] == y;
    }
  }
}
