/** List operations that the Rust code takes from iterators: `filter`, and the stable `sort_by`. */
module Sequences {

  function Filter<T>(s: seq<T>, p: T -> bool): (r: seq<T>)
    ensures |r| <= |s|
    ensures forall x :: x in r ==> x in s && p(x)
    ensures forall x :: x in s && p(x) ==> x in r
  {
    if s == [] then []
    else if p(s[0]) then [s[0]] + Filter(s[1..], p)
    else Filter(s[1..], p)
  }

  lemma {:induction false} FilterConcat<T>(a: seq<T>, b: seq<T>, p: T -> bool)
    ensures Filter(a + b, p) == Filter(a, p) + Filter(b, p)
  {
    if a == [] {
      assert a + b == b;
    } else {
      var rest := a[1..] + b;
      assert a + b == [a[0]] + rest;
      FilterConcat(a[1..], b, p);
    }
  }

  /** Filtering one element more. */
  lemma FilterTake<T>(s: seq<T>, i: nat, p: T -> bool)
    requires i < |s|
    ensures Filter(s[..i + 1], p) == Filter(s[..i], p) + (if p(s[i]) then [s[i]] else [])
  {
    FilterConcat(s[..i], [s[i]], p);
    assert s[..i + 1] == s[..i] + [s[i]];
  }

  /** One step of a loop that filters. */
  lemma FilterPush<T>(s: seq<T>, i: nat, p: T -> bool, before: seq<T>, ok: bool, after: seq<T>)
    requires i < |s| && before == Filter(s[..i], p) && ok == p(s[i])
    requires after == if ok then before + [s[i]] else before
    ensures after == Filter(s[..i + 1], p)
  {
    FilterTake(s, i, p);
  }

  /** Filters that agree on the list give the same result. */
  lemma {:induction false} FilterSame<T>(s: seq<T>, p: T -> bool, q: T -> bool)
    requires forall i :: 0 <= i < |s| ==> p(s[i]) == q(s[i])
    ensures Filter(s, p) == Filter(s, q)
  {
    if s != [] {
      FilterSame(s[1..], p, q);
    }
  }

  /** Dropping elements a filter rejects does not change what it selects. */
  lemma {:induction false} FilterThrough<T>(s: seq<T>, keep: T -> bool, p: T -> bool)
    requires forall x :: x in s && p(x) ==> keep(x)
    ensures Filter(Filter(s, keep), p) == Filter(s, p)
  {
    if s != [] {
      FilterThrough(s[1..], keep, p);
      assert s[0] in s;
      if keep(s[0]) {
        assert Filter(s, keep) == [s[0]] + Filter(s[1..], keep);
      }
    }
  }

  lemma {:induction false} FilterTwice<T>(s: seq<T>, p: T -> bool, q: T -> bool, both: T -> bool)
    requires forall x :: x in s ==> both(x) == (p(x) && q(x))
    ensures Filter(s, both) == Filter(Filter(s, p), q)
  {
    if s != [] {
      assert s[0] in s;
      FilterTwice(s[1..], p, q, both);
    }
  }

  /** The order of two filters does not matter. */
  lemma FiltersCommute<T>(s: seq<T>, p: T -> bool, q: T -> bool)
    ensures Filter(Filter(s, p), q) == Filter(Filter(s, q), p)
  {
    FilterTwice(s, p, q, x => p(x) && q(x));
    FilterTwice(s, q, p, x => p(x) && q(x));
  }

  /** Two complementary filters share the list out between them. */
  lemma {:induction false} FilterSplitsMultiset<T>(s: seq<T>, p: T -> bool, q: T -> bool)
    requires forall i :: 0 <= i < |s| ==> p(s[i]) != q(s[i])
    ensures multiset(Filter(s, p)) + multiset(Filter(s, q)) == multiset(s)
  {
    if s != [] {
      FilterSplitsMultiset(s[1..], p, q);
      assert s == [s[0]] + s[1..];
    }
  }

  /** A filter keeps every occurrence of what it selects. */
  lemma {:induction false} FilterCounts<T>(s: seq<T>, p: T -> bool, x: T)
    ensures multiset(Filter(s, p))[x] == if p(x) then multiset(s)[x] else 0
  {
    if s != [] {
      FilterCounts(s[1..], p, x);
      assert s == [s[0]] + s[1..];
    }
  }

  lemma {:induction false} FilterAll<T>(s: seq<T>, p: T -> bool)
    requires forall i :: 0 <= i < |s| ==> p(s[i])
    ensures Filter(s, p) == s
  {
    if s != [] {
      FilterAll(s[1..], p);
    }
  }

  lemma {:induction false} FilterNone<T>(s: seq<T>, p: T -> bool)
    requires forall i :: 0 <= i < |s| ==> !p(s[i])
    ensures Filter(s, p) == []
  {
    if s != [] {
      FilterNone(s[1..], p);
    }
  }

  predicate Distinct<T(==)>(s: seq<T>) {
    forall i, j :: 0 <= i < j < |s| ==> s[i] != s[j]
  }

  // ---------------------------------------------------------------------------
  // Stable sorting
  // ---------------------------------------------------------------------------

  ghost predicate TotalPreorder<T(!new)>(le: (T, T) -> bool) {
    && (forall x, y :: le(x, y) || le(y, x))
    && (forall x, y, z :: le(x, y) && le(y, z) ==> le(x, z))
  }

  predicate Sorted<T>(s: seq<T>, le: (T, T) -> bool) {
    forall i, j :: 0 <= i < j < |s| ==> le(s[i], s[j])
  }

  /** Put `x` behind every element that is not greater: ties keep their arrival order. */
  function Insert<T>(s: seq<T>, x: T, le: (T, T) -> bool): (r: seq<T>)
    ensures |r| == |s| + 1
    ensures multiset(r) == multiset(s) + multiset{x}
  {
    if s == [] || le(s[|s| - 1], x) then s + [x]
    else
      assert s == s[..|s| - 1] + [s[|s| - 1]];
      Insert(s[..|s| - 1], x, le) + [s[|s| - 1]]
  }

  /** The list `sort_by` leaves behind. */
  function StableSort<T>(s: seq<T>, le: (T, T) -> bool): (r: seq<T>)
    ensures |r| == |s|
    ensures multiset(r) == multiset(s)
  {
    if s == [] then []
    else
      assert s == s[..|s| - 1] + [s[|s| - 1]];
      Insert(StableSort(s[..|s| - 1], le), s[|s| - 1], le)
  }

  lemma SameElements<T>(a: seq<T>, b: seq<T>)
    requires multiset(a) == multiset(b)
    ensures forall x :: x in a <==> x in b
  {
    forall x ensures x in a <==> x in b {
      assert x in a <==> x in multiset(a);
    }
  }

  lemma {:induction false} InsertSorted<T(!new)>(s: seq<T>, x: T, le: (T, T) -> bool)
    requires TotalPreorder(le) && Sorted(s, le)
    ensures Sorted(Insert(s, x, le), le)
  {
    if s == [] || le(s[|s| - 1], x) {
    } else {
      var front, last := s[..|s| - 1], s[|s| - 1];
      InsertSorted(front, x, le);
      var r := Insert(front, x, le);
      forall i | 0 <= i < |r| ensures le(r[i], last) {
        assert r[i] in multiset(r);
        assert r[i] in front || r[i] == x;
      }
    }
  }

  lemma {:induction false} StableSortSorted<T(!new)>(s: seq<T>, le: (T, T) -> bool)
    requires TotalPreorder(le)
    ensures Sorted(StableSort(s, le), le)
  {
    if s != [] {
      StableSortSorted(s[..|s| - 1], le);
      InsertSorted(StableSort(s[..|s| - 1], le), s[|s| - 1], le);
    }
  }

  lemma SortLast<T>(front: seq<T>, last: T, le: (T, T) -> bool)
    ensures StableSort(front + [last], le) == Insert(StableSort(front, le), last, le)
  {
    assert (front + [last])[..|front|] == front;
  }

  /** Sorting what a filter selects is selecting from the sorted list. */
  lemma {:induction false} StableSortFilter<T(!new)>(s: seq<T>, le: (T, T) -> bool, p: T -> bool)
    requires TotalPreorder(le)
    ensures StableSort(Filter(s, p), le) == Filter(StableSort(s, le), p)
  {
    if s != [] {
      StableSortFilter(s[..|s| - 1], le, p);
      SplitLast(s);
      SortFilterStep(s[..|s| - 1], s[|s| - 1], le, p);
    }
  }

  lemma SortFilterStep<T(!new)>(front: seq<T>, last: T, le: (T, T) -> bool, p: T -> bool)
    requires TotalPreorder(le) && StableSort(Filter(front, p), le) == Filter(StableSort(front, le), p)
    ensures StableSort(Filter(front + [last], p), le) == Filter(StableSort(front + [last], le), p)
  {
    StableSortSorted(front, le);
    SortLast(front, last, le);
    InsertFilter(StableSort(front, le), last, le, p);
    FilterConcat(front, [last], p);
    FilterOne(last, p);
    if p(last) {
      SortLast(Filter(front, p), last, le);
    } else {
      assert Filter(front, p) + [] == Filter(front, p);
    }
  }

  lemma FilterOne<T>(x: T, p: T -> bool)
    ensures Filter([x], p) == if p(x) then [x] else []
  {
  }

  lemma InsertFilterAtEnd<T(!new)>(s: seq<T>, x: T, le: (T, T) -> bool, p: T -> bool)
    requires TotalPreorder(le) && Sorted(s, le) && (s == [] || le(s[|s| - 1], x))
    ensures Filter(Insert(s, x, le), p) == if p(x) then Insert(Filter(s, p), x, le) else Filter(s, p)
  {
    var t := Filter(s, p);
    FilterConcat(s, [x], p);
    FilterOne(x, p);
    if p(x) {
      if t != [] {
        AtMostLast(s, t[|t| - 1], le);
      }
      InsertAtEnd(t, x, le);
    } else {
      assert t + [] == t;
    }
  }

  /** One step of the insertion, once the rest of the list is dealt with. */
  lemma InsertFilterStep<T>(front: seq<T>, last: T, x: T, le: (T, T) -> bool, p: T -> bool)
    requires !le(last, x)
    requires Filter(Insert(front, x, le), p) == if p(x) then Insert(Filter(front, p), x, le) else Filter(front, p)
    ensures Filter(Insert(front + [last], x, le), p)
         == if p(x) then Insert(Filter(front + [last], p), x, le) else Filter(front + [last], p)
  {
    InsertBefore(front, last, x, le);
    FilterConcat(Insert(front, x, le), [last], p);
    FilterConcat(front, [last], p);
    FilterOne(last, p);
    if p(last) {
      InsertBefore(Filter(front, p), last, x, le);
    } else {
      assert Filter(front, p) + [] == Filter(front, p);
    }
  }

  lemma {:induction false} InsertFilter<T(!new)>(s: seq<T>, x: T, le: (T, T) -> bool, p: T -> bool)
    requires TotalPreorder(le) && Sorted(s, le)
    ensures Filter(Insert(s, x, le), p) == if p(x) then Insert(Filter(s, p), x, le) else Filter(s, p)
  {
    if s == [] || le(s[|s| - 1], x) {
      InsertFilterAtEnd(s, x, le, p);
    } else {
      var front, last := s[..|s| - 1], s[|s| - 1];
      InsertFilter(front, x, le, p);
      InsertFilterStep(front, last, x, le, p);
      SplitLast(s);
    }
  }

  lemma AtMostLast<T(!new)>(s: seq<T>, y: T, le: (T, T) -> bool)
    requires TotalPreorder(le) && Sorted(s, le) && y in s
    ensures le(y, s[|s| - 1])
  {
    var i :| 0 <= i < |s| && s[i] == y;
    assert le(y, y);
  }

  lemma InsertBefore<T>(s: seq<T>, last: T, x: T, le: (T, T) -> bool)
    requires !le(last, x)
    ensures Insert(s + [last], x, le) == Insert(s, x, le) + [last]
  {
    assert (s + [last])[..|s|] == s;
  }

  lemma DistinctCounts<T>(s: seq<T>, x: T)
    requires Distinct(s)
    ensures multiset(s)[x] <= 1
    decreases |s|
  {
    if s != [] {
      var front, last := s[..|s| - 1], s[|s| - 1];
      assert s == front + [last];
      DistinctCounts(front, x);
      if x == last {
        assert x !in front;
        assert x !in multiset(front);
      }
    }
  }

  /** A permutation of distinct elements has them distinct. */
  lemma DistinctPermutation<T>(s: seq<T>, t: seq<T>)
    requires Distinct(s) && multiset(t) == multiset(s)
    ensures Distinct(t)
  {
    forall i, j | 0 <= i < j < |t| ensures t[i] != t[j] {
      DistinctCounts(s, t[i]);
      if t[i] == t[j] {
        TwiceCounts(t, i, j);
      }
    }
  }

  lemma TwiceCounts<T>(t: seq<T>, i: nat, j: nat)
    requires i < j < |t| && t[i] == t[j]
    ensures multiset(t)[t[i]] >= 2
  {
    assert t == t[..j] + [t[j]] + t[j + 1..];
    assert t[i] in t[..j];
    assert t[i] in multiset(t[..j]);
  }

  lemma InsertAtEnd<T>(s: seq<T>, x: T, le: (T, T) -> bool)
    requires s == [] || le(s[|s| - 1], x)
    ensures Insert(s, x, le) == s + [x]
  {
  }

  lemma SplitLast<T>(s: seq<T>)
    requires s != []
    ensures s == s[..|s| - 1] + [s[|s| - 1]]
  {
  }

  lemma {:induction false} StableSortOfSorted<T>(s: seq<T>, le: (T, T) -> bool)
    requires Sorted(s, le)
    ensures StableSort(s, le) == s
  {
    if s != [] {
      var n := |s| - 1;
      assert n > 0 ==> le(s[n - 1], s[n]);
      StableSortOfSorted(s[..n], le);
      InsertAtEnd(s[..n], s[n], le);
      SplitLast(s);
    }
  }

  function Ties<T>(le: (T, T) -> bool, pivot: T): T -> bool {
    x => le(x, pivot) && le(pivot, x)
  }

  /** Stability: elements that compare equal to `pivot` keep their order. */
  lemma StableSortKeepsTies<T(!new)>(s: seq<T>, le: (T, T) -> bool, pivot: T)
    requires TotalPreorder(le)
    ensures Filter(StableSort(s, le), Ties(le, pivot)) == Filter(s, Ties(le, pivot))
  {
    var tied := Filter(s, Ties(le, pivot));
    StableSortFilter(s, le, Ties(le, pivot));
    forall i, j | 0 <= i < j < |tied| ensures le(tied[i], tied[j]) {
      assert Ties(le, pivot)(tied[i]) && Ties(le, pivot)(tied[j]);
    }
    StableSortOfSorted(tied, le);
  }

  /** Elements that are all at or above an earlier batch sort behind it, batch by batch. */
  lemma {:induction false} StableSortAppend<T>(s: seq<T>, t: seq<T>, le: (T, T) -> bool)
    requires forall x, y :: x in s && y in t ==> le(x, y)
    ensures StableSort(s + t, le) == StableSort(s, le) + StableSort(t, le)
  {
    if t == [] {
      assert s + t == s;
      assert StableSort(s, le) + [] == StableSort(s, le);
    } else {
      StableSortAppend(s, t[..|t| - 1], le);
      SplitLast(t);
      SortAppendStep(s, t[..|t| - 1], t[|t| - 1], le);
    }
  }

  lemma SortLastOfSum<T>(s: seq<T>, front: seq<T>, last: T, le: (T, T) -> bool)
    ensures StableSort(s + (front + [last]), le) == Insert(StableSort(s + front, le), last, le)
  {
    assert s + (front + [last]) == s + front + [last];
    SortLast(s + front, last, le);
  }

  lemma SortedBelow<T>(s: seq<T>, last: T, le: (T, T) -> bool)
    requires forall x :: x in s ==> le(x, last)
    ensures forall y :: y in StableSort(s, le) ==> le(y, last)
  {
    forall y | y in StableSort(s, le) ensures le(y, last) {
      assert y in multiset(StableSort(s, le));
    }
  }

  lemma SortAppendStep<T>(s: seq<T>, front: seq<T>, last: T, le: (T, T) -> bool)
    requires forall x :: x in s ==> le(x, last)
    requires StableSort(s + front, le) == StableSort(s, le) + StableSort(front, le)
    ensures StableSort(s + (front + [last]), le) == StableSort(s, le) + StableSort(front + [last], le)
  {
    SortedBelow(s, last, le);
    InsertAppend(StableSort(s, le), StableSort(front, le), last, le);
    SortLast(front, last, le);
    SortLastOfSum(s, front, last, le);
  }

  lemma {:induction false} InsertAppend<T>(s: seq<T>, r: seq<T>, x: T, le: (T, T) -> bool)
    requires forall y :: y in s ==> le(y, x)
    ensures Insert(s + r, x, le) == s + Insert(r, x, le)
  {
    if r == [] {
      assert s + r == s;
      assert s + ([] + [x]) == s + [x];
    } else {
      var last := r[|r| - 1];
      assert (s + r)[|s + r| - 1] == last;
      if le(last, x) {
        assert s + r + [x] == s + (r + [x]);
      } else {
        assert (s + r)[..|s + r| - 1] == s + r[..|r| - 1];
        InsertAppend(s, r[..|r| - 1], x, le);
        assert s + Insert(r[..|r| - 1], x, le) + [last] == s + (Insert(r[..|r| - 1], x, le) + [last]);
      }
    }
  }
}
