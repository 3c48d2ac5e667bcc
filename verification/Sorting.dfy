/** The stable sort of Rust's standard library, as a specification with its three laws. */
module Sorting {

  ghost predicate TotalPreorder<T(!new)>(le: (T, T) -> bool) {
    && (forall a, b :: le(a, b) || le(b, a))
    && (forall a, b, c :: le(a, b) && le(b, c) ==> le(a, c))
  }

  ghost predicate SortedBy<T>(s: seq<T>, le: (T, T) -> bool) {
    forall i, j :: 0 <= i < j < |s| ==> le(s[i], s[j])
  }

  /** `x` goes after everything not greater than it. */
  function Insert<T>(x: T, s: seq<T>, le: (T, T) -> bool): seq<T> {
    if s == [] then [x]
    else if le(s[0], x) then [s[0]] + Insert(x, s[1..], le)
    else [x] + s
  }

  function StableSort<T>(s: seq<T>, le: (T, T) -> bool): seq<T> {
    if s == [] then []
    else Insert(s[|s| - 1], StableSort(s[..|s| - 1], le), le)
  }

  function Filter<T>(s: seq<T>, keep: T -> bool): seq<T> {
    if s == [] then []
    else Filter(s[..|s| - 1], keep) + (if keep(s[|s| - 1]) then [s[|s| - 1]] else [])
  }

  lemma {:induction false} FilterOfConcat<T>(a: seq<T>, b: seq<T>, keep: T -> bool)
    ensures Filter(a + b, keep) == Filter(a, keep) + Filter(b, keep)
  {
    if b == [] {
      assert a + b == a;
    } else {
      var init := b[..|b| - 1];
      FilterOfConcat(a, init, keep);
      assert (a + b)[..|a + b| - 1] == a + init;
    }
  }

  lemma {:induction false} InsertKeepsElements<T>(x: T, s: seq<T>, le: (T, T) -> bool)
    ensures multiset(Insert(x, s, le)) == multiset(s) + multiset{x}
  {
    if s != [] && le(s[0], x) {
      InsertKeepsElements(x, s[1..], le);
      assert s == [s[0]] + s[1..];
    }
  }

  lemma {:induction false} InsertKeepsOrder<T(!new)>(x: T, s: seq<T>, le: (T, T) -> bool)
    requires TotalPreorder(le) && SortedBy(s, le)
    ensures SortedBy(Insert(x, s, le), le)
  {
    if s != [] && le(s[0], x) {
      var rest := Insert(x, s[1..], le);
      InsertKeepsOrder(x, s[1..], le);
      InsertKeepsElements(x, s[1..], le);
      forall y | y in rest
        ensures le(s[0], y)
      {
        assert y in multiset(rest);
        assert y == x || y in s[1..];
      }
    } else if s != [] {
      assert le(x, s[0]);
    }
  }

  lemma {:induction false} InsertIsStable<T(!new)>(x: T, s: seq<T>, le: (T, T) -> bool, keep: T -> bool)
    requires TotalPreorder(le) && SortedBy(s, le)
    requires forall a, b :: keep(a) && keep(b) ==> le(a, b)
    ensures Filter(Insert(x, s, le), keep) == Filter(s, keep) + Filter([x], keep)
  {
    if s == [] {
      assert Filter(s, keep) == [];
    } else if le(s[0], x) {
      InsertIsStable(x, s[1..], le, keep);
      HeadStays(s[0], Insert(x, s[1..], le), s[1..], [x], keep);
      assert s == [s[0]] + s[1..];
    } else {
      FrontIsStable(x, s, le, keep);
    }
  }

  /** Going in front of everything passes none of its equals. */
  lemma FrontIsStable<T(!new)>(x: T, s: seq<T>, le: (T, T) -> bool, keep: T -> bool)
    requires TotalPreorder(le) && SortedBy(s, le)
    requires forall a, b :: keep(a) && keep(b) ==> le(a, b)
    requires s != [] && !le(s[0], x)
    ensures Filter([x] + s, keep) == Filter(s, keep) + Filter([x], keep)
  {
    FilterOfConcat([x], s, keep);
    if keep(x) {
      NothingEqualBefore(x, s, le, keep);
    } else {
      NothingKept([x], keep);
    }
  }

  lemma HeadStays<T>(head: T, longer: seq<T>, tail: seq<T>, extra: seq<T>, keep: T -> bool)
    requires Filter(longer, keep) == Filter(tail, keep) + Filter(extra, keep)
    ensures Filter([head] + longer, keep) == Filter([head] + tail, keep) + Filter(extra, keep)
  {
    FilterOfConcat([head], longer, keep);
    FilterOfConcat([head], tail, keep);
    Regroup(Filter([head], keep), Filter(tail, keep), Filter(extra, keep));
  }

  lemma Regroup<T>(a: seq<T>, b: seq<T>, c: seq<T>)
    ensures a + (b + c) == a + b + c
  {
  }

  /** An element smaller than the head of a sorted list has no equals in it. */
  lemma NothingEqualBefore<T(!new)>(x: T, s: seq<T>, le: (T, T) -> bool, keep: T -> bool)
    requires TotalPreorder(le) && SortedBy(s, le)
    requires forall a, b :: keep(a) && keep(b) ==> le(a, b)
    requires s != [] && !le(s[0], x) && keep(x)
    ensures Filter(s, keep) == []
  {
    forall i | 0 <= i < |s|
      ensures !keep(s[i])
    {
      assert le(s[0], s[i]);
    }
    NothingKept(s, keep);
  }

  lemma {:induction false} NothingKept<T>(s: seq<T>, keep: T -> bool)
    requires forall i :: 0 <= i < |s| ==> !keep(s[i])
    ensures Filter(s, keep) == []
  {
    if s != [] {
      NothingKept(s[..|s| - 1], keep);
    }
  }

  /** A sorted permutation of the input. */
  lemma {:induction false} SortIsSortedPermutation<T(!new)>(s: seq<T>, le: (T, T) -> bool)
    requires TotalPreorder(le)
    ensures SortedBy(StableSort(s, le), le)
    ensures multiset(StableSort(s, le)) == multiset(s)
    ensures |StableSort(s, le)| == |s|
  {
    if s != [] {
      var init, last := s[..|s| - 1], s[|s| - 1];
      SortIsSortedPermutation(init, le);
      InsertKeepsOrder(last, StableSort(init, le), le);
      InsertKeepsElements(last, StableSort(init, le), le);
      assert s == init + [last];
    }
    assert |multiset(StableSort(s, le))| == |multiset(s)|;
  }

  /** Elements that compare equal keep the order they came in. */
  lemma {:induction false} SortIsStable<T(!new)>(s: seq<T>, le: (T, T) -> bool, keep: T -> bool)
    requires TotalPreorder(le)
    requires forall a, b :: keep(a) && keep(b) ==> le(a, b)
    ensures Filter(StableSort(s, le), keep) == Filter(s, keep)
  {
    if s != [] {
      var init, last := s[..|s| - 1], s[|s| - 1];
      SortIsSortedPermutation(init, le);
      SortIsStable(init, le, keep);
      InsertIsStable(last, StableSort(init, le), le, keep);
      assert Filter([last], keep) == if keep(last) then [last] else [] by {
        assert [last][..0] == [];
      }
    }
  }

  lemma SortedHead<T(!new)>(s: seq<T>, le: (T, T) -> bool, x: T)
    requires TotalPreorder(le) && SortedBy(s, le) && s != [] && x in s
    ensures le(s[0], x)
  {
    var i :| 0 <= i < |s| && s[i] == x;
    assert i == 0 ==> le(x, x);
  }

  ghost predicate Antisymmetric<T(!new)>(s: seq<T>, le: (T, T) -> bool) {
    forall x, y :: x in s && y in s && le(x, y) && le(y, x) ==> x == y
  }

  lemma HeadsAgree<T(!new)>(a: seq<T>, b: seq<T>, le: (T, T) -> bool)
    requires TotalPreorder(le) && SortedBy(a, le) && SortedBy(b, le) && Antisymmetric(a, le)
    requires a != [] && b != [] && multiset(a) == multiset(b)
    ensures a[0] == b[0]
  {
    assert a[0] in multiset(b) && b[0] in multiset(a);
    SortedHead(a, le, b[0]);
    SortedHead(b, le, a[0]);
  }

  lemma TailsPermuted<T>(a: seq<T>, b: seq<T>)
    requires a != [] && b != [] && a[0] == b[0] && multiset(a) == multiset(b)
    ensures multiset(a[1..]) == multiset(b[1..])
  {
    assert a == [a[0]] + a[1..] && b == [b[0]] + b[1..];
    assert multiset(a[1..]) == multiset(a) - multiset{a[0]};
    assert multiset(b[1..]) == multiset(b) - multiset{b[0]};
  }

  /** Sorting leaves no choice when no two different elements compare equal. */
  lemma {:induction false} SortedPermutationsAgree<T(!new)>(a: seq<T>, b: seq<T>, le: (T, T) -> bool)
    requires TotalPreorder(le) && SortedBy(a, le) && SortedBy(b, le) && multiset(a) == multiset(b)
    requires Antisymmetric(a, le)
    ensures a == b
  {
    assert |a| == |multiset(a)| == |multiset(b)| == |b|;
    if a != [] {
      HeadsAgree(a, b, le);
      TailsPermuted(a, b);
      SortedPermutationsAgree(a[1..], b[1..], le);
      assert a == [a[0]] + a[1..] && b == [b[0]] + b[1..];
    }
  }
}
