/** Accumulating a list with an operation whose operands may come in any order. */
module Folding {

  /** What a loop computes that starts at `zero` and combines in one element after another. */
  function FoldMap<D, T>(s: seq<D>, f: D -> T, op: (T, T) -> T, zero: T): T {
    if s == [] then zero else op(FoldMap(s[..|s| - 1], f, op, zero), f(s[|s| - 1]))
  }

  predicate Swaps<T(==)>(op: (T, T) -> T, a: T, b: T, c: T) {
    op(op(a, b), c) == op(op(a, c), b)
  }

  /** The last two elements combined in may change places. */
  ghost predicate LeftCommutative<T(!new)>(op: (T, T) -> T) {
    forall a, b, c :: Swaps(op, a, b, c)
  }

  predicate Associates<T(==)>(op: (T, T) -> T, a: T, b: T, c: T) {
    op(op(a, b), c) == op(a, op(b, c))
  }

  ghost predicate Associative<T(!new)>(op: (T, T) -> T) {
    forall a, b, c :: Associates(op, a, b, c)
  }

  lemma FoldAppend<D, T>(s: seq<D>, x: D, f: D -> T, op: (T, T) -> T, zero: T)
    ensures FoldMap(s + [x], f, op, zero) == op(FoldMap(s, f, op, zero), f(x))
  {
    assert (s + [x])[..|s|] == s;
  }

  /** One element may be taken out of the middle and combined in last. */
  lemma {:induction false} FoldMovesToEnd<D, T(!new)>(a: seq<D>, x: D, b: seq<D>, f: D -> T, op: (T, T) -> T, zero: T)
    requires LeftCommutative(op)
    ensures FoldMap(a + [x] + b, f, op, zero) == op(FoldMap(a + b, f, op, zero), f(x))
    decreases |b|
  {
    if b == [] {
      FoldAppend(a, x, f, op, zero);
      assert a + [x] + b == a + [x] && a + b == a;
    } else {
      var init, last := b[..|b| - 1], b[|b| - 1];
      FoldMovesToEnd(a, x, init, f, op, zero);
      FoldAppend(a + [x] + init, last, f, op, zero);
      FoldAppend(a + init, last, f, op, zero);
      assert a + [x] + b == a + [x] + init + [last] && a + b == a + init + [last];
      assert Swaps(op, FoldMap(a + init, f, op, zero), f(x), f(last));
    }
  }

  lemma CancelOne<D>(m: multiset<D>, n: multiset<D>, x: D)
    requires m + multiset{x} == n + multiset{x}
    ensures m == n
  {
    forall y
      ensures m[y] == n[y]
    {
      assert (m + multiset{x})[y] == (n + multiset{x})[y];
    }
  }

  /** The order of the list does not matter. */
  lemma {:induction false} FoldOfPermutation<D, T(!new)>(a: seq<D>, b: seq<D>, f: D -> T, op: (T, T) -> T, zero: T)
    requires LeftCommutative(op) && multiset(a) == multiset(b)
    ensures FoldMap(a, f, op, zero) == FoldMap(b, f, op, zero)
    decreases |a|
  {
    if a == [] {
      assert |multiset(b)| == 0;
    } else {
      var init, x := a[..|a| - 1], a[|a| - 1];
      assert a == init + [x] && x in multiset(b);
      var i :| 0 <= i < |b| && b[i] == x;
      var left, right := b[..i], b[i + 1..];
      assert b == left + [x] + right;
      CancelOne(multiset(init), multiset(left + right), x);
      FoldOfPermutation(init, left + right, f, op, zero);
      FoldMovesToEnd(left, x, right, f, op, zero);
    }
  }

  /** Two lists one after the other give the combination of what each gives. */
  lemma {:induction false} FoldOfConcat<D, T(!new)>(a: seq<D>, b: seq<D>, f: D -> T, op: (T, T) -> T, zero: T)
    requires Associative(op) && op(FoldMap(a, f, op, zero), zero) == FoldMap(a, f, op, zero)
    ensures FoldMap(a + b, f, op, zero) == op(FoldMap(a, f, op, zero), FoldMap(b, f, op, zero))
    decreases |b|
  {
    if b == [] {
      assert a + b == a;
    } else {
      var init, last := b[..|b| - 1], b[|b| - 1];
      FoldOfConcat(a, init, f, op, zero);
      FoldAppend(a + init, last, f, op, zero);
      FoldAppend(init, last, f, op, zero);
      assert a + b == a + init + [last] && b == init + [last];
      assert Associates(op, FoldMap(a, f, op, zero), FoldMap(init, f, op, zero), f(last));
    }
  }

  function Union<T>(a: multiset<T>, b: multiset<T>): multiset<T> {
    a + b
  }

  lemma UnionSwaps<T(!new)>()
    ensures LeftCommutative<multiset<T>>(Union)
  {
    forall a: multiset<T>, b: multiset<T>, c: multiset<T>
      ensures Swaps(Union, a, b, c)
    {
      assert a + b + c == a + c + b;
    }
  }

  function Single<D, T>(f: D -> T): D -> multiset<T> {
    x => multiset{f(x)}
  }

  lemma {:induction false} MapFolds<D, T>(s: seq<D>, f: D -> T, t: seq<T>)
    requires |t| == |s| && forall i :: 0 <= i < |s| ==> t[i] == f(s[i])
    ensures multiset(t) == FoldMap(s, Single(f), Union, multiset{})
  {
    if s != [] {
      var n := |s| - 1;
      MapFolds(s[..n], f, t[..n]);
      assert t == t[..n] + [t[n]];
    }
  }

  /** Images of a permuted list are permuted images. */
  lemma MapOfPermutation<D, T(!new)>(a: seq<D>, b: seq<D>, f: D -> T, fa: seq<T>, fb: seq<T>)
    requires multiset(a) == multiset(b)
    requires |fa| == |a| && forall i :: 0 <= i < |a| ==> fa[i] == f(a[i])
    requires |fb| == |b| && forall i :: 0 <= i < |b| ==> fb[i] == f(b[i])
    ensures multiset(fa) == multiset(fb)
  {
    MapFolds(a, f, fa);
    MapFolds(b, f, fb);
    UnionSwaps<T>();
    FoldOfPermutation(a, b, Single(f), Union, multiset{});
  }
}
