/** Sums of a numeric field over a sequence of records: the `reduce((sum, x)
    => sum + f(x), 0)` the services write, taken left to right. */
module Sums {

  function SumMap<T>(s: seq<T>, f: T -> real): real
  {
    if s == [] then 0.0 else SumMap(s[..|s| - 1], f) + f(s[|s| - 1])
  }

  lemma {:induction false} SumMapAppend<T>(a: seq<T>, b: seq<T>, f: T -> real)
    ensures SumMap(a + b, f) == SumMap(a, f) + SumMap(b, f)
  {
    if b == [] {
      assert a + b == a;
    } else {
      SumMapAppend(a, b[..|b| - 1], f);
      assert (a + b)[..|a + b| - 1] == a + b[..|b| - 1];
    }
  }

  /** The order of the records does not change the sum. */
  lemma {:induction false} SumMapPerm<T>(a: seq<T>, b: seq<T>, f: T -> real)
    requires multiset(a) == multiset(b)
    ensures SumMap(a, f) == SumMap(b, f)
  {
    if a != [] {
      var x := a[|a| - 1];
      assert a == a[..|a| - 1] + [x];
      assert x in multiset(b);
      var j :| 0 <= j < |b| && b[j] == x;
      var rest := b[..j] + b[j + 1..];
      assert b == b[..j] + [x] + b[j + 1..];
      assert multiset(b) == multiset(b[..j]) + multiset{x} + multiset(b[j + 1..]);
      assert multiset(a) == multiset(a[..|a| - 1]) + multiset{x};
      assert multiset(rest) == multiset(b[..j]) + multiset(b[j + 1..]);
      assert multiset(rest) == multiset(b) - multiset{x};
      assert multiset(a[..|a| - 1]) == multiset(a) - multiset{x};
      SumMapPerm(a[..|a| - 1], rest, f);
      SumMapAppend(b[..j] + [x], b[j + 1..], f);
      SumMapAppend(b[..j], [x], f);
      SumMapAppend(b[..j], b[j + 1..], f);
      assert SumMap([x], f) == f(x) by {
        assert [x][..0] == [];
      }
    }
  }

  lemma {:induction false} SumMapNonNegative<T>(s: seq<T>, f: T -> real)
    requires forall i :: 0 <= i < |s| ==> f(s[i]) >= 0.0
    ensures SumMap(s, f) >= 0.0
  {
    if s != [] {
      SumMapNonNegative(s[..|s| - 1], f);
    }
  }

  /** Summing a pointwise sum of two fields is summing each. */
  lemma {:induction false} SumMapAdd<T>(s: seq<T>, f: T -> real, g: T -> real, h: T -> real)
    requires forall i | 0 <= i < |s| :: f(s[i]) == g(s[i]) + h(s[i])
    ensures SumMap(s, f) == SumMap(s, g) + SumMap(s, h)
  {
    if s != [] {
      SumMapAdd(s[..|s| - 1], f, g, h);
    }
  }

  /** Sequences that agree element by element under f and g have equal sums. */
  lemma {:induction false} SumMapPointwise<A, B>(a: seq<A>, b: seq<B>, f: A -> real, g: B -> real)
    requires |a| == |b|
    requires forall i | 0 <= i < |a| :: f(a[i]) == g(b[i])
    ensures SumMap(a, f) == SumMap(b, g)
  {
    if a != [] {
      SumMapPointwise(a[..|a| - 1], b[..|b| - 1], f, g);
    }
  }

  /** A field that is pointwise no larger has no larger sum. */
  lemma {:induction false} SumMapMonotone<T>(s: seq<T>, f: T -> real, g: T -> real)
    requires forall i | 0 <= i < |s| :: f(s[i]) <= g(s[i])
    ensures SumMap(s, f) <= SumMap(s, g)
  {
    if s != [] {
      SumMapMonotone(s[..|s| - 1], f, g);
    }
  }

  function One<T>(x: T): real
  {
    1.0
  }

  lemma {:induction false} SumOfOnes<T>(s: seq<T>)
    ensures SumMap(s, One) == |s| as real
  {
    if s != [] {
      SumOfOnes(s[..|s| - 1]);
    }
  }
}
