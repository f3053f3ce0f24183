/** Queries over tables held as sequences: sums, filters and joins, and how they commute. */
module Bags {

  function Sum<T>(s: seq<T>, f: T -> real): real {
    if s == [] then 0.0 else f(s[0]) + Sum(s[1..], f)
  }

  function Filter<T>(s: seq<T>, p: T -> bool): seq<T> {
    if s == [] then []
    else (if p(s[0]) then [s[0]] else []) + Filter(s[1..], p)
  }

  /** The rows each element gives, one after the other: a join, when `f` selects partners. */
  function FlatMap<T, U>(s: seq<T>, f: T -> seq<U>): seq<U> {
    if s == [] then [] else f(s[0]) + FlatMap(s[1..], f)
  }

  /** GROUP BY: the distinct keys of the rows, each once. */
  function Keys<T, K(==)>(s: seq<T>, key: T -> K): seq<K> {
    if s == [] then []
    else
      var rest := Keys(s[1..], key);
      if key(s[0]) in rest then rest else [key(s[0])] + rest
  }

  function When<T>(p: T -> bool, f: T -> real): T -> real {
    x => if p(x) then f(x) else 0.0
  }

  function SumOver<T, U>(f: T -> seq<U>, g: U -> real): T -> real {
    x => Sum(f(x), g)
  }

  /** The row totals of a table of products, `x` by `x`. */
  function RowSum<T, U>(t: seq<U>, f: (T, U) -> real): T -> real {
    x => Sum(t, Row(f, x))
  }

  function Row<T, U>(f: (T, U) -> real, x: T): U -> real {
    y => f(x, y)
  }

  function Flip<T, U>(f: (T, U) -> real): (U, T) -> real {
    (y, x) => f(x, y)
  }

  lemma {:induction false} SumConcat<T>(s: seq<T>, t: seq<T>, f: T -> real)
    ensures Sum(s + t, f) == Sum(s, f) + Sum(t, f)
  {
    if s == [] {
      assert s + t == t;
    } else {
      assert (s + t)[1..] == s[1..] + t;
      SumConcat(s[1..], t, f);
    }
  }

  lemma SumOne<T>(x: T, f: T -> real)
    ensures Sum([x], f) == f(x)
  {
  }

  lemma {:induction false} SumCongruent<T>(s: seq<T>, f: T -> real, g: T -> real)
    requires forall x :: x in s ==> f(x) == g(x)
    ensures Sum(s, f) == Sum(s, g)
  {
    if s != [] {
      SumCongruent(s[1..], f, g);
    }
  }

  lemma {:induction false} SumZero<T>(s: seq<T>, f: T -> real)
    requires forall x :: x in s ==> f(x) == 0.0
    ensures Sum(s, f) == 0.0
  {
    if s != [] {
      SumZero(s[1..], f);
    }
  }

  lemma {:induction false} SumAdd<T>(s: seq<T>, f: T -> real, g: T -> real, h: T -> real)
    requires forall x :: x in s ==> h(x) == f(x) + g(x)
    ensures Sum(s, h) == Sum(s, f) + Sum(s, g)
  {
    if s != [] {
      SumAdd(s[1..], f, g, h);
    }
  }

  lemma {:induction false} SumScale<T>(s: seq<T>, k: real, f: T -> real, h: T -> real)
    requires forall x :: x in s ==> h(x) == k * f(x)
    ensures Sum(s, h) == k * Sum(s, f)
  {
    if s != [] {
      SumScale(s[1..], k, f, h);
    }
  }

  lemma {:induction false} SumFilter<T>(s: seq<T>, p: T -> bool, f: T -> real)
    ensures Sum(Filter(s, p), f) == Sum(s, When(p, f))
  {
    if s != [] {
      SumFilter(s[1..], p, f);
      SumConcat(if p(s[0]) then [s[0]] else [], Filter(s[1..], p), f);
    }
  }

  lemma {:induction false} SumFlatMap<T, U>(s: seq<T>, f: T -> seq<U>, g: U -> real)
    ensures Sum(FlatMap(s, f), g) == Sum(s, SumOver(f, g))
  {
    if s != [] {
      SumFlatMap(s[1..], f, g);
      SumConcat(f(s[0]), FlatMap(s[1..], f), g);
    }
  }

  /** Adding up by rows and by columns gives the same. */
  lemma {:induction false} SumSwap<T, U>(s: seq<T>, t: seq<U>, f: (T, U) -> real)
    ensures Sum(s, RowSum(t, f)) == Sum(t, RowSum(s, Flip(f)))
  {
    if s == [] {
      SumZero(t, RowSum(s, Flip(f)));
    } else {
      SumSwap(s[1..], t, f);
      SumAdd(t, Row(f, s[0]), RowSum(s[1..], Flip(f)), RowSum(s, Flip(f)));
    }
  }

  /** Only one element contributes. */
  lemma {:induction false} SumOnly<T>(s: seq<T>, i: nat, f: T -> real)
    requires i < |s|
    requires forall j :: 0 <= j < |s| && j != i ==> f(s[j]) == 0.0
    ensures Sum(s, f) == f(s[i])
  {
    if i == 0 {
      SumZero(s[1..], f);
    } else {
      SumOnly(s[1..], i - 1, f);
    }
  }

  lemma {:induction false} SumRemove<T>(s: seq<T>, i: nat, f: T -> real)
    requires i < |s|
    ensures Sum(s, f) == f(s[i]) + Sum(s[..i] + s[i + 1..], f)
  {
    assert s == s[..i] + [s[i]] + s[i + 1..];
    SumConcat(s[..i] + [s[i]], s[i + 1..], f);
    SumConcat(s[..i], [s[i]], f);
    SumConcat(s[..i], s[i + 1..], f);
  }

  /** A sum does not depend on the order of the rows. */
  lemma {:induction false} SumPermute<T>(s: seq<T>, t: seq<T>, f: T -> real)
    requires multiset(s) == multiset(t)
    ensures Sum(s, f) == Sum(t, f)
    decreases |s|
  {
    if s == [] {
      assert |multiset(t)| == |t|;
    } else {
      assert s[0] in multiset(t);
      var i :| 0 <= i < |t| && t[i] == s[0];
      SumRemove(t, i, f);
      assert s == [s[0]] + s[1..];
      assert t == t[..i] + [t[i]] + t[i + 1..];
      assert multiset(s) == multiset{s[0]} + multiset(s[1..]);
      assert multiset(t) == multiset{t[i]} + multiset(t[..i] + t[i + 1..]);
      assert multiset(s[1..]) == multiset(s) - multiset{s[0]};
      SumPermute(s[1..], t[..i] + t[i + 1..], f);
    }
  }

  lemma {:induction false} SumOrder<T>(s: seq<T>, f: T -> real, g: T -> real)
    requires forall x :: x in s ==> f(x) <= g(x)
    ensures Sum(s, f) <= Sum(s, g)
  {
    if s != [] {
      SumOrder(s[1..], f, g);
    }
  }

  lemma {:induction false} FilterConcat<T>(s: seq<T>, t: seq<T>, p: T -> bool)
    ensures Filter(s + t, p) == Filter(s, p) + Filter(t, p)
  {
    if s == [] {
      assert s + t == t;
    } else {
      var head := if p(s[0]) then [s[0]] else [];
      FilterConcat(s[1..], t, p);
      assert (s + t)[0] == s[0] && (s + t)[1..] == s[1..] + t;
      assert head + (Filter(s[1..], p) + Filter(t, p)) == head + Filter(s[1..], p) + Filter(t, p);
    }
  }

  lemma {:induction false} FilterNone<T>(s: seq<T>, p: T -> bool)
    requires forall x :: x in s ==> !p(x)
    ensures Filter(s, p) == []
  {
    if s != [] {
      FilterNone(s[1..], p);
    }
  }

  lemma FilterOne<T>(x: T, p: T -> bool)
    ensures Filter([x], p) == if p(x) then [x] else []
  {
  }

  lemma FlatMapOne<T, U>(x: T, f: T -> seq<U>)
    ensures FlatMap([x], f) == f(x)
  {
  }

  lemma {:induction false} FilterMembers<T>(s: seq<T>, p: T -> bool)
    ensures forall x :: x in Filter(s, p) <==> x in s && p(x)
    ensures |Filter(s, p)| <= |s|
  {
    if s != [] {
      FilterMembers(s[1..], p);
      assert s == [s[0]] + s[1..];
    }
  }

  lemma {:induction false} FlatMapSingles<T, U>(s: seq<T>, f: T -> seq<U>, g: T -> U)
    requires forall x :: x in s ==> f(x) == [g(x)]
    ensures |FlatMap(s, f)| == |s|
    ensures forall i :: 0 <= i < |s| ==> FlatMap(s, f)[i] == g(s[i])
  {
    if s != [] {
      FlatMapSingles(s[1..], f, g);
    }
  }

  lemma {:induction false} KeysAreDistinct<T, K>(s: seq<T>, key: T -> K)
    ensures forall i, j :: 0 <= i < j < |Keys(s, key)| ==> Keys(s, key)[i] != Keys(s, key)[j]
    ensures forall k :: k in Keys(s, key) <==> exists x :: x in s && key(x) == k
  {
    if s != [] {
      KeysAreDistinct(s[1..], key);
      assert s == [s[0]] + s[1..];
    }
  }

  lemma {:induction false} FlatMapMembers<T, U>(s: seq<T>, f: T -> seq<U>)
    ensures forall y :: y in FlatMap(s, f) <==> exists x :: x in s && y in f(x)
  {
    if s != [] {
      FlatMapMembers(s[1..], f);
      assert s == [s[0]] + s[1..];
      forall y ensures y in FlatMap(s, f) <==> exists x :: x in s && y in f(x) {
        if y in f(s[0]) { assert s[0] in s; }
      }
    }
  }
}
