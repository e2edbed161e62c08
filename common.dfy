/** Shared vocabulary of the scripts: optional values, sums and powers over exact reals,
    and the IEEE special values that numpy division produces. */
module Common {

  datatype Option<+T> = None | Some(value: T)

  function Abs(x: real): (r: real)
    ensures r >= 0.0 && (r == x || r == -x)
  {
    if x < 0.0 then -x else x
  }

  function MaxR(a: real, b: real): (r: real)
    ensures r >= a && r >= b && (r == a || r == b)
  {
    if a >= b then a else b
  }

  function MinI(a: int, b: int): (r: int)
    ensures r <= a && r <= b && (r == a || r == b)
  {
    if a <= b then a else b
  }

  /** x to a natural power. */
  function Pow(x: real, n: nat): real
  {
    if n == 0 then 1.0 else Pow(x, n - 1) * x
  }

  lemma {:induction false} PowNonZero(x: real, n: nat)
    requires x != 0.0
    ensures Pow(x, n) != 0.0
  {
    if n > 0 {
      PowNonZero(x, n - 1);
    }
  }

  /** Sum of a sequence, accumulated from the left as Python's `sum` does. */
  function Sum(s: seq<real>): real
  {
    if s == [] then 0.0 else Sum(s[..|s| - 1]) + s[|s| - 1]
  }

  /** Product of a sequence of growth factors, accumulated from the left. */
  function Product(s: seq<real>): real
  {
    if s == [] then 1.0 else Product(s[..|s| - 1]) * s[|s| - 1]
  }

  lemma SumAppend(s: seq<real>, x: real)
    ensures Sum(s + [x]) == Sum(s) + x
  {
    assert (s + [x])[..|s|] == s;
  }

  lemma ProductAppend(s: seq<real>, x: real)
    ensures Product(s + [x]) == Product(s) * x
  {
    assert (s + [x])[..|s|] == s;
  }

  lemma {:induction false} ProductConcat(a: seq<real>, b: seq<real>)
    ensures Product(a + b) == Product(a) * Product(b)
    decreases |b|
  {
    if b == [] {
      assert a + b == a;
    } else {
      var b' := b[..|b| - 1];
      assert a + b == (a + b') + [b[|b| - 1]];
      assert b == b' + [b[|b| - 1]];
      ProductAppend(a + b', b[|b| - 1]);
      ProductAppend(b', b[|b| - 1]);
      ProductConcat(a, b');
    }
  }

  /** A sum of squares is never negative. */
  lemma {:induction false} SumOfNonNegatives(s: seq<real>)
    requires forall i :: 0 <= i < |s| ==> s[i] >= 0.0
    ensures Sum(s) >= 0.0
  {
    if s != [] {
      SumOfNonNegatives(s[..|s| - 1]);
    }
  }

  /** A sum of non-negatives is zero only when every term is zero. */
  lemma {:induction false} SumZeroMeansAllZero(s: seq<real>)
    requires forall i :: 0 <= i < |s| ==> s[i] >= 0.0
    requires Sum(s) == 0.0
    ensures forall i :: 0 <= i < |s| ==> s[i] == 0.0
  {
    if s != [] {
      var init := s[..|s| - 1];
      SumOfNonNegatives(init);
      SumZeroMeansAllZero(init);
      forall i | 0 <= i < |s| ensures s[i] == 0.0 {
        if i < |s| - 1 { assert s[i] == init[i]; }
      }
    }
  }

  /** Arithmetic mean, undefined (pandas gives NaN) for an empty sequence. */
  function Mean(s: seq<real>): (r: Option<real>)
    ensures r.None? <==> s == []
  {
    if s == [] then None else Some(Sum(s) / (|s| as real))
  }

  /** n terms between lo and hi sum to between n * lo and n * hi. */
  lemma {:induction false} SumBounds(s: seq<real>, lo: real, hi: real)
    requires forall i :: 0 <= i < |s| ==> lo <= s[i] <= hi
    ensures (|s| as real) * lo <= Sum(s) <= (|s| as real) * hi
  {
    if s != [] {
      var init := s[..|s| - 1];
      SumBounds(init, lo, hi);
      var n := |init| as real;
      assert (|s| as real) * lo == n * lo + lo;
      assert (|s| as real) * hi == n * hi + hi;
    }
  }

  /** The mean lies between the smallest and the largest element. */
  lemma MeanWithinRange(s: seq<real>)
    requires s != []
    ensures SeqMin(s) <= Mean(s).value <= SeqMax(s)
  {
    var lo, hi := SeqMin(s), SeqMax(s);
    SumBounds(s, lo, hi);
    MeanAtLeast(s, lo);
    MeanAtMost(s, hi);
  }

  lemma MeanAtLeast(s: seq<real>, c: real)
    requires s != [] && (|s| as real) * c <= Sum(s)
    ensures c <= Mean(s).value
  {
    var n, x := |s| as real, Sum(s);
    assert Mean(s).value == x / n;
    var q := x / n;
    assert q * n == x;
    assert (q - c) * n == x - n * c;
  }

  lemma MeanAtMost(s: seq<real>, c: real)
    requires s != [] && Sum(s) <= (|s| as real) * c
    ensures Mean(s).value <= c
  {
    var n, x := |s| as real, Sum(s);
    assert Mean(s).value == x / n;
    var q := x / n;
    assert q * n == x;
    assert (c - q) * n == n * c - x;
  }

  /** `x ** (1 / n)`, the n-th root, which has no exact form over the reals: supplied by the
      caller. */
  type Root = (real, nat) -> real

  /** Smallest and largest element of a non-empty sequence. */
  function SeqMin(s: seq<real>): (r: real)
    requires s != []
    ensures r in s && forall i :: 0 <= i < |s| ==> r <= s[i]
  {
    if |s| == 1 then s[0]
    else
      var m := SeqMin(s[1..]);
      assert forall i :: 1 <= i < |s| ==> s[i] == s[1..][i - 1];
      if s[0] <= m then s[0] else m
  }

  function SeqMax(s: seq<real>): (r: real)
    requires s != []
    ensures r in s && forall i :: 0 <= i < |s| ==> r >= s[i]
  {
    if |s| == 1 then s[0]
    else
      var m := SeqMax(s[1..]);
      assert forall i :: 1 <= i < |s| ==> s[i] == s[1..][i - 1];
      if s[0] >= m then s[0] else m
  }

  /** The first k elements of s, or all of s when it is shorter (Python's s[:k]). */
  function Take<T>(s: seq<T>, k: nat): (r: seq<T>)
    ensures |r| == MinI(k, |s|) && r == s[..|r|]
  {
    if k <= |s| then s[..k] else s
  }

  /** The elements of s that satisfy p, in order (a list comprehension with an if). */
  function Filter<T(==)>(s: seq<T>, p: T -> bool): (r: seq<T>)
    ensures |r| <= |s|
    ensures forall i :: 0 <= i < |r| ==> r[i] in s && p(r[i])
    ensures forall i :: 0 <= i < |s| && p(s[i]) ==> s[i] in r
    ensures multiset(r) <= multiset(s)
  {
    if s == [] then []
    else
      var rest := Filter(s[..|s| - 1], p);
      assert s == s[..|s| - 1] + [s[|s| - 1]];
      if p(s[|s| - 1]) then rest + [s[|s| - 1]] else rest
  }

  lemma FilterAppend<T>(s: seq<T>, x: T, p: T -> bool)
    ensures Filter(s + [x], p) == if p(x) then Filter(s, p) + [x] else Filter(s, p)
  {
    assert (s + [x])[..|s|] == s;
  }

  lemma FilterSingleton<T>(x: T, p: T -> bool)
    ensures Filter([x], p) == if p(x) then [x] else []
  {
    FilterAppend([], x, p);
    assert [] + [x] == [x];
  }

  /** A mask applied to two tables one after the other keeps the rows of each in turn. */
  lemma {:induction false} FilterConcat<T>(a: seq<T>, b: seq<T>, p: T -> bool)
    ensures Filter(a + b, p) == Filter(a, p) + Filter(b, p)
  {
    if b == [] {
      assert a + b == a;
    } else {
      var init := b[..|b| - 1];
      var y := b[|b| - 1];
      assert b == init + [y];
      ConcatAssociative(a, init, [y]);
      FilterAppend(a + init, y, p);
      FilterAppend(init, y, p);
      FilterConcat(a, init, p);
      if p(y) {
        ConcatAssociative(Filter(a, p), Filter(init, p), [y]);
      }
    }
  }

  function Both<T>(p: T -> bool, q: T -> bool): T -> bool
  {
    (x: T) => p(x) && q(x)
  }

  /** Two masks applied one after the other are their conjunction. */
  lemma {:induction false} FilterFilter<T>(s: seq<T>, p: T -> bool, q: T -> bool)
    ensures Filter(Filter(s, p), q) == Filter(s, Both(p, q))
  {
    if s != [] {
      var init, x := s[..|s| - 1], s[|s| - 1];
      assert s == init + [x];
      FilterFilter(init, p, q);
      FilterAppend(init, x, p);
      FilterAppend(init, x, Both(p, q));
      if p(x) {
        FilterAppend(Filter(init, p), x, q);
      }
    }
  }

  /** Masks that agree on every element keep the same rows. */
  lemma {:induction false} FilterSameMask<T>(s: seq<T>, p: T -> bool, q: T -> bool)
    requires forall x :: p(x) == q(x)
    ensures Filter(s, p) == Filter(s, q)
  {
    if s != [] {
      var init, x := s[..|s| - 1], s[|s| - 1];
      assert s == init + [x];
      FilterSameMask(init, p, q);
      FilterAppend(init, x, p);
      FilterAppend(init, x, q);
    }
  }

  /** Two masks can be applied in either order. */
  lemma FilterCommute<T>(s: seq<T>, p: T -> bool, q: T -> bool)
    ensures Filter(Filter(s, p), q) == Filter(Filter(s, q), p)
  {
    FilterFilter(s, p, q);
    FilterFilter(s, q, p);
    FilterSameMask(s, Both(p, q), Both(q, p));
  }

  /** Three masks applied one after the other are their conjunction. */
  lemma FilterThree<T>(s: seq<T>, p: T -> bool, q: T -> bool, r: T -> bool, all: T -> bool)
    requires forall x :: all(x) == (p(x) && q(x) && r(x))
    ensures Filter(Filter(Filter(s, p), q), r) == Filter(s, all)
  {
    FilterFilter(s, p, q);
    FilterFilter(s, Both(p, q), r);
    FilterSameMask(s, Both(Both(p, q), r), all);
  }

  /** A first element that passes the mask is the first one kept. */
  lemma FilterHead<T>(s: seq<T>, p: T -> bool)
    requires s != [] && p(s[0])
    ensures Filter(s, p) != [] && Filter(s, p)[0] == s[0]
  {
    assert s == [s[0]] + s[1..];
    FilterConcat([s[0]], s[1..], p);
    FilterSingleton(s[0], p);
  }

  /** Nothing is kept exactly when no element satisfies p. */
  lemma {:induction false} FilterEmpty<T>(s: seq<T>, p: T -> bool)
    ensures Filter(s, p) == [] <==> forall i :: 0 <= i < |s| ==> !p(s[i])
  {
    if s != [] {
      var init := s[..|s| - 1];
      FilterEmpty(init, p);
      assert forall i :: 0 <= i < |init| ==> init[i] == s[i];
    }
  }

  /** Concatenation is associative; stated once so that callers reason about it without
      unfolding the sequences involved. */
  lemma ConcatAssociative<T>(a: seq<T>, b: seq<T>, c: seq<T>)
    ensures (a + b) + c == a + (b + c)
  {
  }

  /** Python's truthiness-free `x not in list`: no element occurs twice. */
  predicate NoDuplicates<T(==)>(s: seq<T>)
  {
    forall i, j :: 0 <= i < j < |s| ==> s[i] != s[j]
  }

  // ---------------------------------------------------------------------------
  // IEEE values produced by numpy arithmetic on float64 (rounding is not modelled)

  datatype Float = Finite(v: real) | Inf(negative: bool) | NaN

  predicate IsNaN(x: Float) { x.NaN? }

  /** numpy a / b: a zero divisor gives a signed infinity, or NaN for 0/0. */
  function FDiv(a: Float, b: Float): (r: Float)
    ensures a.Finite? && b.Finite? && b.v != 0.0 ==> r == Finite(a.v / b.v)
    ensures IsNaN(a) || IsNaN(b) ==> IsNaN(r)
  {
    match (a, b)
    case (NaN, _) => NaN
    case (_, NaN) => NaN
    case (Finite(x), Finite(y)) =>
      if y != 0.0 then Finite(x / y)
      else if x == 0.0 then NaN
      else Inf(x < 0.0)
    case (Inf(n), Finite(y)) => if y == 0.0 then Inf(n) else Inf(n != (y < 0.0))
    case (Finite(_), Inf(_)) => Finite(0.0)
    case (Inf(_), Inf(_)) => NaN
  }

  function FAdd(a: Float, b: Float): (r: Float)
    ensures a.Finite? && b.Finite? ==> r == Finite(a.v + b.v)
    ensures IsNaN(a) || IsNaN(b) ==> IsNaN(r)
  {
    match (a, b)
    case (NaN, _) => NaN
    case (_, NaN) => NaN
    case (Finite(x), Finite(y)) => Finite(x + y)
    case (Inf(n), Finite(_)) => Inf(n)
    case (Finite(_), Inf(n)) => Inf(n)
    case (Inf(n), Inf(m)) => if n == m then Inf(n) else NaN
  }

  function FNeg(a: Float): Float
  {
    match a
    case Finite(x) => Finite(-x)
    case Inf(n) => Inf(!n)
    case NaN => NaN
  }

  function FSub(a: Float, b: Float): Float
  {
    FAdd(a, FNeg(b))
  }

  function FMul(a: Float, b: Float): (r: Float)
    ensures a.Finite? && b.Finite? ==> r == Finite(a.v * b.v)
    ensures IsNaN(a) || IsNaN(b) ==> IsNaN(r)
  {
    if a.Finite? && b.Finite? then Finite(a.v * b.v)
    else match (a, b)
    case (NaN, _) => NaN
    case (_, NaN) => NaN
    case (Finite(_), Finite(_)) => NaN
    case (Inf(n), Finite(y)) => if y == 0.0 then NaN else Inf(n != (y < 0.0))
    case (Finite(x), Inf(n)) => if x == 0.0 then NaN else Inf(n != (x < 0.0))
    case (Inf(n), Inf(m)) => Inf(n != m)
  }

  function FAbs(a: Float): Float
  {
    match a
    case Finite(x) => Finite(Abs(x))
    case Inf(_) => Inf(false)
    case NaN => NaN
  }

  /** a > c for a constant c; every comparison with NaN is false. */
  predicate FGreater(a: Float, c: real)
  {
    match a
    case Finite(x) => x > c
    case Inf(n) => !n
    case NaN => false
  }

  predicate FLess(a: Float, c: real)
  {
    match a
    case Finite(x) => x < c
    case Inf(n) => n
    case NaN => false
  }
}
