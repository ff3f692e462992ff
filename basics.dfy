/** Shared vocabulary: optional values and results, sums of reals, and the two
    JavaScript array operations the portfolio code leans on everywhere,
    `Array.prototype.filter` and the (stable) `Array.prototype.sort`. */
module Basics {

  datatype Option<T> = None | Some(value: T)

  datatype Result<T, E> = Ok(value: T) | Err(error: E)

  function Min(a: int, b: int): int { if a <= b then a else b }

  function Abs(x: int): int { if x < 0 then -x else x }

  /** `xs.reduce((sum, x) => sum + x, 0)`, or Python's `sum(xs)`. */
  function Sum(xs: seq<real>): real
  {
    if xs == [] then 0.0 else xs[0] + Sum(xs[1..])
  }

  lemma {:induction false} SumAppend(a: seq<real>, b: seq<real>)
    ensures Sum(a + b) == Sum(a) + Sum(b)
  {
    if a == [] {
      assert a + b == b;
    } else {
      assert (a + b)[1..] == a[1..] + b;
      SumAppend(a[1..], b);
    }
  }

  /** Summing a sequence of copies of one number. */
  lemma {:induction false} SumConstant(xs: seq<real>, c: real)
    requires forall k :: 0 <= k < |xs| ==> xs[k] == c
    ensures Sum(xs) == |xs| as real * c
  {
    if xs != [] {
      SumConstant(xs[1..], c);
    }
  }

  /** A sum of non-negative terms is non-negative, and it is zero only when
      every term is. */
  lemma {:induction false} SumNonNegative(xs: seq<real>)
    requires forall k :: 0 <= k < |xs| ==> xs[k] >= 0.0
    ensures Sum(xs) >= 0.0
    ensures Sum(xs) == 0.0 <==> forall k :: 0 <= k < |xs| ==> xs[k] == 0.0
  {
    if xs != [] {
      SumNonNegative(xs[1..]);
      assert forall k :: 1 <= k < |xs| ==> xs[k] == xs[1..][k - 1];
    }
  }

  /** Scaling every term scales the sum. */
  lemma {:induction false} SumScaled(xs: seq<real>, ys: seq<real>, t: real, c: real)
    requires t != 0.0
    requires |ys| == |xs|
    requires forall k :: 0 <= k < |xs| ==> ys[k] == xs[k] / t * c
    ensures Sum(ys) == Sum(xs) / t * c
  {
    if xs != [] {
      SumScaled(xs[1..], ys[1..], t, c);
      assert xs[0] / t * c + Sum(xs[1..]) / t * c == (xs[0] + Sum(xs[1..])) / t * c;
    }
  }

  /** Bounds on the terms bound the sum. */
  lemma {:induction false} SumBetween(xs: seq<real>, lo: real, hi: real)
    requires forall k :: 0 <= k < |xs| ==> lo <= xs[k] <= hi
    ensures |xs| as real * lo <= Sum(xs) <= |xs| as real * hi
  {
    if xs != [] {
      SumBetween(xs[1..], lo, hi);
      assert |xs| as real * lo == lo + (|xs| - 1) as real * lo;
      assert |xs| as real * hi == hi + (|xs| - 1) as real * hi;
    }
  }

  /** `sq` holds the squares of `xs`, term by term. */
  predicate Squares(xs: seq<real>, sq: seq<real>)
  {
    |sq| == |xs| && forall k :: 0 <= k < |xs| ==> sq[k] == xs[k] * xs[k]
  }

  lemma SquaresTail(xs: seq<real>, sq: seq<real>)
    requires Squares(xs, sq) && xs != []
    ensures Squares(xs[1..], sq[1..]) && sq[0] == xs[0] * xs[0]
  {
  }

  /** Terms strictly above a bound put a non-empty sum strictly above n times it. */
  lemma {:induction false} SumAbove(xs: seq<real>, lo: real)
    requires |xs| > 0
    requires forall k :: 0 <= k < |xs| ==> xs[k] > lo
    ensures Sum(xs) > |xs| as real * lo
  {
    if |xs| > 1 {
      SumAbove(xs[1..], lo);
    } else {
      assert xs[1..] == [];
    }
    assert |xs| as real * lo == lo + (|xs| - 1) as real * lo;
  }

  /** Cauchy-Schwarz for sums: n · Σ x² >= (Σ x)², where `sq` holds the squares. */
  lemma {:induction false} SumSquaresBound(xs: seq<real>, sq: seq<real>)
    requires Squares(xs, sq)
    ensures |xs| as real * Sum(sq) >= Sum(xs) * Sum(xs)
  {
    if xs != [] {
      var m, s, q := |xs[1..]| as real, Sum(xs[1..]), Sum(sq[1..]);
      SquaresTail(xs, sq);
      SumSquaresBound(xs[1..], sq[1..]);
      SquaresNonNegative(xs[1..], sq[1..]);
      assert |xs| == 1 ==> xs[1..] == [];
      CauchyStep(m, xs[0], s, q, sq[0], |xs| as real, Sum(sq), Sum(xs));
    }
  }

  /** The induction step of `SumSquaresBound`, on plain numbers: from
      m · q >= s² conclude n · a >= b² for n = m + 1, a = x² + q, b = x + s. */
  lemma CauchyStep(m: real, x: real, s: real, q: real, xx: real, n: real, a: real, b: real)
    requires q >= 0.0 && m * q >= s * s
    requires m > 0.0 || (m == 0.0 && s == 0.0)
    requires xx == x * x && n == m + 1.0 && a == xx + q && b == x + s
    ensures n * a >= b * b
  {
    var d := m * x * x - 2.0 * x * s + q;
    assert n * a - b * b == d + (m * q - s * s);
    if m > 0.0 {
      assert m * d == (m * x - s) * (m * x - s) + (m * q - s * s);
      SquareNonNegative(m * x - s);
      PositiveFactor(m, d);
    }
  }

  lemma PositiveFactor(m: real, a: real)
    requires m > 0.0 && m * a >= 0.0
    ensures a >= 0.0
  {
  }

  lemma PositiveProduct(a: real, b: real, p: real)
    requires a > 0.0 && b > 0.0 && p == a * b
    ensures p > 0.0
  {
  }

  lemma NegativeProduct(a: real, b: real, p: real)
    requires a < 0.0 && b < 0.0 && p == a * b
    ensures p > 0.0
  {
  }

  lemma SquareNonNegative(y: real)
    ensures y * y >= 0.0
  {
    if y < 0.0 {
      assert y * y == (-y) * (-y);
    }
  }

  lemma SquaresNonNegative(xs: seq<real>, sq: seq<real>)
    requires Squares(xs, sq)
    ensures Sum(sq) >= 0.0
  {
    forall k | 0 <= k < |sq| ensures sq[k] >= 0.0 {
      SquareNonNegative(xs[k]);
    }
    SumNonNegative(sq);
  }

  /** A sum of squares is zero exactly when every squared number is. */
  lemma SumSquaresZero(xs: seq<real>, sq: seq<real>)
    requires Squares(xs, sq)
    ensures Sum(sq) >= 0.0
    ensures Sum(sq) == 0.0 <==> forall k :: 0 <= k < |xs| ==> xs[k] == 0.0
  {
    forall k | 0 <= k < |sq| ensures sq[k] >= 0.0 && (sq[k] == 0.0 <==> xs[k] == 0.0) {
      SquareNonNegative(xs[k]);
      if xs[k] != 0.0 {
        SquarePositive(xs[k], sq[k]);
      } else {
        assert sq[k] == 0.0 * 0.0;
      }
    }
    SumNonNegative(sq);
  }

  lemma SquarePositive(y: real, p: real)
    requires y != 0.0 && p == y * y
    ensures p > 0.0
  {
    if y > 0.0 {
      PositiveProduct(y, y, p);
    } else {
      NegativeProduct(y, y, p);
    }
  }

  /** `s.filter(keep)`: the elements that pass, in their original order. */
  function Filter<T>(s: seq<T>, keep: T -> bool): (r: seq<T>)
    ensures |r| <= |s|
    ensures forall k :: 0 <= k < |r| ==> r[k] in s && keep(r[k])
    ensures forall k :: 0 <= k < |s| && keep(s[k]) ==> s[k] in r
  {
    if s == [] then []
    else if keep(s[0]) then [s[0]] + Filter(s[1..], keep)
    else Filter(s[1..], keep)
  }

  /** The filter keeps every passing element as often as it occurs, and
      no failing one. */
  lemma {:induction false} FilterCounts<T>(s: seq<T>, keep: T -> bool)
    ensures forall x :: multiset(Filter(s, keep))[x] == if keep(x) then multiset(s)[x] else 0
  {
    if s != [] {
      FilterCounts(s[1..], keep);
      assert s == [s[0]] + s[1..];
      assert multiset(s) == multiset{s[0]} + multiset(s[1..]);
    }
  }

  /** `a` is obtained from `b` by deleting elements, without reordering. */
  predicate IsSubsequence<T(==)>(a: seq<T>, b: seq<T>)
  {
    if b == [] then a == []
    else (a != [] && a[0] == b[0] && IsSubsequence(a[1..], b[1..])) || IsSubsequence(a, b[1..])
  }

  lemma {:induction false} FilterIsSubsequence<T>(s: seq<T>, keep: T -> bool)
    ensures IsSubsequence(Filter(s, keep), s)
  {
    if s != [] {
      FilterIsSubsequence(s[1..], keep);
      if keep(s[0]) {
        assert ([s[0]] + Filter(s[1..], keep))[1..] == Filter(s[1..], keep);
      }
    }
  }

  /** Every element of a subsequence is an element of the sequence. */
  lemma {:induction false} SubsequenceMembers<T>(a: seq<T>, b: seq<T>)
    requires IsSubsequence(a, b)
    ensures forall k :: 0 <= k < |a| ==> a[k] in b
  {
    if b != [] {
      if a != [] && a[0] == b[0] && IsSubsequence(a[1..], b[1..]) {
        SubsequenceMembers(a[1..], b[1..]);
        forall k | 0 <= k < |a| ensures a[k] in b {
          if k > 0 {
            assert a[k] == a[1..][k - 1];
            assert a[k] in b[1..];
          }
        }
      } else {
        SubsequenceMembers(a, b[1..]);
      }
    }
  }

  /** A filter that keeps everything is the identity. */
  lemma {:induction false} FilterKeepsAll<T>(s: seq<T>, keep: T -> bool)
    requires forall k :: 0 <= k < |s| ==> keep(s[k])
    ensures Filter(s, keep) == s
  {
    if s != [] {
      FilterKeepsAll(s[1..], keep);
    }
  }

  /** Filtering distributes over concatenation. */
  lemma {:induction false} FilterAppend<T>(a: seq<T>, b: seq<T>, keep: T -> bool)
    ensures Filter(a + b, keep) == Filter(a, keep) + Filter(b, keep)
  {
    if a == [] {
      assert a + b == b;
    } else {
      assert (a + b)[1..] == a[1..] + b;
      FilterAppend(a[1..], b, keep);
    }
  }

  /** Two tests that agree on every element filter alike. */
  lemma {:induction false} FilterCongruent<T>(s: seq<T>, p: T -> bool, q: T -> bool)
    requires forall k :: 0 <= k < |s| ==> p(s[k]) == q(s[k])
    ensures Filter(s, p) == Filter(s, q)
  {
    if s != [] {
      FilterCongruent(s[1..], p, q);
    }
  }

  /** Filtering twice by the same test is filtering once. */
  lemma FilterIdempotent<T>(s: seq<T>, keep: T -> bool)
    ensures Filter(Filter(s, keep), keep) == Filter(s, keep)
  {
    var r := Filter(s, keep);
    assert forall k :: 0 <= k < |r| ==> r[k] in r;
    FilterKeepsAll(r, keep);
  }

  /** Ascending by `key`: the order `sort((a, b) => key(a) - key(b))` produces. */
  predicate SortedBy<T>(s: seq<T>, key: T -> real)
  {
    forall i, j :: 0 <= i < j < |s| ==> key(s[i]) <= key(s[j])
  }

  /** Inserts `x` in front of the first element whose key is not smaller, so
      that elements with equal keys keep their relative order. */
  function Insert<T>(x: T, s: seq<T>, key: T -> real): (r: seq<T>)
    requires SortedBy(s, key)
    ensures |r| == |s| + 1
    ensures forall k :: 0 <= k < |r| ==> key(x) <= key(r[k]) || (s != [] && key(s[0]) <= key(r[k]))
    ensures SortedBy(r, key)
    ensures multiset(r) == multiset(s) + multiset{x}
  {
    if s == [] || key(x) <= key(s[0]) then [x] + s
    else
      var rest := Insert(x, s[1..], key);
      assert forall k :: 0 <= k < |rest| ==> key(s[0]) <= key(rest[k]);
      assert s == [s[0]] + s[1..];
      [s[0]] + rest
  }

  /** The stable sort of `s` ascending by `key` (insertion sort). */
  function SortBy<T>(s: seq<T>, key: T -> real): (r: seq<T>)
    ensures |r| == |s|
    ensures SortedBy(r, key)
    ensures multiset(r) == multiset(s)
  {
    if s == [] then []
    else
      assert s == [s[0]] + s[1..];
      Insert(s[0], SortBy(s[1..], key), key)
  }

  /** `s.slice(0, n)`. */
  function Take<T>(s: seq<T>, n: nat): (r: seq<T>)
    ensures |r| == Min(n, |s|)
    ensures r == s[..|r|]
  {
    if |s| <= n then s else s[..n]
  }

  /** The first `n` elements and the rest are together the whole sequence,
      counting repeats. */
  lemma TakeSplits<T>(s: seq<T>, n: nat)
    ensures multiset(Take(s, n)) + multiset(s[|Take(s, n)|..]) == multiset(s)
  {
    assert s == Take(s, n) + s[|Take(s, n)|..];
  }

  /** The first `n` elements of a sorted sequence are sorted, and none
      has a larger key than an element left behind. */
  lemma TakeOfSorted<T>(s: seq<T>, key: T -> real, n: nat)
    requires SortedBy(s, key)
    ensures SortedBy(Take(s, n), key)
    ensures forall i, j :: 0 <= i < |Take(s, n)| <= j < |s| ==> key(Take(s, n)[i]) <= key(s[j])
  {
  }

  /** The first `n` elements of a sort: sorted, as many as there are up to
      `n`, each taken from the input (together with the elements left behind
      they are the input, counting repeats), and no element left behind has
      a smaller key than one taken. */
  lemma TopOfSort<T>(s: seq<T>, key: T -> real, n: nat)
    ensures SortedBy(Take(SortBy(s, key), n), key)
    ensures |Take(SortBy(s, key), n)| == Min(n, |s|)
    ensures forall x :: x in Take(SortBy(s, key), n) ==> x in s
    ensures multiset(Take(SortBy(s, key), n)) + multiset(SortBy(s, key)[|Take(SortBy(s, key), n)|..]) == multiset(s)
    ensures multiset(Take(SortBy(s, key), n)) <= multiset(s)
    ensures forall i, j :: 0 <= i < |Take(SortBy(s, key), n)| <= j < |s| ==>
      key(Take(SortBy(s, key), n)[i]) <= key(SortBy(s, key)[j])
  {
    var sorted := SortBy(s, key);
    var r := Take(sorted, n);
    TakeOfSorted(sorted, key, n);
    TakeSplits(sorted, n);
    assert multiset(r) <= multiset(s);
    forall x | x in r ensures x in s {
      assert x in multiset(r);
    }
  }
}
