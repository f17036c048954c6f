/**
 * Numeric helpers shared by the backend and GUI models: the rounding and
 * truncation rules of C# and Python, clamps, the C# floating remainder, and
 * numpy's default (linear interpolation) percentile over a sorted copy.
 */
module Numeric {

  /** A C# double or numpy float64: a finite value, NaN or an infinity. */
  datatype Double = Finite(v: real) | NaN | PosInf | NegInf
  {
    predicate IsFinite() { Finite? }
  }

  function Floor(x: real): (r: int)
    ensures r as real <= x < r as real + 1.0
  {
    x.Floor
  }

  function Ceil(x: real): (r: int)
    ensures r as real - 1.0 < x <= r as real
  {
    -((-x).Floor)
  }

  /** Conversion toward zero, as C#'s (int) cast and Python's int() on a float. */
  function Trunc(x: real): (r: int)
    ensures x >= 0.0 ==> 0 <= r && r as real <= x < r as real + 1.0
    ensures x < 0.0 ==> r <= 0 && r as real - 1.0 < x <= r as real
  {
    if x >= 0.0 then x.Floor else -((-x).Floor)
  }

  /** Rounding to the nearest integer, ties to even (C# Math.Round and Python round). */
  function RoundHalfEven(x: real): (r: int)
    ensures x - 0.5 <= r as real <= x + 0.5
    ensures (r as real - x == 0.5 || x - r as real == 0.5) ==> r % 2 == 0
  {
    var f := x.Floor;
    var d := x - f as real;
    if d < 0.5 then f
    else if d > 0.5 then f + 1
    else if f % 2 == 0 then f else f + 1
  }

  function MaxInt(a: int, b: int): int { if a >= b then a else b }
  function MinInt(a: int, b: int): int { if a <= b then a else b }
  function MaxReal(a: real, b: real): real { if a >= b then a else b }
  function MinReal(a: real, b: real): real { if a <= b then a else b }

  /** Math.Clamp on integers; the bounds are constants of the callers with lo <= hi. */
  function ClampInt(v: int, lo: int, hi: int): (r: int)
    requires lo <= hi
    ensures lo <= r <= hi
    ensures lo <= v <= hi ==> r == v
    ensures v < lo ==> r == lo
    ensures v > hi ==> r == hi
  {
    if v < lo then lo else if v > hi then hi else v
  }

  /** Math.Clamp on doubles. */
  function ClampReal(v: real, lo: real, hi: real): (r: real)
    requires lo <= hi
    ensures lo <= r <= hi
    ensures lo <= v <= hi ==> r == v
    ensures v < lo ==> r == lo
    ensures v > hi ==> r == hi
  {
    if v < lo then lo else if v > hi then hi else v
  }

  lemma MulStrict(b: real, x: real, y: real)
    requires b > 0.0 && x < y
    ensures b * x < b * y
  {
    assert b * y - b * x == b * (y - x);
  }

  lemma MulMonotone(b: real, x: real, y: real)
    requires b >= 0.0 && x <= y
    ensures b * x <= b * y
  {
    assert b * y - b * x == b * (y - x);
  }

  // ---------------------------------------------------------------------
  // Sorting and numpy's percentile
  // ---------------------------------------------------------------------

  predicate Sorted(a: seq<real>)
  {
    forall i, j :: 0 <= i < j < |a| ==> a[i] <= a[j]
  }

  function Insert(x: real, a: seq<real>): (r: seq<real>)
    requires Sorted(a)
    ensures Sorted(r) && multiset(r) == multiset(a) + multiset{x} && |r| == |a| + 1
  {
    if a == [] then [x]
    else if x <= a[0] then [x] + a
    else
      var t := Insert(x, a[1..]);
      assert a == [a[0]] + a[1..];
      assert forall k :: 0 <= k < |a[1..]| ==> a[0] <= a[1..][k];
      BoundedByMembers(t, a[1..], x, a[0]);
      SortedCons(a[0], t);
      [a[0]] + t
  }

  lemma SortedCons(h: real, t: seq<real>)
    requires Sorted(t) && forall k :: 0 <= k < |t| ==> h <= t[k]
    ensures Sorted([h] + t)
  {
    var r := [h] + t;
    forall i, j | 0 <= i < j < |r|
      ensures r[i] <= r[j]
    {
      assert r[j] == t[j - 1];
      if i > 0 {
        assert r[i] == t[i - 1];
      }
    }
  }

  /** A lower bound of `s` and of `x` bounds every sequence holding their elements. */
  lemma BoundedByMembers(t: seq<real>, s: seq<real>, x: real, lo: real)
    requires multiset(t) == multiset(s) + multiset{x}
    requires lo <= x && forall k :: 0 <= k < |s| ==> lo <= s[k]
    ensures forall k :: 0 <= k < |t| ==> lo <= t[k]
  {
    forall k | 0 <= k < |t|
      ensures lo <= t[k]
    {
      assert t[k] in multiset(t);
      if t[k] != x {
        assert t[k] in multiset(s);
        var i :| 0 <= i < |s| && s[i] == t[k];
      }
    }
  }

  /** An ascending copy of `s` (numpy sorts before taking a percentile). */
  function Sort(s: seq<real>): (r: seq<real>)
    ensures Sorted(r) && multiset(r) == multiset(s) && |r| == |s|
  {
    if s == [] then []
    else
      assert s == [s[0]] + s[1..];
      Insert(s[0], Sort(s[1..]))
  }

  function SeqMin(s: seq<real>): (r: real)
    requires |s| > 0
    ensures r in s && forall i :: 0 <= i < |s| ==> r <= s[i]
  {
    if |s| == 1 then s[0]
    else
      var m := SeqMin(s[1..]);
      assert forall i :: 1 <= i < |s| ==> s[i] == s[1..][i - 1];
      if s[0] <= m then s[0] else m
  }

  function SeqMax(s: seq<real>): (r: real)
    requires |s| > 0
    ensures r in s && forall i :: 0 <= i < |s| ==> s[i] <= r
  {
    if |s| == 1 then s[0]
    else
      var m := SeqMax(s[1..]);
      assert forall i :: 1 <= i < |s| ==> s[i] == s[1..][i - 1];
      if s[0] >= m then s[0] else m
  }

  /** The point at fraction `f` of the way from `x` to `y`. */
  function Lerp(x: real, y: real, f: real): real
  {
    x + (y - x) * f
  }

  lemma LerpBounds(x: real, y: real, f: real)
    requires x <= y && 0.0 <= f <= 1.0
    ensures x <= Lerp(x, y, f) <= y
  {
    MulMonotone(y - x, 0.0, f);
    MulMonotone(y - x, f, 1.0);
  }

  lemma LerpMonotone(x: real, y: real, f1: real, f2: real)
    requires x <= y && f1 <= f2
    ensures Lerp(x, y, f1) <= Lerp(x, y, f2)
  {
    MulMonotone(y - x, f1, f2);
  }

  /** Linear interpolation between the sorted values around fractional position `rank`. */
  function Interpolate(a: seq<real>, rank: real): real
    requires |a| > 0 && 0.0 <= rank <= (|a| - 1) as real
  {
    var lo := rank.Floor;
    var hi := if lo + 1 < |a| then lo + 1 else lo;
    Lerp(a[lo], a[hi], rank - lo as real)
  }

  /** The fractional position numpy's default method uses for percentile `p` of `n` values. */
  function Rank(n: nat, p: real): (r: real)
    requires n > 0 && 0.0 <= p <= 100.0
    ensures 0.0 <= r <= (n - 1) as real
  {
    var m, f := (n - 1) as real, p / 100.0;
    FractionOf(m, f);
    m * f
  }

  lemma FractionOf(m: real, f: real)
    requires m >= 0.0 && 0.0 <= f <= 1.0
    ensures 0.0 <= m * f <= m
  {
    MulMonotone(m, 0.0, f);
    MulMonotone(m, f, 1.0);
    assert m * 1.0 == m && m * 0.0 == 0.0;
  }

  /** numpy.percentile(s, p) with the default linear method, for 0 <= p <= 100. */
  function Percentile(s: seq<real>, p: real): real
    requires |s| > 0 && 0.0 <= p <= 100.0
  {
    Interpolate(Sort(s), Rank(|s|, p))
  }

  lemma InterpolateBounds(a: seq<real>, rank: real)
    requires |a| > 0 && 0.0 <= rank <= (|a| - 1) as real && Sorted(a)
    ensures var lo := rank.Floor;
            var hi := if lo + 1 < |a| then lo + 1 else lo;
            a[lo] <= Interpolate(a, rank) <= a[hi]
  {
    var lo := rank.Floor;
    var hi := if lo + 1 < |a| then lo + 1 else lo;
    LerpBounds(a[lo], a[hi], rank - lo as real);
  }

  lemma {:induction false} InterpolateMonotone(a: seq<real>, r1: real, r2: real)
    requires |a| > 0 && Sorted(a)
    requires 0.0 <= r1 <= r2 <= (|a| - 1) as real
    ensures Interpolate(a, r1) <= Interpolate(a, r2)
  {
    var lo1, lo2 := r1.Floor, r2.Floor;
    InterpolateBounds(a, r1);
    InterpolateBounds(a, r2);
    if lo1 == lo2 {
      var hi := if lo1 + 1 < |a| then lo1 + 1 else lo1;
      LerpMonotone(a[lo1], a[hi], r1 - lo1 as real, r2 - lo1 as real);
    } else {
      assert lo1 < lo2 && lo1 + 1 < |a|;
      assert a[lo1 + 1] <= a[lo2];
    }
  }

  /** The percentile lies between the smallest and the largest value. */
  lemma PercentileWithinRange(s: seq<real>, p: real)
    requires |s| > 0 && 0.0 <= p <= 100.0
    ensures SeqMin(s) <= Percentile(s, p) <= SeqMax(s)
  {
    InterpolateWithinEnds(Sort(s), Rank(|s|, p));
    SortedEnds(s);
  }

  lemma InterpolateWithinEnds(a: seq<real>, rank: real)
    requires |a| > 0 && 0.0 <= rank <= (|a| - 1) as real && Sorted(a)
    ensures a[0] <= Interpolate(a, rank) <= a[|a| - 1]
  {
    var lo := rank.Floor;
    var hi := if lo + 1 < |a| then lo + 1 else lo;
    InterpolateBounds(a, rank);
    assert a[0] <= a[lo] && a[hi] <= a[|a| - 1];
  }

  /** The first and last elements of a sorted permutation are the minimum and the maximum. */
  lemma SortedEnds(s: seq<real>)
    requires |s| > 0
    ensures Sort(s)[0] == SeqMin(s) && Sort(s)[|s| - 1] == SeqMax(s)
  {
    var a := Sort(s);
    SortedFirstIsMin(s, a);
    SortedLastIsMax(s, a);
  }

  lemma SortedFirstIsMin(s: seq<real>, a: seq<real>)
    requires |s| > 0 && |a| == |s| && Sorted(a) && multiset(a) == multiset(s)
    ensures a[0] == SeqMin(s)
  {
    var mn := SeqMin(s);
    assert a[0] in multiset(s);
    var k :| 0 <= k < |s| && s[k] == a[0];
    assert mn in multiset(a);
    var i :| 0 <= i < |a| && a[i] == mn;
    assert a[0] <= a[i];
  }

  lemma SortedLastIsMax(s: seq<real>, a: seq<real>)
    requires |s| > 0 && |a| == |s| && Sorted(a) && multiset(a) == multiset(s)
    ensures a[|a| - 1] == SeqMax(s)
  {
    var mx := SeqMax(s);
    assert a[|a| - 1] in multiset(s);
    var k :| 0 <= k < |s| && s[k] == a[|a| - 1];
    assert mx in multiset(a);
    var j :| 0 <= j < |a| && a[j] == mx;
    assert a[j] <= a[|a| - 1];
  }

  /** A higher percentile never gives a smaller value. */
  lemma PercentileMonotone(s: seq<real>, p1: real, p2: real)
    requires |s| > 0 && 0.0 <= p1 <= p2 <= 100.0
    ensures Percentile(s, p1) <= Percentile(s, p2)
  {
    RankMonotone(|s|, p1, p2);
    InterpolateMonotone(Sort(s), Rank(|s|, p1), Rank(|s|, p2));
  }

  lemma RankMonotone(n: nat, p1: real, p2: real)
    requires n > 0 && 0.0 <= p1 <= p2 <= 100.0
    ensures Rank(n, p1) <= Rank(n, p2)
  {
    var m, f1, f2 := (n - 1) as real, p1 / 100.0, p2 / 100.0;
    MulMonotone(m, f1, f2);
    assert Rank(n, p1) == m * f1;
    assert Rank(n, p2) == m * f2;
  }

  /** The 0th and 100th percentiles are the minimum and the maximum. */
  lemma PercentileExtremes(s: seq<real>)
    requires |s| > 0
    ensures Percentile(s, 0.0) == SeqMin(s) && Percentile(s, 100.0) == SeqMax(s)
  {
    SortedEnds(s);
    InterpolateAtEnds(Sort(s));
    RankAtEnds(|s|);
  }

  lemma RankAtEnds(n: nat)
    requires n > 0
    ensures Rank(n, 0.0) == 0.0 && Rank(n, 100.0) == (n - 1) as real
  {
  }

  lemma InterpolateAtEnds(a: seq<real>)
    requires |a| > 0
    ensures Interpolate(a, 0.0) == a[0] && Interpolate(a, (|a| - 1) as real) == a[|a| - 1]
  {
    assert (0.0).Floor == 0;
    assert ((|a| - 1) as real).Floor == |a| - 1;
  }

  /** Every percentile of a single value is that value. */
  lemma PercentileSingleton(x: real, p: real)
    requires 0.0 <= p <= 100.0
    ensures Percentile([x], p) == x
  {
    assert Sort([x]) == Insert(x, Sort([]));
  }
}
