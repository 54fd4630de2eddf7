// The linear-interpolation percentile, over exact reals and with Python's indexing.
module Percentile {

  datatype Outcome = Value(x: real) | EmptySequence | IndexOutOfRange

  function Ceil(x: real): int { -((-x).Floor) }

  predicate Indexable(n: int, i: int) { -n <= i < n }

  // s[i] with Python's meaning of a negative index.
  function At(s: seq<real>, i: int): real
    requires Indexable(|s|, i)
  {
    if i >= 0 then s[i] else s[|s| + i]
  }

  function Times(a: real, b: real): real { a * b }

  function Rank(n: nat, pct: real): real { Times(pct / 100.0, n as real - 1.0) }

  function Percentile(s: seq<real>, pct: real): Outcome
  {
    if s == [] then EmptySequence
    else if |s| == 1 then Value(s[0])
    else
      var rank := Rank(|s|, pct);
      var lo, hi := rank.Floor, Ceil(rank);
      if !Indexable(|s|, lo) then IndexOutOfRange
      else if lo == hi then Value(At(s, lo))
      else if !Indexable(|s|, hi) then IndexOutOfRange
      else Value(At(s, lo) + Times(rank - lo as real, At(s, hi) - At(s, lo)))
  }

  ghost predicate Ascending(s: seq<real>) { forall i, j :: 0 <= i <= j < |s| ==> s[i] <= s[j] }

  predicate InRange(pct: real) { 0.0 <= pct <= 100.0 }

  // ---------------------------------------------------------------- arithmetic

  lemma Scale(a: real, b: real, k: real)
    requires a <= b && 0.0 <= k
    ensures Times(a, k) <= Times(b, k)
  {
  }

  lemma Units(k: real)
    ensures Times(0.0, k) == 0.0 && Times(1.0, k) == k && Times(-1.0, k) == -k
  {
  }

  lemma Spread(f: real, x: real, y: real)
    ensures Times(f, x - y) == Times(f, x) - Times(f, y)
  {
    assert f * (x - y) == f * x - f * y;
  }

  lemma Fraction(f: real, gap: real)
    requires 0.0 <= f <= 1.0 && gap >= 0.0
    ensures 0.0 <= Times(f, gap) <= gap
  {
    hide Times;
    Units(gap);
    Scale(0.0, f, gap);
    Scale(f, 1.0, gap);
  }

  lemma FloorCeil(x: real)
    ensures x.Floor as real <= x < x.Floor as real + 1.0
    ensures x == x.Floor as real ==> Ceil(x) == x.Floor
    ensures x != x.Floor as real ==> Ceil(x) == x.Floor + 1
  {
    var f := x.Floor;
    if x == f as real {
      assert (-x) == (-f) as real;
    } else {
      assert (-f - 1) as real <= -x < (-f - 1) as real + 1.0;
    }
  }

  lemma RankBounds(n: nat, pct: real)
    requires n >= 1 && InRange(pct)
    ensures 0.0 <= Rank(n, pct) <= n as real - 1.0
    ensures 0 <= Rank(n, pct).Floor <= n - 1 && 0 <= Ceil(Rank(n, pct)) <= n - 1
  {
    hide Times;
    var k := n as real - 1.0;
    Fraction(pct / 100.0, k);
    FloorCeil(Rank(n, pct));
    assert k == (n - 1) as real;
  }

  lemma RankMonotone(n: nat, p: real, q: real)
    requires n >= 1 && p <= q
    ensures Rank(n, p) <= Rank(n, q)
  {
    Scale(p / 100.0, q / 100.0, n as real - 1.0);
  }

  // ---------------------------------------------------------------- interpolation

  // The piecewise linear function through the points (i, s[i]).
  function Interpolate(s: seq<real>, rank: real): real
    requires 0.0 <= rank && rank.Floor < |s| && Ceil(rank) < |s|
  {
    var lo, hi := rank.Floor, Ceil(rank);
    assert hi >= 0 by { FloorCeil(rank); }
    s[lo] + Times(rank - lo as real, s[hi] - s[lo])
  }

  lemma PercentileInterpolates(s: seq<real>, pct: real)
    requires s != [] && InRange(pct)
    ensures 0.0 <= Rank(|s|, pct) && Rank(|s|, pct).Floor < |s| && Ceil(Rank(|s|, pct)) < |s|
    ensures Percentile(s, pct) == Value(Interpolate(s, Rank(|s|, pct)))
  {
    hide Times;
    RankBounds(|s|, pct);
    var rank := Rank(|s|, pct);
    FloorCeil(rank);
    Units(s[Ceil(rank)] - s[rank.Floor]);
  }

  // Between the two neighbouring elements.
  lemma InterpolateBrackets(s: seq<real>, rank: real)
    requires Ascending(s) && 0.0 <= rank && rank.Floor < |s| && Ceil(rank) < |s|
    ensures 0 <= Ceil(rank) && s[rank.Floor] <= Interpolate(s, rank) <= s[Ceil(rank)]
  {
    hide Times;
    FloorCeil(rank);
    Fraction(rank - rank.Floor as real, s[Ceil(rank)] - s[rank.Floor]);
  }

  lemma InterpolateMonotone(s: seq<real>, a: real, b: real)
    requires Ascending(s) && 0.0 <= a <= b
    requires a.Floor < |s| && Ceil(a) < |s| && b.Floor < |s| && Ceil(b) < |s|
    ensures Interpolate(s, a) <= Interpolate(s, b)
  {
    hide Times;
    FloorCeil(a);
    FloorCeil(b);
    InterpolateBrackets(s, a);
    InterpolateBrackets(s, b);
    if a.Floor == b.Floor {
      if Ceil(a) == Ceil(b) {
        Scale(a - a.Floor as real, b - b.Floor as real, s[Ceil(b)] - s[b.Floor]);
      } else {
        Units(s[Ceil(a)] - s[a.Floor]);
      }
    } else {
      assert Ceil(a) <= b.Floor;
    }
  }

  // ---------------------------------------------------------------- main results

  // On an ascending sequence the percentile lies between the two elements that bracket its rank, is the
  // minimum at 0 and the maximum at 100.
  lemma Brackets(s: seq<real>, pct: real)
    requires s != [] && Ascending(s) && InRange(pct)
    ensures Percentile(s, pct).Value?
    ensures var lo, hi := Rank(|s|, pct).Floor, Ceil(Rank(|s|, pct));
      0 <= lo <= hi < |s| && s[lo] <= Percentile(s, pct).x <= s[hi]
    ensures Percentile(s, 0.0) == Value(s[0]) && Percentile(s, 100.0) == Value(s[|s| - 1])
  {
    hide Times;
    Units(|s| as real - 1.0);
    PercentileInterpolates(s, pct);
    InterpolateBrackets(s, Rank(|s|, pct));
    FloorCeil(Rank(|s|, pct));
    assert Rank(|s|, 0.0) == 0.0 && Rank(|s|, 100.0) == (|s| - 1) as real;
    FloorCeil(0.0);
    FloorCeil((|s| - 1) as real);
  }

  // The k-th element of n is the percentile at 100 * k / (n - 1), and between two such points the value runs
  // straight from the one element to the next.
  lemma PercentileAt(s: seq<real>, k: nat, f: real)
    requires |s| >= 2 && k + 1 < |s| && 0.0 <= f <= 1.0
    ensures Percentile(s, 100.0 * (k as real + f) / (|s| - 1) as real) == Value((1.0 - f) * s[k] + f * s[k + 1])
    ensures Percentile(s, 100.0 * k as real / (|s| - 1) as real) == Value(s[k])
    ensures Percentile(s, 100.0 * (k + 1) as real / (|s| - 1) as real) == Value(s[k + 1])
  {
    LinearFrom(s, k, f);
    LinearFrom(s, k, 0.0);
    LinearFrom(s, k, 1.0);
  }

  lemma LinearFrom(s: seq<real>, k: nat, f: real)
    requires |s| >= 2 && k + 1 < |s| && 0.0 <= f <= 1.0
    ensures Percentile(s, 100.0 * (k as real + f) / (|s| - 1) as real) == Value((1.0 - f) * s[k] + f * s[k + 1])
  {
    var x, m := k as real + f, (|s| - 1) as real;
    assert Rank(|s|, 100.0 * x / m) == x by { GridPoint(x, m); }
    FloorCeil(x);
    if f == 1.0 {
      assert x == (k + 1) as real && x.Floor == k + 1;
    } else {
      assert x.Floor == k && x - k as real == f;
      Straight(s[k], s[k + 1], f);
    }
  }

  lemma GridPoint(x: real, m: real)
    requires m > 0.0
    ensures Times(100.0 * x / m / 100.0, m) == x
  {
    var p := 100.0 * x / m;
    assert p * m == 100.0 * x;
    assert p / 100.0 * m == (p * m) / 100.0;
  }

  lemma Straight(a: real, b: real, f: real)
    ensures a + Times(f, b - a) == (1.0 - f) * a + f * b
  {
  }

  // A larger percentage never gives a smaller value, also across element boundaries.
  lemma MonotoneInPercentage(s: seq<real>, p: real, q: real)
    requires s != [] && Ascending(s) && InRange(p) && InRange(q) && p <= q
    ensures Percentile(s, p).Value? && Percentile(s, q).Value? && Percentile(s, p).x <= Percentile(s, q).x
  {
    PercentileInterpolates(s, p);
    PercentileInterpolates(s, q);
    RankMonotone(|s|, p, q);
    InterpolateMonotone(s, Rank(|s|, p), Rank(|s|, q));
  }

  // Raising any of the data never lowers the percentile, whether sorted or not.
  lemma MonotoneInData(s: seq<real>, t: seq<real>, pct: real)
    requires s != [] && |s| == |t| && InRange(pct) && forall i :: 0 <= i < |s| ==> s[i] <= t[i]
    ensures Percentile(s, pct).Value? && Percentile(t, pct).Value? && Percentile(s, pct).x <= Percentile(t, pct).x
  {
    hide Times;
    PercentileInterpolates(s, pct);
    PercentileInterpolates(t, pct);
    var rank := Rank(|s|, pct);
    FloorCeil(rank);
    var lo, hi := rank.Floor, Ceil(rank);
    MixMonotone(s[lo], s[hi], t[lo], t[hi], rank - lo as real);
  }

  lemma MixMonotone(a: real, b: real, c: real, d: real, f: real)
    requires a <= c && b <= d && 0.0 <= f <= 1.0
    ensures a + Times(f, b - a) <= c + Times(f, d - c)
  {
    hide Times;
    Spread(f, b, a);
    Spread(f, d, c);
    Spread(f, d, b);
    Spread(f, c, a);
    Fraction(f, d - b);
    Fraction(f, c - a);
  }

  // Nothing checks the percentage. With two or more elements, a value comes back exactly when the
  // percentage is at most 100 and its rank is not below minus the number of elements.
  lemma ValueExactly(s: seq<real>, pct: real)
    requires |s| >= 2
    ensures Percentile(s, pct).Value? <==>
      pct <= 100.0 && pct / 100.0 * (|s| as real - 1.0) >= -(|s| as real)
    ensures pct > 100.0 ==> Percentile(s, pct) == IndexOutOfRange
  {
    hide Times;
    var k := |s| as real - 1.0;
    var rank, share := Rank(|s|, pct), pct / 100.0;
    assert k == (|s| - 1) as real;
    assert rank == pct / 100.0 * (|s| as real - 1.0) by { IsProduct(share, k); }
    FloorCeil(rank);
    assert rank.Floor >= -|s| <==> rank >= (-|s|) as real;
    Units(k);
    if pct > 100.0 {
      Exceeds(share, k);
    } else {
      Scale(share, 1.0, k);
    }
  }

  lemma IsProduct(a: real, b: real)
    ensures Times(a, b) == a * b
  {
  }

  lemma Exceeds(a: real, k: real)
    requires a > 1.0 && k > 0.0
    ensures Times(a, k) > k
  {
    assert (a - 1.0) * k > 0.0;
    assert a * k == (a - 1.0) * k + k;
  }

  // Below zero the index wraps around: k rank steps below the minimum stands the k-th element from the end, so
  // that one step below the minimum is the maximum and monotonicity ends exactly at 0.
  lemma NegativePercentageWraps(s: seq<real>, k: int)
    requires |s| >= 2 && 1 <= k <= |s|
    ensures Percentile(s, -100.0 * k as real / (|s| - 1) as real) == Value(s[|s| - k])
  {
    var m := (|s| - 1) as real;
    var x := -(k as real);
    assert -100.0 * k as real == 100.0 * x;
    assert Rank(|s|, 100.0 * x / m) == x by { GridPoint(x, m); }
    FloorCeil(x);
    assert x == (-k) as real && x.Floor == -k;
  }
}
