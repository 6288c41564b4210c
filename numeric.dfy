/**
 * The numeric reductions the two scripts borrow from pandas and numpy, over exact reals:
 * sums, means, squared deviations, population and sample variance, minimum and maximum,
 * sorting, linear-interpolation quantiles and the median.
 */
module Numeric {

  /** Product, named so that squares stay recognisable to the solver. */
  function Mul(a: real, b: real): real
  {
    a * b
  }

  function Square(x: real): real
  {
    Mul(x, x)
  }

  /** Sum of a column, accumulated from the left. */
  function Sum(xs: seq<real>): real
  {
    if xs == [] then 0.0 else Sum(xs[..|xs| - 1]) + xs[|xs| - 1]
  }

  /** Arithmetic mean (`np.mean`, `Series.mean`). */
  function Mean(xs: seq<real>): real
    requires |xs| > 0
  {
    Sum(xs) / |xs| as real
  }

  /** Sum of squared deviations from `m`. */
  function SqDev(xs: seq<real>, m: real): (r: real)
    ensures r >= 0.0
  {
    if xs == [] then 0.0
    else
      SquareNonnegative(xs[|xs| - 1] - m);
      SqDev(xs[..|xs| - 1], m) + Square(xs[|xs| - 1] - m)
  }

  /** Population variance, the square of `np.std` (divides by N). */
  function PopVariance(xs: seq<real>): (v: real)
    requires |xs| > 0
    ensures v >= 0.0
  {
    SqDev(xs, Mean(xs)) / |xs| as real
  }

  /** Sample variance, the square of pandas' `Series.std` (divides by N - 1). */
  function SampleVariance(xs: seq<real>): (v: real)
    requires |xs| >= 2
    ensures v >= 0.0
  {
    SqDev(xs, Mean(xs)) / (|xs| - 1) as real
  }

  /** Smallest element (`Series.min`). */
  function Min(xs: seq<real>): (r: real)
    requires |xs| > 0
    ensures r in xs
    ensures forall i :: 0 <= i < |xs| ==> r <= xs[i]
  {
    if |xs| == 1 then xs[0]
    else
      var m := Min(xs[..|xs| - 1]);
      if xs[|xs| - 1] < m then xs[|xs| - 1] else m
  }

  /** Largest element (`Series.max`). */
  function Max(xs: seq<real>): (r: real)
    requires |xs| > 0
    ensures r in xs
    ensures forall i :: 0 <= i < |xs| ==> xs[i] <= r
  {
    if |xs| == 1 then xs[0]
    else
      var m := Max(xs[..|xs| - 1]);
      if m < xs[|xs| - 1] then xs[|xs| - 1] else m
  }

  predicate Sorted(xs: seq<real>)
  {
    forall i, j :: 0 <= i < j < |xs| ==> xs[i] <= xs[j]
  }

  predicate Constant(xs: seq<real>)
  {
    forall i, j :: 0 <= i < |xs| && 0 <= j < |xs| ==> xs[i] == xs[j]
  }

  /** Inserts `x` into an ascending sequence. */
  function Insert(x: real, xs: seq<real>): (r: seq<real>)
    requires Sorted(xs)
    ensures |r| == |xs| + 1
    ensures multiset(r) == multiset(xs) + multiset{x}
    ensures Sorted(r)
  {
    if xs == [] || x <= xs[0] then [x] + xs
    else
      var rest := Insert(x, xs[1..]);
      HeadBelowInsertion(x, xs, rest);
      assert xs == [xs[0]] + xs[1..];
      [xs[0]] + rest
  }

  lemma HeadBelowInsertion(x: real, xs: seq<real>, rest: seq<real>)
    requires Sorted(xs) && xs != [] && xs[0] < x
    requires multiset(rest) == multiset(xs[1..]) + multiset{x}
    ensures forall i :: 0 <= i < |rest| ==> xs[0] <= rest[i]
  {
    forall i | 0 <= i < |rest| ensures xs[0] <= rest[i] {
      assert rest[i] in multiset(rest);
      if rest[i] != x {
        assert rest[i] in multiset(xs[1..]);
        var j :| 0 <= j < |xs[1..]| && xs[1..][j] == rest[i];
        assert xs[j + 1] == rest[i];
      }
    }
  }

  /** The values in ascending order, the order statistics quantiles interpolate between. */
  function SortedValues(xs: seq<real>): (r: seq<real>)
    ensures |r| == |xs|
    ensures multiset(r) == multiset(xs)
    ensures Sorted(r)
  {
    if xs == [] then []
    else
      assert xs == [xs[0]] + xs[1..];
      Insert(xs[0], SortedValues(xs[1..]))
  }

  /** Linear interpolation from `a` (at `t = 0`) to `b` (at `t = 1`), numpy's `_lerp`. */
  function Lerp(a: real, b: real, t: real): (r: real)
    requires a <= b && 0.0 <= t <= 1.0
    ensures a <= r <= b
  {
    ScaleBelowOne(t, b - a);
    a + Mul(t, b - a)
  }

  /** The order statistic at fractional position `h`, interpolated linearly. */
  function QuantileAt(xs: seq<real>, h: real): (r: real)
    requires |xs| > 0 && Sorted(xs) && 0.0 <= h <= (|xs| - 1) as real
    ensures xs[0] <= r <= xs[|xs| - 1]
  {
    var i := h.Floor;
    if i + 1 < |xs| then Lerp(xs[i], xs[i + 1], h - i as real) else xs[i]
  }

  /**
   * Quantile `q` of an ascending sequence: linear interpolation between the two order
   * statistics around position `(n - 1) * q` (pandas' default `interpolation='linear'`).
   */
  function Quantile(xs: seq<real>, q: real): (r: real)
    requires |xs| > 0 && Sorted(xs) && 0.0 <= q <= 1.0
    ensures xs[0] <= r <= xs[|xs| - 1]
  {
    ScaleBelowOne(q, (|xs| - 1) as real);
    QuantileAt(xs, Mul(q, (|xs| - 1) as real))
  }

  /** Median: the middle order statistic, or the mean of the two middle ones (`Series.median`). */
  function Median(xs: seq<real>): real
    requires |xs| > 0 && Sorted(xs)
  {
    var k := |xs| / 2;
    if |xs| % 2 == 1 then xs[k] else (xs[k - 1] + xs[k]) / 2.0
  }

  /** Interpolated order statistics grow with their position. */
  lemma QuantileAtMonotone(xs: seq<real>, h1: real, h2: real)
    requires |xs| > 0 && Sorted(xs) && 0.0 <= h1 <= h2 <= (|xs| - 1) as real
    ensures QuantileAt(xs, h1) <= QuantileAt(xs, h2)
  {
    var i1, i2 := h1.Floor, h2.Floor;
    if i1 < i2 {
      assert QuantileAt(xs, h1) <= xs[i1 + 1] <= xs[i2] <= QuantileAt(xs, h2);
    } else if i1 + 1 < |xs| {
      ScaleMonotone(h1 - i1 as real, h2 - i1 as real, xs[i1 + 1] - xs[i1]);
    }
  }

  /** Quantiles are monotone in `q`. */
  lemma QuantileMonotone(xs: seq<real>, q1: real, q2: real)
    requires |xs| > 0 && Sorted(xs) && 0.0 <= q1 <= q2 <= 1.0
    ensures Quantile(xs, q1) <= Quantile(xs, q2)
  {
    var n := (|xs| - 1) as real;
    ScaleBelowOne(q1, n);
    ScaleBelowOne(q2, n);
    ScaleMonotone(q1, q2, n);
    QuantileAtMonotone(xs, Mul(q1, n), Mul(q2, n));
  }

  /** The median is the quantile at one half. */
  lemma MedianIsMidQuantile(xs: seq<real>)
    requires |xs| > 0 && Sorted(xs)
    ensures Median(xs) == Quantile(xs, 0.5)
  {
    var n := |xs|;
    var h := Mul(0.5, (n - 1) as real);
    var k := n / 2;
    if n % 2 == 1 {
      assert h == k as real;
      assert h.Floor == k;
    } else {
      assert h == (k - 1) as real + 0.5;
      assert h.Floor == k - 1;
    }
  }

  /** In any ascending arrangement of a column, the first element is its minimum and the last its maximum. */
  lemma SortedEnds(s: seq<real>, xs: seq<real>)
    requires |xs| > 0 && Sorted(s) && multiset(s) == multiset(xs)
    ensures |s| == |xs|
    ensures s[0] == Min(xs) && s[|s| - 1] == Max(xs)
  {
    assert |multiset(s)| == |multiset(xs)|;
    assert Min(xs) in multiset(s);
    assert Max(xs) in multiset(s);
    assert s[0] in multiset(xs);
    assert s[|s| - 1] in multiset(xs);
  }

  /** A column has only one ascending arrangement, so the order statistics are well defined. */
  lemma {:induction false} SortedUnique(a: seq<real>, b: seq<real>)
    requires Sorted(a) && Sorted(b) && multiset(a) == multiset(b)
    ensures a == b
  {
    assert |multiset(a)| == |multiset(b)|;
    if a != [] {
      SortedHeads(a, b);
      assert a == [a[0]] + a[1..];
      assert b == [b[0]] + b[1..];
      assert multiset(a) == multiset{a[0]} + multiset(a[1..]);
      assert multiset(b) == multiset{b[0]} + multiset(b[1..]);
      assert multiset(a[1..]) == multiset(a) - multiset{a[0]} == multiset(b[1..]);
      assert Sorted(a[1..]) && Sorted(b[1..]);
      SortedUnique(a[1..], b[1..]);
    }
  }

  lemma SortedHeads(a: seq<real>, b: seq<real>)
    requires Sorted(a) && Sorted(b) && multiset(a) == multiset(b) && a != [] && b != []
    ensures a[0] == b[0]
  {
    assert a[0] in multiset(b);
    assert b[0] in multiset(a);
    var i :| 0 <= i < |b| && b[i] == a[0];
    var j :| 0 <= j < |a| && a[j] == b[0];
    assert b[0] <= b[i] && a[0] <= a[j];
  }

  /** Bounds on every element bound the sum. */
  lemma {:induction false} SumBounds(xs: seq<real>, lo: real, hi: real)
    requires forall i :: 0 <= i < |xs| ==> lo <= xs[i] <= hi
    ensures Mul(|xs| as real, lo) <= Sum(xs) <= Mul(|xs| as real, hi)
  {
    if xs != [] {
      var p := xs[..|xs| - 1];
      assert forall i :: 0 <= i < |p| ==> p[i] == xs[i];
      SumBounds(p, lo, hi);
      MulAddOne(|p| as real, lo);
      MulAddOne(|p| as real, hi);
    }
  }

  /** The mean lies between the minimum and the maximum. */
  lemma MeanBetween(xs: seq<real>)
    requires |xs| > 0
    ensures Min(xs) <= Mean(xs) <= Max(xs)
  {
    SumBounds(xs, Min(xs), Max(xs));
    DivideBetween(Sum(xs), |xs| as real, Min(xs), Max(xs));
  }

  /** A constant column sums to its length times the constant. */
  lemma {:induction false} SumConstant(xs: seq<real>, c: real)
    requires forall i :: 0 <= i < |xs| ==> xs[i] == c
    ensures Sum(xs) == Mul(|xs| as real, c)
  {
    if xs != [] {
      var p := xs[..|xs| - 1];
      assert forall i :: 0 <= i < |p| ==> p[i] == xs[i];
      SumConstant(p, c);
      MulAddOne(|p| as real, c);
    }
  }

  /** Appending a value adds it to the sum. */
  lemma SumSnoc(xs: seq<real>, x: real)
    ensures Sum(xs + [x]) == Sum(xs) + x
  {
    assert (xs + [x])[..|xs|] == xs;
  }

  /** Appending a value adds its squared deviation. */
  lemma SqDevSnoc(xs: seq<real>, x: real, m: real)
    ensures SqDev(xs + [x], m) == SqDev(xs, m) + Square(x - m)
  {
    assert (xs + [x])[..|xs|] == xs;
  }

  /** A constant column's squared deviations are its length times one squared deviation. */
  lemma {:induction false} SqDevConstant(xs: seq<real>, c: real, m: real)
    requires forall i :: 0 <= i < |xs| ==> xs[i] == c
    ensures SqDev(xs, m) == Mul(|xs| as real, Square(c - m))
  {
    if xs != [] {
      var p := xs[..|xs| - 1];
      assert forall i :: 0 <= i < |p| ==> p[i] == xs[i];
      SqDevConstant(p, c, m);
      MulAddOne(|p| as real, Square(c - m));
    }
  }

  /** The squared deviations vanish exactly when every element equals `m`. */
  lemma {:induction false} SqDevZero(xs: seq<real>, m: real)
    ensures SqDev(xs, m) == 0.0 <==> forall i :: 0 <= i < |xs| ==> xs[i] == m
  {
    if xs != [] {
      var p := xs[..|xs| - 1];
      assert forall i :: 0 <= i < |p| ==> p[i] == xs[i];
      SqDevZero(p, m);
      if SqDev(xs, m) == 0.0 {
        SquareNonnegative(xs[|xs| - 1] - m);
        SquareZero(xs[|xs| - 1] - m);
      }
    }
  }

  /** Both variances vanish exactly when the column is constant. */
  lemma VarianceZeroIffConstant(xs: seq<real>)
    requires |xs| > 0
    ensures PopVariance(xs) == 0.0 <==> Constant(xs)
    ensures |xs| >= 2 ==> (SampleVariance(xs) == 0.0 <==> Constant(xs))
  {
    var s := SqDev(xs, Mean(xs));
    DivideZero(s, |xs| as real);
    if |xs| >= 2 {
      DivideZero(s, (|xs| - 1) as real);
    }
    SqDevZero(xs, Mean(xs));
    if Constant(xs) {
      SumConstant(xs, xs[0]);
      DivideTimesBack(xs[0], |xs| as real);
    }
  }

  /**
   * Cauchy-Schwarz for deviations: the squared total deviation from `m`
   * is at most the count times the sum of squared deviations.
   */
  lemma {:induction false} DeviationBound(xs: seq<real>, m: real)
    ensures Square(Sum(xs) - Mul(|xs| as real, m)) <= Mul(|xs| as real, SqDev(xs, m))
  {
    if xs != [] {
      var p := xs[..|xs| - 1];
      var n := |p| as real;
      DeviationBound(p, m);
      MulAddOne(n, m);
      assert Sum(xs) - Mul(|xs| as real, m) == (Sum(p) - Mul(n, m)) + (xs[|xs| - 1] - m);
      CauchySchwarzStep(n, SqDev(p, m), Sum(p) - Mul(n, m), xs[|xs| - 1] - m);
    }
  }

  /**
   * A value that belongs to its own population lies within `sqrt(N - 1)` population
   * standard deviations of the mean (Samuelson's inequality for the last element):
   * `(c - mean)^2 <= (N - 1) * variance`, with `N = |h| + 1`.
   */
  lemma SelfInclusionBound(h: seq<real>, c: real)
    ensures Square(c - Mean(h + [c])) <= Mul(|h| as real, PopVariance(h + [c]))
  {
    var xs := h + [c];
    var m := Mean(xs);
    var n := |h| as real;
    assert xs[..|xs| - 1] == h;
    assert Sum(xs) == Sum(h) + c;
    DivideTimes(Sum(xs), n + 1.0);
    MulAddOne(n, m);
    assert Sum(h) - Mul(n, m) == m - c;
    DeviationBound(h, m);
    SquareNegate(c - m);
    assert SqDev(xs, m) == SqDev(h, m) + Square(c - m);
    SamuelsonStep(n, Square(c - m), SqDev(h, m));
  }

  // Arithmetic facts, each proved in isolation over `Mul`.

  lemma MulPositive(a: real, b: real)
    requires a > 0.0 && b > 0.0
    ensures Mul(a, b) > 0.0
  {
  }

  lemma MulNegative(a: real, b: real)
    requires a < 0.0 && b < 0.0
    ensures Mul(a, b) > 0.0
  {
  }

  lemma MulNonnegative(a: real, b: real)
    requires a >= 0.0 && b >= 0.0
    ensures Mul(a, b) >= 0.0
  {
    if a > 0.0 && b > 0.0 {
      MulPositive(a, b);
    }
  }

  lemma MulAddOne(n: real, x: real)
    ensures Mul(n + 1.0, x) == Mul(n, x) + x
  {
  }

  lemma SquareNonnegative(x: real)
    ensures Square(x) >= 0.0
  {
    if x > 0.0 {
      MulPositive(x, x);
    } else if x < 0.0 {
      MulNegative(x, x);
    }
  }

  lemma SquareZero(x: real)
    requires Square(x) == 0.0
    ensures x == 0.0
  {
    if x > 0.0 {
      MulPositive(x, x);
    } else if x < 0.0 {
      MulNegative(x, x);
    }
  }

  lemma SquareNegate(x: real)
    ensures Square(-x) == Square(x)
  {
  }

  lemma SquareLess(a: real, b: real)
    requires 0.0 <= a && 0.0 <= b
    ensures a < b <==> Square(a) < Square(b)
  {
    if a < b {
      MulPositive(b - a, b + a);
      assert Square(b) - Square(a) == Mul(b - a, b + a);
    } else {
      MulNonnegative(a - b, a + b);
      assert Square(a) - Square(b) == Mul(a - b, a + b);
    }
  }

  lemma SquareDouble(x: real)
    ensures Square(Mul(2.0, x)) == Mul(4.0, Square(x))
  {
  }

  lemma QuotientAbove(d: real, s: real, k: real)
    requires s > 0.0
    ensures d / s > k <==> d > Mul(k, s)
  {
    var q := d / s;
    DivideTimes(d, s);
    assert d - Mul(k, s) == Mul(q - k, s);
    if q > k {
      MulPositive(q - k, s);
    } else {
      MulNonnegative(k - q, s);
    }
  }

  lemma ScaleBelowOne(t: real, d: real)
    requires 0.0 <= t <= 1.0 && d >= 0.0
    ensures 0.0 <= Mul(t, d) <= d
  {
    MulNonnegative(t, d);
    MulNonnegative(1.0 - t, d);
    assert Mul(1.0 - t, d) == d - Mul(t, d);
  }

  lemma ScaleMonotone(t1: real, t2: real, d: real)
    requires t1 <= t2 && d >= 0.0
    ensures Mul(t1, d) <= Mul(t2, d)
  {
  }

  lemma DivideBetween(s: real, n: real, lo: real, hi: real)
    requires n > 0.0 && Mul(n, lo) <= s <= Mul(n, hi)
    ensures lo <= s / n <= hi
  {
  }

  lemma DivideZero(s: real, n: real)
    requires n > 0.0
    ensures s / n == 0.0 <==> s == 0.0
  {
  }

  lemma DivideTimes(s: real, n: real)
    requires n > 0.0
    ensures Mul(s / n, n) == s
  {
  }

  lemma DivideTimesBack(c: real, n: real)
    requires n > 0.0
    ensures Mul(n, c) / n == c
  {
  }

  lemma CauchySchwarzStep(n: real, q: real, d: real, a: real)
    requires n >= 0.0 && q >= 0.0 && Square(d) <= Mul(n, q) && (n == 0.0 ==> d == 0.0)
    ensures Square(d + a) <= Mul(n + 1.0, q + Square(a))
  {
    if n > 0.0 {
      var k := q + Mul(n, Square(a)) - 2.0 * Mul(a, d);
      SquareNonnegative(d - Mul(n, a));
      assert Mul(n, k) == Mul(n, q) + Square(d - Mul(n, a)) - Square(d);
      if k < 0.0 {
        MulPositive(n, -k);
      }
    }
  }

  lemma SamuelsonStep(n: real, e: real, q: real)
    requires n >= 0.0 && e <= Mul(n, q)
    ensures e <= Mul(n, (q + e) / (n + 1.0))
  {
    assert Mul(n + 1.0, e) <= Mul(n, q + e);
    assert Mul(n, (q + e) / (n + 1.0)) == Mul(n, q + e) / (n + 1.0);
  }
}
