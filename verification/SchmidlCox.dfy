/** gr_autopilot/link/sync.py: the delay autocorrelation timing metric. */
module SchmidlCox {
  import opened Complex

  /** conj(r[n]) r[n+D] for every n it is defined at. */
  function Products(r: seq<C>, D: nat): (p: seq<C>)
    requires D <= |r|
    ensures |p| == |r| - D
  {
    seq(|r| - D, n requires 0 <= n < |r| - D => Mul(Conj(r[n]), r[n + D]))
  }

  /** |r[n+D]|^2, as a complex number so that both sums run through the same code. */
  function Energies(r: seq<C>, D: nat): (e: seq<C>)
    requires D <= |r|
    ensures |e| == |r| - D
  {
    seq(|r| - D, n requires 0 <= n < |r| - D => C(Abs2(r[n + D]), 0.0))
  }

  /** The cumulative sum with a leading zero, as the source builds it. */
  function CumSum(x: seq<C>): (cs: seq<C>)
    ensures |cs| == |x| + 1
  {
    if x == [] then [ZERO] else
      var head := CumSum(x[..|x| - 1]);
      head + [Add(head[|x| - 1], x[|x| - 1])]
  }

  /** cs[D:] - cs[:-D], cut to the N - 2D + 1 positions the metric reports. */
  function Windowed(x: seq<C>, D: nat): (w: seq<C>)
    requires 1 <= D <= |x| + 1
    ensures |w| == |x| + 1 - D
  {
    var cs := CumSum(x);
    seq(|x| + 1 - D, d requires 0 <= d < |x| + 1 - D => Sub(cs[d + D], cs[d]))
  }

  const FLOOR: real := 0.000000000001   // 1e-12

  datatype Metric = Metric(m: seq<real>, p: seq<C>)

  /** |P|^2 over R^2, kept finite by the floor. */
  function Normalised(p2: real, R: real): real {
    SquareNonNegative(R);
    p2 / (R * R + FLOOR)
  }

  function Compute(r: seq<C>, D: int): Metric {
    if D <= 0 || |r| < 2 * D + 1 then Metric([], []) else
      var p, e := Windowed(Products(r, D), D), Windowed(Energies(r, D), D);
      Metric(seq(|p|, d requires 0 <= d < |p| => Normalised(Abs2(p[d]), e[d].re)), p)
  }

  // ---- the direct definition --------------------------------------------------------

  /** The first n terms of the window at d. */
  function WindowSum(x: seq<C>, d: nat, n: nat): C
    requires d + n <= |x|
  {
    if n == 0 then ZERO else Add(WindowSum(x, d, n - 1), x[d + n - 1])
  }

  lemma {:induction false} CumSumAt(x: seq<C>, k: nat)
    requires k < |x|
    ensures CumSum(x)[0] == ZERO
    ensures CumSum(x)[k + 1] == Add(CumSum(x)[k], x[k])
  {
    hide Add;
    if k < |x| - 1 {
      CumSumAt(x[..|x| - 1], k);
    } else if k > 0 {
      CumSumAt(x[..|x| - 1], 0);
    }
  }

  lemma {:induction false} DifferenceIsWindow(x: seq<C>, d: nat, n: nat)
    requires d + n <= |x|
    ensures Sub(CumSum(x)[d + n], CumSum(x)[d]) == WindowSum(x, d, n)
  {
    hide CumSum;
    if n > 0 {
      DifferenceIsWindow(x, d, n - 1);
      CumSumAt(x, d + n - 1);
    }
  }

  /** The cumulative-sum arrays are the windowed sums of the definition, at every position, for the
      positions 0 .. N - 2D. */
  lemma MetricIsDirect(r: seq<C>, D: nat, d: nat)
    requires D >= 1 && |r| >= 2 * D + 1 && d <= |r| - 2 * D
    ensures var out := Compute(r, D);
            var P, R := WindowSum(Products(r, D), d, D), WindowSum(Energies(r, D), d, D).re;
            |out.m| == |out.p| == |r| - 2 * D + 1
            && out.p[d] == P && out.m[d] == Normalised(Abs2(P), R)
  {
    hide CumSum, WindowSum, Abs2, Products, Energies, Normalised, Sub;
    DifferenceIsWindow(Products(r, D), d, D);
    DifferenceIsWindow(Energies(r, D), d, D);
  }

  // ---- carrier-frequency offset --------------------------------------------------------

  /** Sample n turned by u^n: a constant frequency offset. */
  function Rotated(r: seq<C>, u: C): (s: seq<C>)
    ensures |s| == |r|
  {
    seq(|r|, n requires 0 <= n < |r| => Mul(r[n], Pow(u, n)))
  }

  /** (a x)* (b y x) == (a* b) y when |x| = 1. */
  lemma OffsetCancels(a: C, b: C, x: C, y: C)
    requires Abs2(x) == 1.0
    ensures Mul(Conj(Mul(a, x)), Mul(b, Mul(x, y))) == Mul(y, Mul(Conj(a), b))
  {
    hide Mul, Abs2, Conj;
    var ca, cx := Conj(a), Conj(x);
    ConjOfMul(a, x);
    MulAssociates(ca, cx, Mul(b, Mul(x, y)));
    MulAssociates(b, x, y);
    MulCommutes(b, x);
    MulAssociates(x, b, y);
    MulAssociates(cx, x, Mul(b, y));
    ConjTimesSelf(x);
    MulCommutes(UNIT, Mul(b, y));
    MulReal(Mul(b, y), 1.0);
    assert Mul(cx, Mul(b, Mul(x, y))) == Mul(b, y);
    MulAssociates(ca, b, y);
    MulCommutes(Mul(ca, b), y);
  }

  lemma RotatedProducts(r: seq<C>, u: C, D: nat, n: nat)
    requires Abs2(u) == 1.0 && n + D < |r|
    ensures Products(Rotated(r, u), D)[n] == Mul(Pow(u, D), Products(r, D)[n])
    ensures Energies(Rotated(r, u), D)[n] == Energies(r, D)[n]
  {
    hide Mul, Abs2, Conj, Pow;
    PowOnCircle(u, n);
    PowOnCircle(u, n + D);
    PowAdds(u, n, D);
    OffsetCancels(r[n], r[n + D], Pow(u, n), Pow(u, D));
    Abs2OfMul(r[n + D], Pow(u, n + D));
  }

  lemma {:induction false} ScaledWindow(x: seq<C>, y: seq<C>, a: C, d: nat, n: nat)
    requires d + n <= |x| == |y| && forall k :: d <= k < d + n ==> y[k] == Mul(a, x[k])
    ensures WindowSum(y, d, n) == Mul(a, WindowSum(x, d, n))
  {
    hide Mul, Add;
    if n == 0 {
      MulZero(a);
    } else {
      ScaledWindow(x, y, a, d, n - 1);
      MulOverAdd(a, WindowSum(x, d, n - 1), x[d + n - 1]);
    }
  }

  lemma MulZero(a: C)
    ensures Mul(a, ZERO) == ZERO
  {
  }

  /** A frequency offset turns P by D samples' worth of phase and changes neither |P|, nor R, nor M. */
  lemma OffsetInsensitive(r: seq<C>, u: C, D: nat, d: nat)
    requires Abs2(u) == 1.0 && D >= 1 && |r| >= 2 * D + 1 && d <= |r| - 2 * D
    ensures var a, b := Compute(r, D), Compute(Rotated(r, u), D);
            b.p[d] == Mul(Pow(u, D), a.p[d]) && Abs2(b.p[d]) == Abs2(a.p[d]) && b.m[d] == a.m[d]
  {
    hide Mul, Abs2, Pow, Compute, WindowSum, Products, Energies, Rotated, Normalised;
    var r', n := Rotated(r, u), |r| - D;
    MetricIsDirect(r, D, d);
    MetricIsDirect(r', D, d);
    forall k: nat | k < n
      ensures Products(r', D)[k] == Mul(Pow(u, D), Products(r, D)[k]) && Energies(r', D)[k] == Energies(r, D)[k]
    {
      RotatedProducts(r, u, D, k);
    }
    assert Energies(r', D) == Energies(r, D);
    ScaledWindow(Products(r, D), Products(r', D), Pow(u, D), d, D);
    PowOnCircle(u, D);
    Abs2OfMul(Pow(u, D), WindowSum(Products(r, D), d, D));
  }

  // ---- the preamble ----------------------------------------------------------------------

  /** The D samples from d on repeat, turned by the constant rho. */
  ghost predicate Repeats(r: seq<C>, D: nat, d: nat, rho: C) {
    d + 2 * D <= |r| && forall n :: d <= n < d + D ==> r[n + D] == Mul(rho, r[n])
  }

  /** A sample's conjugate times the sample turned by rho. */
  lemma ProductWithTurned(rho: C, a: C)
    ensures Mul(Conj(a), Mul(rho, a)) == Mul(rho, C(Abs2(a), 0.0))
  {
    hide Mul, Abs2, Conj;
    MulCommutes(rho, a);
    MulAssociates(Conj(a), a, rho);
    assert Mul(Conj(a), Mul(rho, a)) == Mul(Mul(Conj(a), a), rho);
    ConjTimesSelf(a);
    MulCommutes(C(Abs2(a), 0.0), rho);
  }

  lemma ProductsAt(r: seq<C>, D: nat, n: nat)
    requires n + D < |r|
    ensures Products(r, D)[n] == Mul(Conj(r[n]), r[n + D])
    ensures Energies(r, D)[n] == C(Abs2(r[n + D]), 0.0)
  {
    hide Mul, Abs2, Conj;
  }

  lemma OneTimes(x: real, y: real, z: real)
    requires x == 1.0 && z == x * y
    ensures z == y
  {
  }

  lemma UnitTurnKeepsAbs2(rho: C, a: C)
    requires Abs2(rho) == 1.0
    ensures Abs2(Mul(rho, a)) == Abs2(a)
  {
    hide Mul, Abs2;
    Abs2OfMul(rho, a);
    OneTimes(Abs2(rho), Abs2(a), Abs2(Mul(rho, a)));
  }

  lemma RepeatedProducts(r: seq<C>, D: nat, rho: C, n: nat)
    requires n + D < |r| && r[n + D] == Mul(rho, r[n]) && Abs2(rho) == 1.0
    ensures Products(r, D)[n] == Mul(rho, Energies(r, D)[n])
  {
    hide Mul, Abs2, Conj, Products, Energies;
    ProductsAt(r, D, n);
    UnitTurnKeepsAbs2(rho, r[n]);
    ProductWithTurned(rho, r[n]);
  }

  /** On a preamble of two halves equal up to a phase, P is R turned by that phase: |P| = R and the
      metric is R^2 / (R^2 + 1e-12). */
  lemma PeakOnRepeatedHalves(r: seq<C>, D: nat, d: nat, rho: C)
    requires D >= 1 && |r| >= 2 * D + 1 && d <= |r| - 2 * D
    requires Abs2(rho) == 1.0 && Repeats(r, D, d, rho)
    ensures var out := Compute(r, D);
            var R := WindowSum(Energies(r, D), d, D).re;
            out.p[d] == Mul(rho, C(R, 0.0)) && Abs2(out.p[d]) == R * R && out.m[d] == Normalised(R * R, R)
  {
    hide Mul, Abs2, Compute, Products, Energies, Normalised;
    MetricIsDirect(r, D, d);
    forall n: nat | d <= n < d + D ensures Products(r, D)[n] == Mul(rho, Energies(r, D)[n]) {
      RepeatedProducts(r, D, rho, n);
    }
    ScaledWindow(Energies(r, D), Products(r, D), rho, d, D);
    var E := WindowSum(Energies(r, D), d, D);
    RealWindow(r, D, d, D);
    Abs2OfMul(rho, E);
    AbsOfReal(E.re);
  }

  lemma {:induction false} RealWindow(r: seq<C>, D: nat, d: nat, n: nat)
    requires D <= |r| && d + n <= |r| - D
    ensures WindowSum(Energies(r, D), d, n).im == 0.0 && WindowSum(Energies(r, D), d, n).re >= 0.0
  {
    hide Abs2;
    if n > 0 {
      RealWindow(r, D, d, n - 1);
      Abs2NonNegative(r[d + n - 1 + D]);
    }
  }

  lemma AbsOfReal(x: real)
    ensures Abs2(C(x, 0.0)) == x * x
  {
  }

  lemma Abs2NonNegative(a: C)
    ensures Abs2(a) >= 0.0
  {
    SquareNonNegative(a.re);
    SquareNonNegative(a.im);
  }

  lemma SquareNonNegative(x: real)
    ensures x * x >= 0.0
  {
    if x < 0.0 { assert (-x) * (-x) == x * x; }
  }

  // ---- an upper bound everywhere -----------------------------------------------------------

  /** Energy of the earlier half of the window at d. */
  function FirstHalf(r: seq<C>, d: nat, n: nat): (e: real)
    requires d + n <= |r|
  {
    if n == 0 then 0.0 else FirstHalf(r, d, n - 1) + Abs2(r[d + n - 1])
  }

  /** Twice a number is at most the sum of two whose product bounds its square. */
  lemma GeometricBelowArithmetic(z: real, x: real, y: real)
    requires x >= 0.0 && y >= 0.0 && z * z <= x * y
    ensures 2.0 * z <= x + y
  {
    var s := x + y;
    assert s * s >= 4.0 * (x * y) by {
      Expand2(x, y);
      SquareNonNegative(x - y);
      Expand(x, y);
    }
    assert (2.0 * z) * (2.0 * z) == 4.0 * (z * z);
    if 2.0 * z > s { MulOrder(s, 2.0 * z); }
  }

  lemma MulOrder(s: real, t: real)
    requires 0.0 <= s < t
    ensures s * s < t * t
  {
    MulOrderBy(s, t - s);
    assert s + (t - s) == t;
  }

  lemma MulOrderBy(s: real, d: real)
    requires s >= 0.0 && d > 0.0
    ensures s * s < (s + d) * (s + d)
  {
    Expand2(s, d);
    ProductOrder(0.0, s, d);
    PositiveProduct(d, d);
  }

  lemma PositiveProduct(x: real, y: real)
    requires x > 0.0 && y > 0.0
    ensures x * y > 0.0
  {
  }

  lemma Abs2OfSum(p: C, t: C)
    ensures Abs2(Add(p, t)) == Abs2(p) + Abs2(t) + 2.0 * Mul(p, Conj(t)).re
  {
    Expand2(p.re, t.re);
    Expand2(p.im, t.im);
  }

  lemma RealPartBelowAbs(z: C)
    ensures z.re * z.re <= Abs2(z)
  {
    SquareNonNegative(z.im);
  }

  lemma ProductOrder(a: real, b: real, c: real)
    requires a <= b && c >= 0.0
    ensures a * c <= b * c
  {
    assert (b - a) * c >= 0.0;
  }

  ghost predicate BoundedBy(p: C, e: real, f: real) { Abs2(p) <= e * f }

  lemma CauchyStep(p: C, t: C, e: real, f: real, x: real, y: real)
    requires BoundedBy(p, e, f) && Abs2(t) == x * y && e >= 0.0 && f >= 0.0 && x >= 0.0 && y >= 0.0
    ensures BoundedBy(Add(p, t), e + x, f + y)
  {
    var z := Mul(p, Conj(t));
    assert Abs2(z) == Abs2(p) * (x * y) && z.re * z.re <= Abs2(z) by {
      Abs2OfMul(p, Conj(t));
      RealPartBelowAbs(z);
      hide Mul;
    }
    hide Mul, Abs2, Conj;
    ProductOrder(0.0, x, y);
    ProductOrder(Abs2(p), e * f, x * y);
    assert (e * f) * (x * y) == (e * y) * (f * x) by { Shuffle3(e, f, x, y); }
    ProductOrder(0.0, e, y);
    ProductOrder(0.0, f, x);
    GeometricBelowArithmetic(z.re, e * y, f * x);
    Abs2OfSum(p, t);
    assert (e + x) * (f + y) == e * f + e * y + (f * x + x * y) by {
      Distribute(e + x, f, y);
      Distribute(f, e, x);
      Distribute(y, e, x);
    }
  }

  lemma Shuffle3(e: real, f: real, x: real, y: real)
    ensures (e * f) * (x * y) == (e * y) * (f * x)
  {
  }

  lemma {:induction false} CauchySchwarz(r: seq<C>, D: nat, d: nat, n: nat)
    requires D <= |r| && d + n + D <= |r|
    ensures FirstHalf(r, d, n) >= 0.0
    ensures BoundedBy(WindowSum(Products(r, D), d, n), FirstHalf(r, d, n), WindowSum(Energies(r, D), d, n).re)
  {
    hide Mul, Abs2, Conj, BoundedBy;
    if n == 0 {
      NothingBounded();
    } else {
      var k := d + n - 1;
      CauchySchwarz(r, D, d, n - 1);
      RealWindow(r, D, d, n - 1);
      Abs2OfMul(Conj(r[k]), r[k + D]);
      ConjKeepsAbs2(r[k]);
      Abs2NonNegative(r[k]);
      Abs2NonNegative(r[k + D]);
      CauchyStep(WindowSum(Products(r, D), d, n - 1), Products(r, D)[k], FirstHalf(r, d, n - 1),
                 WindowSum(Energies(r, D), d, n - 1).re, Abs2(r[k]), Abs2(r[k + D]));
    }
  }

  lemma NothingBounded()
    ensures BoundedBy(ZERO, 0.0, 0.0)
  {
  }

  lemma ConjKeepsAbs2(a: C)
    ensures Abs2(Conj(a)) == Abs2(a)
  {
  }

  lemma RatioBelowOne(x: real, R: real)
    ensures Normalised(x, R) < 1.0 <==> x < R * R + FLOOR
  {
    SquareNonNegative(R);
    var y := R * R + FLOOR;
    assert Normalised(x, R) == x / y;
    QuotientBelowOne(x, y);
  }

  lemma QuotientBelowOne(x: real, y: real)
    requires y > 0.0
    ensures x / y < 1.0 <==> x < y
  {
    assert (x / y) * y == x;
    if x / y < 1.0 { Strictly(x / y, 1.0, y); } else { ProductOrder(1.0, x / y, y); }
  }

  lemma Strictly(a: real, b: real, c: real)
    requires a < b && c > 0.0
    ensures a * c < b * c
  {
    PositiveProduct(b - a, c);
    assert (b - a) * c == b * c - a * c;
  }

  /** Everywhere |P|^2 is at most the product of the two half-window energies, so the metric stays below 1 wherever
      that product stays below R^2 + 1e-12, in particular where the earlier half is no stronger than the later one. */
  lemma MetricBelowOne(r: seq<C>, D: nat, d: nat)
    requires D >= 1 && |r| >= 2 * D + 1 && d <= |r| - 2 * D
    ensures var out := Compute(r, D);
            var F, R := FirstHalf(r, d, D), WindowSum(Energies(r, D), d, D).re;
            && Abs2(out.p[d]) <= F * R
            && (F * R < R * R + FLOOR ==> out.m[d] < 1.0)
            && (F <= R ==> F * R < R * R + FLOOR)
  {
    hide Mul, Abs2, Compute, Products, Energies, WindowSum, FirstHalf, Normalised;
    MetricIsDirect(r, D, d);
    CauchySchwarz(r, D, d, D);
    RealWindow(r, D, d, D);
    var F, R := FirstHalf(r, d, D), WindowSum(Energies(r, D), d, D).re;
    RatioBelowOne(Abs2(WindowSum(Products(r, D), d, D)), R);
    if F <= R { ProductOrder(F, R, R); }
  }

  // ---- the bound is attained -----------------------------------------------------------------

  lemma ProportionalStep(r: seq<C>, D: nat, rho: C, n: nat)
    requires n + D < |r| && r[n + D] == Mul(rho, r[n])
    ensures Products(r, D)[n] == Mul(rho, C(Abs2(r[n]), 0.0))
    ensures Energies(r, D)[n] == C(Abs2(rho) * Abs2(r[n]), 0.0)
  {
    hide Mul, Abs2, Conj, Products, Energies;
    ProductsAt(r, D, n);
    Abs2OfMul(rho, r[n]);
    ProductWithTurned(rho, r[n]);
  }

  lemma MulOfSum(rho: C, x: real, y: real)
    ensures Mul(rho, C(x + y, 0.0)) == Add(Mul(rho, C(x, 0.0)), Mul(rho, C(y, 0.0)))
  {
    MulReal(rho, x);
    MulReal(rho, y);
    MulReal(rho, x + y);
    Distribute(rho.re, x, y);
    Distribute(rho.im, x, y);
  }

  lemma {:induction false} ProportionalWindow(r: seq<C>, D: nat, d: nat, rho: C, n: nat)
    requires D <= |r| && d + n + D <= |r| && forall k :: d <= k < d + n ==> r[k + D] == Mul(rho, r[k])
    ensures WindowSum(Products(r, D), d, n) == Mul(rho, C(FirstHalf(r, d, n), 0.0))
    ensures WindowSum(Energies(r, D), d, n).re == Abs2(rho) * FirstHalf(r, d, n)
  {
    hide Mul, Abs2, Products, Energies;
    if n == 0 {
      MulZero(rho);
      TimesNothing(Abs2(rho));
    } else {
      var k := d + n - 1;
      ProportionalWindow(r, D, d, rho, n - 1);
      ProportionalStep(r, D, rho, k);
      MulOfSum(rho, FirstHalf(r, d, n - 1), Abs2(r[k]));
      Distribute(Abs2(rho), FirstHalf(r, d, n - 1), Abs2(r[k]));
    }
  }

  lemma TimesNothing(x: real)
    ensures x * 0.0 == 0.0
  {
  }

  /** On halves that are proportional, by any complex factor, |P|^2 equals the product of the energies, so the
      condition for a metric below 1 is exact. */
  lemma ProportionalHalvesAttain(r: seq<C>, D: nat, d: nat, rho: C)
    requires D >= 1 && |r| >= 2 * D + 1 && d <= |r| - 2 * D && Repeats(r, D, d, rho)
    ensures var out := Compute(r, D);
            var F, R := FirstHalf(r, d, D), WindowSum(Energies(r, D), d, D).re;
            Abs2(out.p[d]) == F * R && (out.m[d] < 1.0 <==> F * R < R * R + FLOOR)
  {
    hide Mul, Abs2, Compute, Products, Energies, WindowSum, FirstHalf, Normalised;
    var F, R := FirstHalf(r, d, D), WindowSum(Energies(r, D), d, D).re;
    MetricIsDirect(r, D, d);
    ProportionalWindow(r, D, d, rho, D);
    Abs2OfMul(rho, C(F, 0.0));
    AbsOfReal(F);
    Regroup(Abs2(rho), F);
    RatioBelowOne(Abs2(WindowSum(Products(r, D), d, D)), R);
  }

  lemma Regroup(a: real, f: real)
    ensures a * (f * f) == f * (a * f)
  {
  }

  /** A stronger earlier half takes the metric above 1: R only measures the later one. */
  lemma MetricCanExceedOne()
    ensures exists r: seq<C> :: |r| == 3 && |Compute(r, 1).m| == 2 && Compute(r, 1).m[0] > 1.0
  {
    hide Compute, Normalised, WindowSum, Products, Energies, Abs2;
    var r := [C(2.0, 0.0), UNIT, ZERO];
    MetricIsDirect(r, 1, 0);
    OneSample(Products(r, 1), 0);
    OneSample(Energies(r, 1), 0);
    UnequalPair(r);
    FourOverOne();
    assert Compute(r, 1).m[0] > 1.0;
  }

  lemma OneSample(x: seq<C>, d: nat)
    requires d < |x|
    ensures WindowSum(x, d, 1) == x[d]
  {
    assert WindowSum(x, d, 0) == ZERO;
  }

  lemma UnequalPair(r: seq<C>)
    requires r == [C(2.0, 0.0), UNIT, ZERO]
    ensures Products(r, 1)[0] == C(2.0, 0.0) && Energies(r, 1)[0] == UNIT
  {
    hide Mul, Abs2;
    MulReal(C(2.0, 0.0), 1.0);
    AbsOfUnit();
    assert Conj(r[0]) == C(2.0, 0.0) && r[0 + 1] == UNIT;
  }

  lemma FourOverOne()
    ensures Abs2(C(2.0, 0.0)) == 4.0 && Normalised(4.0, 1.0) > 1.0
  {
    assert 1.0 * 1.0 + FLOOR < 4.0;
  }
}
