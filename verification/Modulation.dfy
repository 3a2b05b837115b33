/** gr_autopilot/modulation.py on the integer grid: Gray square QAM, nearest-point decisions and
    max-log bit ratios. The source's common scale to unit energy moves no decision. */
module Modulation {
  import opened Basics
  import opened Trellis
  import opened SoftDecoder
  import Gray

  datatype Point = Point(i: real, q: real)

  function Square(x: real): real { x * x }

  function Dist(y: Point, p: Point): real { Square(y.i - p.i) + Square(y.q - p.q) }

  // ---- the constellation -------------------------------------------------------------

  /** Amplitude of the axis label g among 2^k levels: -(m-1) .. m-1 in steps of 2. */
  function Amplitude(k: nat, g: nat): int { 2 * Gray.Level(g) - (Gray.Pow2(k) - 1) }

  /** The high half of the index labels the I axis, the low half the Q axis. */
  function QamPoint(k: nat, idx: nat): Point {
    Point(Amplitude(k, Gray.High(idx, k)) as real, Amplitude(k, Gray.Low(idx, k)) as real)
  }

  method GrayPam(k: nat) returns (out: array<int>)
    ensures fresh(out) && out.Length == Gray.Pow2(k)
    ensures forall g :: 0 <= g < out.Length ==> out[g] == Amplitude(k, g)
  {
    hide Gray.Level, Gray.Code;
    var m := Gray.Pow2(k);
    out := new int[m](j => 0);
    for i := 0 to m
      invariant forall g :: 0 <= g < m && Gray.Level(g) < i ==> out[g] == Amplitude(k, g)
    {
      Gray.CodeInRange(i, k);
      forall g: nat | g < m ensures Gray.Code(i) == g <==> i == Gray.Level(g) {
        Gray.CodeIsABijection(i, g, k);
      }
      out[Gray.Code(i)] := 2 * i - (m - 1);
    }
    forall g: nat | g < m ensures Gray.Level(g) < m { Gray.LevelInRange(g, k); }
  }

  function QamPoints(k: nat): (pts: seq<Point>)
    ensures |pts| == Gray.Pow2(2 * k)
  {
    seq(Gray.Pow2(2 * k), idx requires 0 <= idx => QamPoint(k, idx))
  }

  /** The source's table lookup needs both halves to have the same width. */
  method SquareQam(bitsPerSymbol: nat) returns (pts: seq<Point>)
    requires bitsPerSymbol % 2 == 0
    ensures pts == QamPoints(bitsPerSymbol / 2)
  {
    hide Gray.Level, Gray.High, Gray.Low;
    var half := bitsPerSymbol / 2;
    var pam := GrayPam(half);
    pts := [];
    for idx := 0 to Gray.Pow2(bitsPerSymbol)
      invariant forall g :: 0 <= g < pam.Length ==> pam[g] == Amplitude(half, g)
      invariant |pts| == idx && forall j :: 0 <= j < idx ==> pts[j] == QamPoint(half, j)
    {
      Gray.HalvesInRange(idx, half, half);
      var hi, lo := Gray.High(idx, half), Gray.Low(idx, half);
      pts := pts + [Point(pam[hi] as real, pam[lo] as real)];
    }
  }

  /** The label of row i and column j: their Gray codes side by side, that of the I axis in front. */
  function PlaceLabel(k: nat, i: nat, j: nat): nat { Gray.Joined(k, Gray.Code(i), Gray.Code(j)) }

  /** Row i and column j of the grid, counted from its least corner in steps of 2. */
  function PlacePoint(k: nat, i: nat, j: nat): Point {
    Point((2 * i - (Gray.Pow2(k) - 1)) as real, (2 * j - (Gray.Pow2(k) - 1)) as real)
  }

  /** Every point of the grid is in the table, under the Gray label of its place. */
  lemma QamPlace(k: nat, i: nat, j: nat)
    requires i < Gray.Pow2(k) && j < Gray.Pow2(k)
    ensures PlaceLabel(k, i, j) < |QamPoints(k)|
    ensures QamPoints(k)[PlaceLabel(k, i, j)] == PlacePoint(k, i, j)
  {
    hide Gray.Level, Gray.Code, Gray.High, Gray.Low, Gray.Pow2, Gray.Joined;
    Gray.CodeInRange(i, k);
    Gray.CodeInRange(j, k);
    Gray.JoinedInRange(k, Gray.Code(i), Gray.Code(j));
    Gray.HalvesOfJoined(k, Gray.Code(i), Gray.Code(j));
    Gray.LevelOfCode(i);
    Gray.LevelOfCode(j);
  }

  /** Nearest neighbours of the grid: equal on one axis, 2 apart on the other. */
  predicate OneStep(p: Point, r: Point) {
    (p.i == r.i && Abs(p.q - r.q) == 2.0) || (p.q == r.q && Abs(p.i - r.i) == 2.0)
  }

  lemma AmplitudeSteps(k: nat, g: nat, h: nat)
    ensures Amplitude(k, g) as real == Amplitude(k, h) as real ==> Gray.Level(g) == Gray.Level(h)
    ensures Abs(Amplitude(k, g) as real - Amplitude(k, h) as real) == 2.0 ==>
              Gray.Level(g) == Gray.Level(h) + 1 || Gray.Level(h) == Gray.Level(g) + 1
  {
    hide Gray.Level, Gray.Pow2;
    assert Amplitude(k, g) as real - Amplitude(k, h) as real == (Amplitude(k, g) - Amplitude(k, h)) as real;
  }

  lemma {:induction false} HammingSymmetric(a: nat, b: nat)
    ensures Gray.Hamming(a, b) == Gray.Hamming(b, a)
  {
    if a > 0 || b > 0 { HammingSymmetric(a / 2, b / 2); }
  }

  lemma AxisLabels(g: nat, h: nat)
    ensures Gray.Level(g) == Gray.Level(h) ==> Gray.Hamming(g, h) == 0
    ensures Gray.Level(g) == Gray.Level(h) + 1 || Gray.Level(h) == Gray.Level(g) + 1 ==> Gray.Hamming(g, h) == 1
  {
    hide Gray.Level, Gray.Hamming, Gray.Code;
    Gray.CodeOfLevel(g);
    Gray.CodeOfLevel(h);
    Gray.HammingSame(g);
    HammingSymmetric(g, h);
    Gray.NeighboursDifferInOneBit(Gray.Level(g));
    Gray.NeighboursDifferInOneBit(Gray.Level(h));
  }

  /** Points of a square QAM that are nearest neighbours carry labels that differ in exactly one bit. */
  lemma GridNeighboursDifferInOneBit(k: nat, a: nat, b: nat)
    requires a < |QamPoints(k)| && b < |QamPoints(k)| && OneStep(QamPoints(k)[a], QamPoints(k)[b])
    ensures Gray.Hamming(a, b) == 1
  {
    hide Gray.Level, Gray.Hamming, Gray.High, Gray.Low, Amplitude, Abs, Gray.Pow2;
    Gray.HammingSplits(a, b, k);
    AmplitudeSteps(k, Gray.High(a, k), Gray.High(b, k));
    AmplitudeSteps(k, Gray.Low(a, k), Gray.Low(b, k));
    AxisLabels(Gray.High(a, k), Gray.High(b, k));
    AxisLabels(Gray.Low(a, k), Gray.Low(b, k));
  }

  // ---- hard decisions ------------------------------------------------------------------

  /** The index the search keeps after looking at the first n points: the first of the nearest. */
  function NearestAmong(points: seq<Point>, y: Point, n: nat): (best: nat)
    requires 0 < n <= |points|
    ensures best < n
  {
    if n == 1 then 0 else
      var best := NearestAmong(points, y, n - 1);
      if Dist(y, points[n - 1]) < Dist(y, points[best]) then n - 1 else best
  }

  function Nearest(points: seq<Point>, y: Point): (best: nat)
    requires points != []
    ensures best < |points|
  {
    NearestAmong(points, y, |points|)
  }

  lemma {:induction false} NearestIsFirstMinimum(points: seq<Point>, y: Point, n: nat, j: nat)
    requires j < n <= |points|
    ensures var best := NearestAmong(points, y, n);
            Dist(y, points[best]) <= Dist(y, points[j])
            && (j < best ==> Dist(y, points[best]) < Dist(y, points[j]))
  {
    hide Dist;
    if n > 1 {
      if j < n - 1 { NearestIsFirstMinimum(points, y, n - 1, j); }
      NearestIsFirstMinimum(points, y, n - 1, NearestAmong(points, y, n - 1));
    }
  }

  datatype Least = Empty | Least(d: real)

  /** Less than half a step of noise on each axis. */
  predicate InsideCell(y: Point, p: Point) {
    -1.0 < y.i - p.i < 1.0 && -1.0 < y.q - p.q < 1.0
  }

  lemma AxisMargin(y: real, u: real, v: real)
    requires -1.0 < y - u < 1.0 && (v - u >= 2.0 || u - v >= 2.0)
    ensures Square(y - v) > Square(y - u)
  {
    var e, d := y - u, v - u;
    assert Square(y - v) == Square(e) - 2.0 * e * d + Square(d);
    if d >= 2.0 {
      assert d * (d - 2.0 * e) > 0.0;
    } else {
      assert (-d) * (-d + 2.0 * e) > 0.0;
    }
  }

  /** On each axis the two points agree or are at least a step apart, and they differ somewhere. */
  predicate Spaced(p: Point, r: Point) { p != r && Apart(p.i, r.i) && Apart(p.q, r.q) }

  predicate Apart(u: real, v: real) { u == v || v - u >= 2.0 || u - v >= 2.0 }

  /** A table on the grid: any two of its points are spaced. */
  ghost predicate Separated(points: seq<Point>) {
    forall a, b :: 0 <= a < |points| && 0 <= b < |points| && a != b ==> Spaced(points[a], points[b])
  }

  lemma OtherIsFarther(y: Point, p: Point, r: Point)
    requires InsideCell(y, p) && Spaced(p, r)
    ensures Dist(y, p) < Dist(y, r)
  {
    hide Square;
    if p.i != r.i { AxisMargin(y.i, p.i, r.i); }
    if p.q != r.q { AxisMargin(y.q, p.q, r.q); }
  }

  /** On any such table, within half a step per axis the nearest-point search inverts the mapping. */
  lemma DecisionInside(points: seq<Point>, idx: nat, y: Point)
    requires Separated(points) && idx < |points| && InsideCell(y, points[idx])
    ensures Nearest(points, y) == idx
  {
    hide Dist, InsideCell, Spaced;
    var best := Nearest(points, y);
    if best != idx {
      NearestIsFirstMinimum(points, y, |points|, idx);
      OtherIsFarther(y, points[idx], points[best]);
      assert false;
    }
  }

  // ---- the tables -----------------------------------------------------------------------

  lemma LevelsApart(k: nat, g: nat, h: nat)
    ensures Apart(Amplitude(k, g) as real, Amplitude(k, h) as real)
    ensures Amplitude(k, g) == Amplitude(k, h) ==> g == h
  {
    if Gray.Level(g) == Gray.Level(h) {
      Gray.CodeOfLevel(g);
      Gray.CodeOfLevel(h);
    }
    hide Gray.Level;
  }

  lemma QamIsSeparated(k: nat)
    ensures Separated(QamPoints(k))
  {
    hide Amplitude, Gray.High, Gray.Low, Apart, Gray.Pow2;
    forall a: nat, b: nat | a < Gray.Pow2(2 * k) && b < Gray.Pow2(2 * k) && a != b
      ensures Spaced(QamPoint(k, a), QamPoint(k, b))
    {
      LevelsApart(k, Gray.High(a, k), Gray.High(b, k));
      LevelsApart(k, Gray.Low(a, k), Gray.Low(b, k));
      if QamPoint(k, a) == QamPoint(k, b) { Gray.HalvesDetermine(a, b, k); }
    }
  }

  /** The table of BPSK, on the I axis. */
  const BPSK: seq<Point> := [Point(-1.0, 0.0), Point(1.0, 0.0)]

  /** The table of QPSK: a bit of 0 is the positive side of its axis. */
  function QpskPoint(b0: Bit, b1: Bit): Point { Point((1 - 2 * b0) as real, (1 - 2 * b1) as real) }

  const QPSK: seq<Point> := [QpskPoint(0, 0), QpskPoint(0, 1), QpskPoint(1, 0), QpskPoint(1, 1)]

  /** The first quadrant of the 32-QAM cross, by the three low bits. */
  const QUADRANT: seq<(int, int)> := [(1, 1), (1, 3), (3, 1), (1, 5), (5, 3), (5, 1), (3, 3), (3, 5)]

  /** The quadrant's signs, by the two high bits. */
  const SIGNS: seq<(int, int)> := [(1, 1), (-1, 1), (1, -1), (-1, -1)]

  function CrossPlace(q: nat, l: nat): (int, int)
    requires q < 4 && l < 8
  {
    (SIGNS[q].0 * QUADRANT[l].0, SIGNS[q].1 * QUADRANT[l].1)
  }

  function CrossPoint(idx: nat): Point
    requires idx < 32
  {
    var (i, q) := CrossPlace(idx / 8, idx % 8);
    Point(i as real, q as real)
  }

  const QAM32: seq<Point> := seq(32, idx requires 0 <= idx < 32 => CrossPoint(idx))

  lemma SmallTablesAreSeparated()
    ensures Separated(BPSK) && Separated(QPSK)
  {
  }

  /** The cross has all its points at odd coordinates, and no two in the same place. */
  lemma CrossIsSeparated()
    ensures Separated(QAM32)
  {
    forall a: nat, b: nat | a < 32 && b < 32 && a != b ensures Spaced(CrossPoint(a), CrossPoint(b)) {
      assert a == 8 * (a / 8) + a % 8 && b == 8 * (b / 8) + b % 8;
      SignedQuadrants(a / 8, a % 8, b / 8, b % 8);
    }
  }

  lemma SignedQuadrants(q: nat, l: nat, r: nat, m: nat)
    requires q < 4 && r < 4 && l < 8 && m < 8 && (q != r || l != m)
    ensures var a, b := CrossPlace(q, l), CrossPlace(r, m);
            a != b && OddApart(a.0, b.0) && OddApart(a.1, b.1)
  {
  }

  /** Nearest neighbours on the grid. */
  predicate NextTo(p: (int, int), r: (int, int)) {
    (p.0 == r.0 && Two(p.1, r.1)) || (p.1 == r.1 && Two(p.0, r.0))
  }

  predicate Two(u: int, v: int) { u - v == 2 || v - u == 2 }

  /** The two pairs of neighbours in a quadrant whose labels are three bits apart. */
  predicate Unlike(l: nat, m: nat) { l + m == 7 && 1 <= l <= 6 && l != 3 && l != 4 }

  /** Equal but for one of three bits. */
  predicate OneBitApart(l: nat, m: nat) {
    l != m && (l / 2 == m / 2 || (l / 4 == m / 4 && l % 2 == m % 2) || l % 4 == m % 4)
  }

  lemma QuadrantEdges(l: nat, m: nat)
    requires l < 8 && m < 8 && NextTo(QUADRANT[l], QUADRANT[m])
    ensures if Unlike(l, m) then l != m else OneBitApart(l, m)
  {
  }

  lemma FarLabels()
    ensures Gray.Hamming(1, 6) == Gray.Hamming(6, 1) == Gray.Hamming(2, 5) == Gray.Hamming(5, 2) == 3
    ensures Gray.Hamming(0, 1) == Gray.Hamming(1, 0) == 1
  {
  }

  lemma NearLabels(l: nat, m: nat)
    requires l < 8 && m < 8 && OneBitApart(l, m)
    ensures Gray.Hamming(l, m) == 1
  {
    FarLabels();
    Gray.HammingStep(l, m);
    Gray.HammingStep(l / 2, m / 2);
    Gray.HammingSame(l / 2);
    Gray.HammingSame(l / 4);
    hide Gray.Hamming;
    if l % 4 == m % 4 { assert l == 4 * (l / 4) + l % 4 && m == 4 * (m / 4) + l % 4; }
  }

  lemma LabelsApart(l: nat, m: nat)
    requires l < 8 && m < 8
    ensures Unlike(l, m) ==> Gray.Hamming(l, m) == 3
    ensures OneBitApart(l, m) ==> Gray.Hamming(l, m) == 1
  {
    hide Gray.Hamming, OneBitApart;
    FarLabels();
    if OneBitApart(l, m) { NearLabels(l, m); }
  }

  lemma QuadrantNeighbours(l: nat, m: nat)
    requires l < 8 && m < 8 && NextTo(QUADRANT[l], QUADRANT[m])
    ensures Gray.Hamming(l, m) == if Unlike(l, m) then 3 else 1
  {
    hide *;
    QuadrantEdges(l, m);
    LabelsApart(l, m);
  }

  /** Neighbours in different quadrants are mirror images. */
  lemma MirrorEdges(q: nat, l: nat, r: nat, m: nat)
    requires q < 4 && r < 4 && l < 8 && m < 8 && q != r && NextTo(CrossPlace(q, l), CrossPlace(r, m))
    ensures l == m && OneBitApart(q, r)
  {
  }

  lemma SameQuadrant(q: nat, l: nat, m: nat)
    requires q < 4 && l < 8 && m < 8 && NextTo(CrossPlace(q, l), CrossPlace(q, m))
    ensures NextTo(QUADRANT[l], QUADRANT[m])
  {
  }

  /** In the 32-QAM cross nearest neighbours differ in one bit, except for two pairs in every quadrant that differ
      in three. */
  lemma CrossNeighbours(q: nat, l: nat, r: nat, m: nat)
    requires q < 4 && r < 4 && l < 8 && m < 8 && NextTo(CrossPlace(q, l), CrossPlace(r, m))
    ensures Gray.Hamming(8 * q + l, 8 * r + m) == if q == r && Unlike(l, m) then 3 else 1
  {
    hide Gray.Hamming, Gray.High, Gray.Low, CrossPlace, NextTo, Xor, Unlike, OneBitApart;
    HighAndLow(q, l);
    HighAndLow(r, m);
    Gray.HammingSplits(8 * q + l, 8 * r + m, 3);
    Gray.HammingSame(q);
    Gray.HammingSame(l);
    if q == r {
      SameQuadrant(q, l, m);
      QuadrantNeighbours(l, m);
    } else {
      MirrorEdges(q, l, r, m);
      LabelsApart(q, r);
    }
  }

  lemma HighAndLow(q: nat, l: nat)
    requires l < 8
    ensures Gray.High(8 * q + l, 3) == q && Gray.Low(8 * q + l, 3) == l
  {
    var x := 8 * q + l;
    assert x / 2 == 4 * q + l / 2 && x % 2 == l % 2;
    assert x / 2 / 2 == 2 * q + l / 2 / 2 && x / 2 % 2 == l / 2 % 2;
    assert x / 2 / 2 / 2 == q && x / 2 / 2 % 2 == l / 2 / 2;
    assert Gray.Low(x / 2 / 2, 1) == x / 2 / 2 % 2 && Gray.High(x / 2 / 2, 1) == x / 2 / 2 / 2;
    assert Gray.Low(x / 2, 2) == 2 * Gray.Low(x / 2 / 2, 1) + x / 2 % 2;
    assert Gray.High(x / 2, 2) == Gray.High(x / 2 / 2, 1);
  }

  predicate OddApart(u: int, v: int) { u == v || v - u >= 2 || u - v >= 2 }

  /** QPSK neighbours, which agree on one axis, differ in one bit; the two BPSK points do so anyway. */
  lemma PskNeighboursDifferInOneBit(a: nat, b: nat)
    requires a < 4 && b < 4 && a != b && (QPSK[a].i == QPSK[b].i || QPSK[a].q == QPSK[b].q)
    ensures Gray.Hamming(a, b) == 1
    ensures Gray.Hamming(0, 1) == Gray.Hamming(1, 0) == 1
  {
    Gray.HammingStep(a, b);
    Gray.HammingStep(a / 2, b / 2);
    assert Gray.Hamming(0, 0) == 0;
  }

  // ---- bit ratios ------------------------------------------------------------------------

  /** The least squared distance to a point among the first n whose bit j is c. */
  function LeastWith(points: seq<Point>, y: Point, bps: nat, j: nat, c: Bit, n: nat): Least
    requires n <= |points| && j < bps
  {
    if n == 0 then Empty else
      var rest := LeastWith(points, y, bps, j, c, n - 1);
      var d := Dist(y, points[n - 1]);
      if Gray.BitsOf(n - 1, bps)[j] == c && (rest.Empty? || d < rest.d) then Least(d) else rest
  }

  lemma {:induction false} LeastIsBelow(points: seq<Point>, y: Point, bps: nat, j: nat, c: Bit, n: nat, x: nat)
    requires x < n <= |points| && j < bps && Gray.BitsOf(x, bps)[j] == c
    ensures LeastWith(points, y, bps, j, c, n).Least?
    ensures LeastWith(points, y, bps, j, c, n).d <= Dist(y, points[x])
  {
    hide Dist, Gray.BitsOf;
    if x < n - 1 { LeastIsBelow(points, y, bps, j, c, n - 1, x); }
  }

  lemma {:induction false} LeastIsAttained(points: seq<Point>, y: Point, bps: nat, j: nat, c: Bit, n: nat)
    returns (x: nat)
    requires n <= |points| && j < bps && LeastWith(points, y, bps, j, c, n).Least?
    ensures x < n && Gray.BitsOf(x, bps)[j] == c && LeastWith(points, y, bps, j, c, n).d == Dist(y, points[x])
  {
    hide Dist, Gray.BitsOf;
    var rest := LeastWith(points, y, bps, j, c, n - 1);
    if Gray.BitsOf(n - 1, bps)[j] == c && (rest.Empty? || Dist(y, points[n - 1]) < rest.d) {
      x := n - 1;
    } else {
      x := LeastIsAttained(points, y, bps, j, c, n - 1);
    }
  }

  /** Every bit takes both values somewhere in a full table. */
  lemma BothValuesOccur(points: seq<Point>, y: Point, bps: nat, j: nat, c: Bit)
    requires |points| == Gray.Pow2(bps) && j < bps
    ensures LeastWith(points, y, bps, j, c, |points|).Least?
  {
    hide Gray.BitsOf, Gray.IndexOf, LeastWith;
    var all: seq<Bit> := seq(bps, i => c);
    Gray.IndexInRange(all);
    Gray.BitsOfIndex(all);
    LeastIsBelow(points, y, bps, j, c, |points|, Gray.IndexOf(all));
  }

  /** Max-log ratio of bit j: positive when a point with a 0 there is the closer one. */
  function Llr(points: seq<Point>, y: Point, bps: nat, j: nat): real
    requires |points| == Gray.Pow2(bps) && j < bps
  {
    BothValuesOccur(points, y, bps, j, 0);
    BothValuesOccur(points, y, bps, j, 1);
    LeastWith(points, y, bps, j, 1, |points|).d - LeastWith(points, y, bps, j, 0, |points|).d
  }

  method SoftBits(points: seq<Point>, bps: nat, syms: seq<Point>) returns (llr: array2<real>)
    requires |points| == Gray.Pow2(bps)
    ensures fresh(llr) && llr.Length0 == |syms| && llr.Length1 == bps
    ensures forall s, j :: 0 <= s < |syms| && 0 <= j < bps ==> llr[s, j] == Llr(points, syms[s], bps, j)
  {
    hide LeastWith, Gray.Pow2;
    llr := new real[|syms|, bps]((s, j) => 0.0);
    for j := 0 to bps
      invariant forall s, i :: 0 <= s < |syms| && 0 <= i < j ==> llr[s, i] == Llr(points, syms[s], bps, i)
    {
      forall s | 0 <= s < |syms| {
        llr[s, j] := Llr(points, syms[s], bps, j);
      }
    }
  }

  /** A ratio never contradicts the hard decision; only a tie between points can make it zero. */
  lemma LlrNeverContradicts(points: seq<Point>, y: Point, bps: nat, j: nat)
    requires |points| == Gray.Pow2(bps) && j < bps
    ensures var c := Gray.BitsOf(Nearest(points, y), bps)[j];
            (Llr(points, y, bps, j) > 0.0 ==> c == 0) && (Llr(points, y, bps, j) < 0.0 ==> c == 1)
  {
    hide Dist, Gray.BitsOf, LeastWith, Gray.Pow2;
    var h, n := Nearest(points, y), |points|;
    var c := Gray.BitsOf(h, bps)[j];
    BothValuesOccur(points, y, bps, j, 1 - c);
    LeastIsBelow(points, y, bps, j, c, n, h);
    var x := LeastIsAttained(points, y, bps, j, 1 - c, n);
    NearestIsFirstMinimum(points, y, n, x);
  }

  /** On any table on the grid every bit of a symbol inside its cell gets a ratio that strictly favours it. */
  lemma LlrInside(points: seq<Point>, bps: nat, idx: nat, y: Point, j: nat)
    requires Separated(points) && |points| == Gray.Pow2(bps) && idx < |points| && InsideCell(y, points[idx]) && j < bps
    ensures Favours(Llr(points, y, bps, j), Gray.BitsOf(idx, bps)[j])
  {
    hide Dist, Gray.BitsOf, LeastWith, InsideCell, Gray.Pow2, Spaced;
    var c := Gray.BitsOf(idx, bps)[j];
    BothValuesOccur(points, y, bps, j, 1 - c);
    LeastIsBelow(points, y, bps, j, c, |points|, idx);
    var x := LeastIsAttained(points, y, bps, j, 1 - c, |points|);
    OtherIsFarther(y, points[idx], points[x]);
  }
}
