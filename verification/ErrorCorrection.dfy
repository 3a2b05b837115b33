/** What the hard decoder of gr_autopilot/coding.py guarantees: it is maximum-likelihood among
    flushed codewords, and it returns the payload itself within half the free distance. */
module ErrorCorrection {
  import opened Trellis
  import opened Viterbi
  import opened ConvCode
  import opened HardDecoder

  /** Received position i; a position that never arrived says as little as an erasure. */
  function SymbolAt(recv: seq<Symbol>, i: nat): Symbol { if i < |recv| then recv[i] else -1 }

  function Clash(r: Symbol, c: Bit): nat { if r >= 0 && r != c then 1 else 0 }

  function Lost(r: Symbol): nat { if r < 0 then 1 else 0 }

  /** Among the first n positions: those received as the wrong bit, and those not received. */
  function Flips(recv: seq<Symbol>, sent: seq<Bit>, n: nat): nat {
    if n == 0 then 0 else Flips(recv, sent, n - 1) + Clash(SymbolAt(recv, n - 1), Tap(sent, n - 1))
  }

  function Erasures(recv: seq<Symbol>, n: nat): nat {
    if n == 0 then 0 else Erasures(recv, n - 1) + Lost(SymbolAt(recv, n - 1))
  }

  lemma WeightCost(recv: seq<Symbol>, i: nat, c: Bit)
    ensures At(HardWeights(recv), i).Of(c) == Clash(SymbolAt(recv, i), c) as real
    ensures At(HardWeights(recv), i).Worst() == (1 - Lost(SymbolAt(recv, i))) as real
  {
  }

  /** The decoder's path cost counts the mismatches with the path's codeword. */
  lemma {:induction false} PathCostIsFlips(recv: seq<Symbol>, p: seq<Bit>, n: nat, t: nat)
    requires t <= n
    ensures PathCost(HardWeights(recv), p, t) == Flips(recv, Codeword(p, n), 2 * t) as real
  {
    hide HardWeights, Clash, SymbolAt, Codeword, Out, StateAt;
    if t > 0 {
      PathCostIsFlips(recv, p, n, t - 1);
      var i, c := 2 * t - 2, Codeword(p, n);
      assert c[2 * (t - 1) + 0] == CodeBit(p, t - 1, 0) && c[2 * (t - 1) + 1] == CodeBit(p, t - 1, 1);
      assert Flips(recv, c, i + 1) == Flips(recv, c, i) + Clash(SymbolAt(recv, i), c[i]);
      WeightCost(recv, i, c[i]);
      WeightCost(recv, i + 1, c[i + 1]);
    }
  }

  lemma {:induction false} MassIsKnown(recv: seq<Symbol>, t: nat)
    ensures Mass(HardWeights(recv), t) == (2 * t - Erasures(recv, 2 * t)) as real
  {
    hide HardWeights, Lost, SymbolAt;
    if t > 0 {
      MassIsKnown(recv, t - 1);
      assert Erasures(recv, 2 * t - 1) == Erasures(recv, 2 * t - 2) + Lost(SymbolAt(recv, 2 * t - 2));
      WeightCost(recv, 2 * t - 2, 0);
      WeightCost(recv, 2 * t - 1, 0);
    }
  }

  /** The word has the length of n info bits plus the tail, and some payload fits it with fewer
      mismatches than the decoder's sentinel. */
  ghost predicate Decodable(recv: seq<Symbol>, n: nat) {
    |recv| / 2 == n + 2 && exists c: seq<Bit> :: |c| == n && Flips(recv, Encode(c), 2 * (n + 2)) < HARD_INF
  }

  /** The n info bits the hard decoder returns. */
  function HardBits(recv: seq<Symbol>, n: nat): seq<Bit> {
    Prefix(Decode(HardWeights(recv), HARD_INF as real), n)
  }

  /** A flushed path is its payload followed by the tail. */
  lemma FlushedPath(p: seq<Bit>, n: nat)
    requires |p| == n + 2 && StateAt(p, n + 2) == 0
    ensures p == p[..n] + [0, 0]
    ensures forall i: int :: Tap(p, i) == Tap(p[..n], i)
  {
    assert Tap(p, n) == p[n] && Tap(p, n + 1) == p[n + 1];
  }

  lemma {:induction false} SameCodeword(p: seq<Bit>, q: seq<Bit>, n: nat)
    requires forall i: int :: Tap(p, i) == Tap(q, i)
    ensures Codeword(p, n) == Codeword(q, n)
  {
    hide Tap, Out;
    if n > 0 { SameCodeword(p, q, n - 1); }
  }

  lemma {:induction false} HardCostGrows(recv: seq<Symbol>, p: seq<Bit>, i: nat, t: nat)
    requires i <= t
    ensures PathCost(HardWeights(recv), p, i) <= PathCost(HardWeights(recv), p, t)
  {
    if i < t {
      hide HardWeights, SymbolAt, StateAt, Tap, Out;
      HardCostGrows(recv, p, i, t - 1);
      var s, b := StateAt(p, t - 1), Tap(p, t - 1);
      WeightCost(recv, 2 * t - 2, Out(s, b, 0));
      WeightCost(recv, 2 * t - 1, Out(s, b, 1));
    }
  }

  /** A payload that fits with fewer mismatches than the sentinel is never beaten by a worse one. */
  lemma BeatsEveryFit(recv: seq<Symbol>, u: seq<Bit>)
    requires |recv| / 2 == |u| + 2 && Flips(recv, Encode(u), |Encode(u)|) < HARD_INF
    ensures var v := HardBits(recv, |u|);
            |v| == |u| && Decode(HardWeights(recv), HARD_INF as real) == v + [0, 0] &&
            Flips(recv, Encode(v), |Encode(v)|) <= Flips(recv, Encode(u), |Encode(u)|)
  {
    hide HardWeights, PathCost, Decode, StateAt, Codeword, Flips, Tap;
    var n, w := |u|, HardWeights(recv);
    FlushEndsAtZero(u);
    PathCostIsFlips(recv, u, n + 2, n + 2);
    forall i: nat | i <= n + 2 ensures PathCost(w, u, i) < HARD_INF as real { HardCostGrows(recv, u, i, n + 2); }
    DecodeIsOptimal(w, HARD_INF as real, u);
    var p, v := Decode(w, HARD_INF as real), HardBits(recv, n);
    FlushedPath(p, n);
    SameCodeword(p, v, n + 2);
    PathCostIsFlips(recv, p, n + 2, n + 2);
  }

  /** Words with fewer known positions than the sentinel are decodable. */
  lemma FewKnownIsDecodable(recv: seq<Symbol>, n: nat)
    requires |recv| / 2 == n + 2 && 2 * (n + 2) - Erasures(recv, 2 * (n + 2)) < HARD_INF
    ensures Decodable(recv, n)
  {
    hide HardWeights, Mass, PathCost, Codeword, Flips, Erasures;
    var c: seq<Bit> := seq(n, i => 0);
    MassIsKnown(recv, n + 2);
    CostBelowMass(HardWeights(recv), c, n + 2);
    PathCostIsFlips(recv, c, n + 2, n + 2);
    assert |c| == n && Flips(recv, Encode(c), 2 * (n + 2)) < HARD_INF;
  }

  /** Decodable says exactly that the decoder reaches the flushed state. */
  lemma DecodableIffReached(recv: seq<Symbol>, n: nat)
    requires |recv| / 2 == n + 2
    ensures Decodable(recv, n) <==> MetricsAt(HardWeights(recv), HARD_INF as real, n + 2).Of(0) < HARD_INF as real
  {
    hide HardWeights, PathCost, MetricsAt, Trace, StateAt, Codeword, Flips, Tap;
    var w, inf := HardWeights(recv), HARD_INF as real;
    if MetricsAt(w, inf, n + 2).Of(0) < inf {
      var p := Trace(w, inf, n + 2, 0);
      TraceIsAPath(w, inf, n + 2, 0);
      FlushedPath(p, n);
      SameCodeword(p, p[..n], n + 2);
      PathCostIsFlips(recv, p, n + 2, n + 2);
      assert |p[..n]| == n && Flips(recv, Encode(p[..n]), 2 * (n + 2)) < HARD_INF;
    }
    if Decodable(recv, n) {
      var c: seq<Bit> :| |c| == n && Flips(recv, Encode(c), 2 * (n + 2)) < HARD_INF;
      FlushEndsAtZero(c);
      PathCostIsFlips(recv, c, n + 2, n + 2);
      forall i: nat | i <= n + 2 ensures PathCost(w, c, i) < inf { HardCostGrows(recv, c, i, n + 2); }
      MetricIsLowerBound(w, inf, c, n + 2);
    }
  }

  /** A word of any length that some flushed path fits with fewer mismatches than the sentinel. */
  ghost predicate Fits(recv: seq<Symbol>) {
    exists p: seq<Bit> :: |p| == |recv| / 2 && StateAt(p, |p|) == 0 && Flips(recv, Codeword(p, |p|), 2 * |p|) < HARD_INF
  }

  /** Such words are exactly those whose flushed state the decoder reaches. */
  lemma FitsIffReached(recv: seq<Symbol>)
    ensures Fits(recv) <==> MetricsAt(HardWeights(recv), HARD_INF as real, |recv| / 2).Of(0) < HARD_INF as real
  {
    hide HardWeights, PathCost, MetricsAt, Trace, StateAt, Codeword, Flips;
    var w, inf, n := HardWeights(recv), HARD_INF as real, |recv| / 2;
    if MetricsAt(w, inf, n).Of(0) < inf {
      var p := Trace(w, inf, n, 0);
      TraceIsAPath(w, inf, n, 0);
      PathCostIsFlips(recv, p, n, n);
      assert |p| == n && StateAt(p, |p|) == 0 && Flips(recv, Codeword(p, |p|), 2 * |p|) < HARD_INF;
    }
    if Fits(recv) {
      var p: seq<Bit> :| |p| == n && StateAt(p, |p|) == 0 && Flips(recv, Codeword(p, |p|), 2 * |p|) < HARD_INF;
      PathCostIsFlips(recv, p, n, n);
      forall i: nat | i <= n ensures PathCost(w, p, i) < inf { HardCostGrows(recv, p, i, n); }
      MetricIsLowerBound(w, inf, p, n);
    }
  }

  lemma DecodableFits(recv: seq<Symbol>, n: nat)
    requires Decodable(recv, n)
    ensures Fits(recv)
  {
    hide HardWeights, MetricsAt, Decodable, Fits;
    assert |recv| / 2 == n + 2 by { DecodableLength(recv, n); }
    DecodableIffReached(recv, n);
    FitsIffReached(recv);
  }

  lemma DecodableLength(recv: seq<Symbol>, n: nat)
    requires Decodable(recv, n)
    ensures |recv| / 2 == n + 2
  {
  }

  lemma FewKnownFits(recv: seq<Symbol>)
    requires 2 * (|recv| / 2) - Erasures(recv, 2 * (|recv| / 2)) < HARD_INF
    ensures Fits(recv)
  {
    hide HardWeights, Mass, PathCost, Codeword, Flips, Erasures;
    var n := |recv| / 2;
    var p: seq<Bit> := seq(n, i => 0);
    assert StateAt(p, n) == 0;
    hide StateAt;
    MassIsKnown(recv, n);
    CostBelowMass(HardWeights(recv), p, n);
    PathCostIsFlips(recv, p, n, n);
    assert |p| == n && StateAt(p, |p|) == 0 && Flips(recv, Codeword(p, |p|), 2 * |p|) < HARD_INF;
  }

  /** Maximum likelihood: the traceback is a flushed path from state 0 to state 0, and no payload
      of that length encodes to a word with fewer mismatches on the non-erased positions. */
  lemma HardIsMaximumLikelihood(recv: seq<Symbol>, u: seq<Bit>)
    requires Decodable(recv, |u|)
    ensures var v := HardBits(recv, |u|);
            |v| == |u| && Decode(HardWeights(recv), HARD_INF as real) == v + [0, 0] &&
            Flips(recv, Encode(v), |Encode(v)|) <= Flips(recv, Encode(u), |Encode(u)|)
  {
    hide HardWeights, Decode, Codeword, Flips, HardBits;
    var n := |u|;
    var c: seq<Bit> :| |c| == n && Flips(recv, Encode(c), 2 * (n + 2)) < HARD_INF;
    BeatsEveryFit(recv, c);
    if Flips(recv, Encode(u), 2 * (n + 2)) < HARD_INF { BeatsEveryFit(recv, u); }
  }

  // ---- radius ------------------------------------------------------------------

  function StepErasures(rate: Rate, recv: seq<Symbol>, t: nat): nat {
    KeptOnes(rate, t, Lost(SymbolAt(recv, 2 * t)), Lost(SymbolAt(recv, 2 * t + 1)))
  }

  /** Transmitted positions of the first t steps that were lost. */
  function KeptErasures(rate: Rate, recv: seq<Symbol>, t: nat): nat {
    if t == 0 then 0 else KeptErasures(rate, recv, t - 1) + StepErasures(rate, recv, t - 1)
  }

  lemma {:induction false} HalfKeepsAll(recv: seq<Symbol>, t: nat)
    ensures KeptErasures(Half, recv, t) == Erasures(recv, 2 * t)
  {
    hide Lost, SymbolAt;
    if t > 0 {
      HalfKeepsAll(recv, t - 1);
      assert Erasures(recv, 2 * t - 1) == Erasures(recv, 2 * t - 2) + Lost(SymbolAt(recv, 2 * t - 2));
    }
  }

  /** Where two codewords differ at a transmitted position, it was lost or one of them clashes. */
  lemma StepTriangle(rate: Rate, recv: seq<Symbol>, p: seq<Bit>, q: seq<Bit>, t: nat)
    ensures StepDistance(rate, p, q, t) as real
         <= StepErasures(rate, recv, t) as real
          + BranchCost(HardWeights(recv), t, StateAt(p, t), Tap(p, t))
          + BranchCost(HardWeights(recv), t, StateAt(q, t), Tap(q, t))
  {
    hide Kept, HardWeights, SymbolAt, Out, StateAt, Tap;
    WeightCost(recv, 2 * t, CodeBit(p, t, 0));
    WeightCost(recv, 2 * t, CodeBit(q, t, 0));
    WeightCost(recv, 2 * t + 1, CodeBit(p, t, 1));
    WeightCost(recv, 2 * t + 1, CodeBit(q, t, 1));
  }

  lemma {:induction false} Triangle(rate: Rate, recv: seq<Symbol>, p: seq<Bit>, q: seq<Bit>, t: nat)
    ensures KeptDistance(rate, p, q, t) as real
         <= KeptErasures(rate, recv, t) as real + PathCost(HardWeights(recv), p, t) + PathCost(HardWeights(recv), q, t)
  {
    hide StepDistance, StepErasures, BranchCost, CodeBit, HardWeights, StateAt, Tap;
    if t > 0 {
      Triangle(rate, recv, p, q, t - 1);
      StepTriangle(rate, recv, p, q, t - 1);
    }
  }

  /** Two payloads cannot both fit a word well: what it mismatches of one and of the other, and what
      it lost, make up at least the free distance. */
  lemma NotBothFit(rate: Rate, recv: seq<Symbol>, u: seq<Bit>, v: seq<Bit>)
    requires |u| == |v| && u != v
    ensures FreeDistance(rate) <= KeptErasures(rate, recv, |u| + 2)
              + Flips(recv, Encode(u), |Encode(u)|) + Flips(recv, Encode(v), |Encode(v)|)
  {
    hide HardWeights, PathCost, KeptDistance, KeptErasures, Flips, Codeword, FreeDistance, StateAt;
    var n := |u|;
    var i :| 0 <= i < n && v[i] != u[i];
    assert Tap(v, i) != Tap(u, i);
    hide Tap;
    FlushEndsAtZero(u);
    FlushEndsAtZero(v);
    CodewordsFarApart(rate, v, u, n + 2, i);
    Triangle(rate, recv, v, u, n + 2);
    PathCostIsFlips(recv, v, n + 2, n + 2);
    PathCostIsFlips(recv, u, n + 2, n + 2);
  }

  /** Half the distance: with f flips among the received positions and e transmitted positions lost,
      2 f + e < d_free is enough for the decoder to return the payload itself. */
  lemma WithinRadius(rate: Rate, recv: seq<Symbol>, u: seq<Bit>)
    requires |recv| / 2 == |u| + 2
    requires 2 * Flips(recv, Encode(u), |Encode(u)|) + KeptErasures(rate, recv, |u| + 2) < FreeDistance(rate)
    ensures HardBits(recv, |u|) == u
  {
    assert FreeDistance(rate) <= 5;
    hide HardWeights, HardBits, KeptErasures, Flips, Codeword, FreeDistance, Decode;
    BeatsEveryFit(recv, u);
    if HardBits(recv, |u|) != u { NotBothFit(rate, recv, u, HardBits(recv, |u|)); }
  }

  /** Rate 1/2 survives f flips and e erasures anywhere in the word as long as 2 f + e <= 4. */
  lemma HalfRateCorrects(recv: seq<Symbol>, u: seq<Bit>)
    requires |recv| == |Encode(u)|
    requires 2 * Flips(recv, Encode(u), |recv|) + Erasures(recv, |recv|) <= 4
    ensures HardBits(recv, |u|) == u
  {
    HalfKeepsAll(recv, |u| + 2);
    WithinRadius(Half, recv, u);
  }

  /** The radius is sharp: with the five positions where the codewords of 0 and 1 differ erased,
      both payloads fit the word equally well and one of them is not returned. */
  lemma HalfRateRadiusIsSharp()
    ensures exists recv: seq<Symbol>, u: seq<Bit> ::
              |recv| == |Encode(u)| && 2 * Flips(recv, Encode(u), |recv|) + Erasures(recv, |recv|) == 5
              && HardBits(recv, |u|) != u
  {
    hide HardBits, Flips, Erasures, Encode;
    var recv: seq<Symbol> := [-1, -1, -1, 0, -1, -1];
    EncodeOneBit(0);
    EncodeOneBit(1);
    var u: seq<Bit> := if HardBits(recv, 1) == [0] then [1] else [0];
    NoFlips(recv, Encode(u), 6);
    FiveErasures(recv);
    assert 2 * Flips(recv, Encode(u), |recv|) + Erasures(recv, |recv|) == 5;
  }

  /** The payload with its last bit inverted. */
  function LastInverted(u: seq<Bit>): (v: seq<Bit>)
    requires u != []
    ensures |v| == |u|
  {
    u[..|u| - 1] + [1 - u[|u| - 1]]
  }

  lemma InvertedTap(u: seq<Bit>, i: int)
    requires u != []
    ensures Tap(LastInverted(u), i) == if i == |u| - 1 then 1 - Tap(u, i) else Tap(u, i)
  {
  }

  /** Inverting the last bit leaves all coded bits but five of the last six. */
  lemma InvertedCodeword(u: seq<Bit>, k: nat)
    requires u != [] && (k < 2 * |u| - 2 || k == 2 * |u| + 1)
    ensures Encode(LastInverted(u))[k] == Encode(u)[k]
  {
    var v, t := LastInverted(u), k / 2;
    hide Encode, Tap, LastInverted;
    EncodeIsConvolution(u, t);
    EncodeIsConvolution(v, t);
    InvertedTap(u, t);
    InvertedTap(u, t - 1);
    InvertedTap(u, t - 2);
    if k < 2 * |u| - 2 { assert t < |u| - 1; } else { assert t == |u| && k == 2 * t + 1; }
    assert k == 2 * t || k == 2 * t + 1;
  }

  /** The word of u, but with the first three of those five as the other payload has them. */
  function Misleading(u: seq<Bit>): (recv: seq<Symbol>)
    requires u != []
    ensures |recv| == |Encode(u)|
  {
    var n := 2 * |u| + 1;
    Encode(LastInverted(u))[..n] + Encode(u)[n..]
  }

  lemma {:induction false} FlipsBetween(recv: seq<Symbol>, sent: seq<Bit>, m: nat, n: nat)
    requires m <= n
    ensures Flips(recv, sent, m) <= Flips(recv, sent, n) <= Flips(recv, sent, m) + (n - m)
    decreases n
  {
    hide SymbolAt, Tap;
    if m < n { FlipsBetween(recv, sent, m, n - 1); }
  }

  lemma {:induction false} NoErasures(recv: seq<Symbol>, n: nat)
    requires n <= |recv| && forall i :: 0 <= i < n ==> recv[i] >= 0
    ensures Erasures(recv, n) == 0
  {
    if n > 0 { NoErasures(recv, n - 1); }
  }

  lemma MisleadingFlips(u: seq<Bit>)
    requires u != []
    ensures var n := |Encode(u)|;
            && Flips(Misleading(u), Encode(LastInverted(u)), n) <= 2
            && Flips(Misleading(u), Encode(u), n) <= 3
            && Erasures(Misleading(u), n) == 0
  {
    hide Encode, Flips, Erasures, LastInverted;
    var recv, c, d, m := Misleading(u), Encode(LastInverted(u)), Encode(u), 2 * |u| + 1;
    assert |c| == |d| == m + 3;
    assert recv[m] == d[m] == c[m] by { InvertedCodeword(u, m); }
    NoFlips(recv, c, m + 1);
    FlipsBetween(recv, c, m + 1, m + 3);
    forall i: nat | i < m - 3 ensures recv[i] == d[i] { InvertedCodeword(u, i); }
    NoFlips(recv, d, m - 3);
    FlipsBetween(recv, d, m - 3, m);
    StillEqual(recv, d, m, m + 3);
    NoErasures(recv, m + 3);
  }

  lemma {:induction false} StillEqual(recv: seq<Symbol>, sent: seq<Bit>, m: nat, n: nat)
    requires m <= n && forall i :: m <= i < n ==> Clash(SymbolAt(recv, i), Tap(sent, i)) == 0
    ensures Flips(recv, sent, n) == Flips(recv, sent, m)
    decreases n
  {
    if m < n { StillEqual(recv, sent, m, n - 1); }
  }

  /** No payload is safe beyond the radius: every one is lost to some three flips and no erasure. */
  lemma EveryPayloadCanBeLost(u: seq<Bit>)
    requires u != []
    ensures var recv := Misleading(u);
            Flips(recv, Encode(u), |recv|) == 3 && Erasures(recv, |recv|) == 0 && HardBits(recv, |u|) != u
  {
    hide HardBits, Flips, Erasures, Encode, Misleading;
    assert LastInverted(u)[|u| - 1] != u[|u| - 1];
    hide LastInverted;
    MisleadingFlips(u);
    HalfRateCorrects(Misleading(u), LastInverted(u));
    if Flips(Misleading(u), Encode(u), |Encode(u)|) <= 2 { HalfRateCorrects(Misleading(u), u); }
  }

  lemma EncodeOneBit(b: Bit)
    ensures Encode([b]) == if b == 0 then [0, 0, 0, 0, 0, 0] else [1, 1, 1, 0, 1, 1]
  {
    assert Codeword([b], 1) == [b, b];
    assert Codeword([b], 2) == [b, b, b, 0];
  }

  lemma {:induction false} NoFlips(recv: seq<Symbol>, c: seq<Bit>, n: nat)
    requires forall i :: 0 <= i < n ==> Clash(SymbolAt(recv, i), Tap(c, i)) == 0
    ensures Flips(recv, c, n) == 0
  {
    if n > 0 { NoFlips(recv, c, n - 1); }
  }

  lemma FiveErasures(recv: seq<Symbol>)
    requires recv == [-1, -1, -1, 0, -1, -1]
    ensures Erasures(recv, 6) == 5
  {
    assert Erasures(recv, 1) == 1;
    assert Erasures(recv, 2) == 2;
    assert Erasures(recv, 3) == 3;
    assert Erasures(recv, 4) == 3;
    assert Erasures(recv, 5) == 4;
  }
}
