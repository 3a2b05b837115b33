/** gr_autopilot/coding.py: the soft-decision Viterbi decoder over log-likelihood ratios. */
module SoftDecoder {
  import opened Basics
  import opened Trellis
  import opened Viterbi
  import opened HardDecoder
  import opened ConvCode
  import opened ErrorCorrection
  import opened Puncturing

  const SOFT_INF: real := 1000000000000000000.0   // 1e18

  /** The correlation metric llr * (2 c - 1). */
  function SoftWeight(llr: real): Weight { Weight(-llr, llr) }

  function SoftWeights(llr: seq<real>): (w: seq<Weight>)
    ensures |w| == |llr|
  {
    seq(|llr|, i requires 0 <= i < |llr| => SoftWeight(llr[i]))
  }

  /** The signed bit 2 c - 1. */
  function Sign(c: Bit): real { if c == 0 then -1.0 else 1.0 }

  /** The soft branch metric of the source: the correlation of two ratios with the branch's bits. */
  function BranchCorrelation(l0: real, l1: real, s: State, b: Bit): real {
    l0 * Sign(Out(s, b, 0)) + l1 * Sign(Out(s, b, 1))
  }

  lemma CorrelationIsBranchCost(llr: seq<real>, t: nat, s: State, b: Bit)
    requires 2 * t + 1 < |llr|
    ensures BranchCorrelation(llr[2 * t], llr[2 * t + 1], s, b) == BranchCost(SoftWeights(llr), t, s, b)
  {
    hide Out;
  }

  ghost predicate Holds(npm: array<real>, back: array2<Bit>, prev: array2<State>, t: nat, ns: State, c: Cell)
    requires npm.Length == 4 && t < back.Length0 && t < prev.Length0 && back.Length1 == prev.Length1 == 4
    reads npm, back, prev
  {
    npm[ns] == c.metric && back[t, ns] == c.bit && prev[t, ns] == c.from
  }

  ghost predicate Stepped(npm: array<real>, back: array2<Bit>, prev: array2<State>, t: nat,
                          m: Metrics, w: seq<Weight>, inf: real)
    requires npm.Length == 4 && t < back.Length0 && t < prev.Length0 && back.Length1 == prev.Length1 == 4
    reads npm, back, prev
  {
    forall ns: State :: Holds(npm, back, prev, t, ns, Survivor(m, w, inf, t, ns))
  }

  function AsMetrics(pm: array<real>): Metrics
    requires pm.Length == 4
    reads pm
  {
    Metrics(pm[0], pm[1], pm[2], pm[3])
  }

  /** One pass of the outer loop: add, compare and select over every (state, input) pair. */
  method Step(llr: seq<real>, t: nat, pm: array<real>, npm: array<real>, back: array2<Bit>, prev: array2<State>)
    requires 2 * t + 1 < |llr| && pm.Length == npm.Length == 4 && pm != npm
    requires t < back.Length0 && t < prev.Length0 && back.Length1 == prev.Length1 == 4
    requires forall ns: State :: npm[ns] == SOFT_INF && back[t, ns] == 0 && prev[t, ns] == 0
    modifies npm, back, prev
    ensures Stepped(npm, back, prev, t, AsMetrics(pm), SoftWeights(llr), SOFT_INF)
    ensures forall i, ns: State :: 0 <= i < back.Length0 && i != t ==> back[i, ns] == old(back[i, ns])
    ensures forall i, ns: State :: 0 <= i < prev.Length0 && i != t ==> prev[i, ns] == old(prev[i, ns])
  {
    hide Partial, Survivor, BranchCost, SoftWeights, Next, BranchCorrelation;
    var l0, l1 := llr[2 * t], llr[2 * t + 1];
    ghost var w, m, inf := SoftWeights(llr), AsMetrics(pm), SOFT_INF;
    forall ns: State { FirstAndLastPair(m, w, inf, t, ns); }
    for s := 0 to 4
      invariant forall ns: State :: Holds(npm, back, prev, t, ns, Partial(m, w, inf, t, ns, s, 0))
      invariant forall i, ns: State :: 0 <= i < back.Length0 && i != t ==> back[i, ns] == old(back[i, ns])
      invariant forall i, ns: State :: 0 <= i < prev.Length0 && i != t ==> prev[i, ns] == old(prev[i, ns])
    {
      if pm[s] >= SOFT_INF {
        forall ns: State { SkippedState(m, w, inf, t, s, ns); }
        continue;
      }
      for b := 0 to 2
        invariant forall ns: State :: Holds(npm, back, prev, t, ns, Partial(m, w, inf, t, ns, s, b))
        invariant forall i, ns: State :: 0 <= i < back.Length0 && i != t ==> back[i, ns] == old(back[i, ns])
        invariant forall i, ns: State :: 0 <= i < prev.Length0 && i != t ==> prev[i, ns] == old(prev[i, ns])
      {
        var ns := Next(s, b);
        var cand := pm[s] + BranchCorrelation(l0, l1, s, b);
        CorrelationIsBranchCost(llr, t, s, b);
        forall x: State { PairRelaxesItsTarget(m, w, inf, t, s, b, x); }
        assert Holds(npm, back, prev, t, ns, Partial(m, w, inf, t, ns, s, b));
        if cand < npm[ns] {
          npm[ns] := cand;
          back[t, ns] := b;
          prev[t, ns] := s;
        }
      }
      forall ns: State { NextState(m, w, inf, t, s, ns); }
    }
  }

  method ViterbiDecodeSoft(llr: seq<real>, nInfo: nat) returns (bits: seq<Bit>)
    ensures bits == Prefix(Decode(SoftWeights(llr), SOFT_INF), nInfo)
  {
    hide Survivor, SoftWeights, CellAt, MetricsAt;
    var steps := |llr| / 2;
    ghost var w, inf := SoftWeights(llr), SOFT_INF;
    MetricsFromCells(w, inf, 0);
    var pm := new real[4](i => SOFT_INF);
    pm[0] := 0.0;
    var back := new Bit[steps, 4]((i, j) => 0);
    var prev := new State[steps, 4]((i, j) => 0);
    for t := 0 to steps
      invariant pm.Length == 4 && fresh(pm) && AsMetrics(pm) == MetricsAt(w, inf, t)
      invariant forall i, ns: State :: t <= i < steps ==> back[i, ns] == 0 && prev[i, ns] == 0
      invariant forall i: nat, ns: State :: i < t ==>
          back[i, ns] == CellAt(w, inf, i, ns).bit && prev[i, ns] == CellAt(w, inf, i, ns).from
    {
      var npm := new real[4](i => SOFT_INF);
      MetricsFromCells(w, inf, t);
      Step(llr, t, pm, npm, back, prev);
      assert forall ns: State :: Holds(npm, back, prev, t, ns, CellAt(w, inf, t, ns));
      pm := npm;
      assert AsMetrics(pm) == MetricsAt(w, inf, t + 1);
    }
    bits := Traceback(back, prev, steps, nInfo, w, inf);
  }

  // ---- optimality ----------------------------------------------------------------

  function LlrAt(llr: seq<real>, i: nat): real { if i < |llr| then llr[i] else 0.0 }

  /** What one position contributes: llr * (2 c - 1). */
  function Term(llr: real, c: Bit): real { llr * Sign(c) }

  /** The objective the source documents: the sum of llr * (2 c - 1) over the first n positions. */
  function Correlation(llr: seq<real>, c: seq<Bit>, n: nat): real {
    if n == 0 then 0.0 else Correlation(llr, c, n - 1) + Term(LlrAt(llr, n - 1), Tap(c, n - 1))
  }

  /** Total reliability of the first n positions. */
  function Reliability(llr: seq<real>, n: nat): real {
    if n == 0 then 0.0 else Reliability(llr, n - 1) + Abs(LlrAt(llr, n - 1))
  }

  lemma SoftWeightCost(llr: seq<real>, i: nat, c: Bit)
    ensures At(SoftWeights(llr), i).Of(c) == Term(LlrAt(llr, i), c)
    ensures At(SoftWeights(llr), i).Worst() == Abs(LlrAt(llr, i))
  {
  }

  lemma {:induction false} PathCostIsCorrelation(llr: seq<real>, p: seq<Bit>, n: nat, t: nat)
    requires t <= n
    ensures PathCost(SoftWeights(llr), p, t) == Correlation(llr, Codeword(p, n), 2 * t)
  {
    hide SoftWeights, LlrAt, Codeword, Out, StateAt, Term;
    if t > 0 {
      PathCostIsCorrelation(llr, p, n, t - 1);
      var i, c := 2 * t - 2, Codeword(p, n);
      assert c[2 * (t - 1) + 0] == CodeBit(p, t - 1, 0) && c[2 * (t - 1) + 1] == CodeBit(p, t - 1, 1);
      assert Correlation(llr, c, i + 1) == Correlation(llr, c, i) + Term(LlrAt(llr, i), c[i]);
      SoftWeightCost(llr, i, c[i]);
      SoftWeightCost(llr, i + 1, c[i + 1]);
    }
  }

  lemma {:induction false} MassIsReliability(llr: seq<real>, t: nat)
    ensures Mass(SoftWeights(llr), t) == Reliability(llr, 2 * t)
  {
    hide SoftWeights, LlrAt, Abs;
    if t > 0 {
      MassIsReliability(llr, t - 1);
      assert Reliability(llr, 2 * t - 1) == Reliability(llr, 2 * t - 2) + Abs(LlrAt(llr, 2 * t - 2));
      SoftWeightCost(llr, 2 * t - 2, 0);
      SoftWeightCost(llr, 2 * t - 1, 0);
    }
  }

  /** Enough ratios for n info bits and the tail, of total reliability below the sentinel. */
  ghost predicate SoftDecodable(llr: seq<real>, n: nat) {
    |llr| / 2 == n + 2 && Reliability(llr, 2 * (n + 2)) < SOFT_INF
  }

  function SoftBits(llr: seq<real>, n: nat): seq<Bit> { Prefix(Decode(SoftWeights(llr), SOFT_INF), n) }

  /** No payload whose correlation stays below the sentinel from step to step beats the decoder's. */
  lemma SoftBeats(llr: seq<real>, u: seq<Bit>)
    requires |llr| / 2 == |u| + 2 && StaysBelow(SoftWeights(llr), SOFT_INF, u, |u| + 2)
    ensures var v := SoftBits(llr, |u|);
            |v| == |u| && Decode(SoftWeights(llr), SOFT_INF) == v + [0, 0] &&
            Correlation(llr, Encode(v), |Encode(v)|) <= Correlation(llr, Encode(u), |Encode(u)|)
  {
    hide SoftWeights, StaysBelow, PathCost, Decode, StateAt, Codeword, Correlation, Tap;
    var n, w := |u|, SoftWeights(llr);
    FlushEndsAtZero(u);
    DecodeIsOptimal(w, SOFT_INF, u);
    var p, v := Decode(w, SOFT_INF), SoftBits(llr, n);
    FlushedPath(p, n);
    SameCodeword(p, v, n + 2);
    PathCostIsCorrelation(llr, p, n + 2, n + 2);
    PathCostIsCorrelation(llr, u, n + 2, n + 2);
  }

  /** The soft decoder minimises the correlation over all flushed codewords of that length. */
  lemma SoftIsOptimal(llr: seq<real>, u: seq<Bit>)
    requires SoftDecodable(llr, |u|)
    ensures var v := SoftBits(llr, |u|);
            |v| == |u| && Decode(SoftWeights(llr), SOFT_INF) == v + [0, 0] &&
            Correlation(llr, Encode(v), |Encode(v)|) <= Correlation(llr, Encode(u), |Encode(u)|)
  {
    hide SoftWeights, StaysBelow, Mass, Decode, Codeword, Correlation, SoftBits;
    MassIsReliability(llr, |u| + 2);
    MassKeepsBelow(SoftWeights(llr), SOFT_INF, u, |u| + 2);
    SoftBeats(llr, u);
  }

  // ---- scaling and agreement with the hard decoder ---------------------------------

  function ScaledLlr(llr: seq<real>, k: real): (out: seq<real>)
    ensures |out| == |llr|
  {
    seq(|llr|, i requires 0 <= i < |llr| => Product(k, llr[i]))
  }

  lemma ScaledNegative(k: real, x: real)
    ensures Product(k, -x) == -Product(k, x)
  {
  }

  /** Only the relative sizes of the ratios matter: the noise scale the demodulator leaves out
      changes no decoded bit. */
  lemma SoftScaleInvariant(llr: seq<real>, k: real, n: nat)
    requires k > 0.0
    requires Reliability(llr, 2 * (|llr| / 2)) < SOFT_INF
    requires Reliability(ScaledLlr(llr, k), 2 * (|llr| / 2)) < SOFT_INF
    ensures SoftBits(ScaledLlr(llr, k), n) == SoftBits(llr, n)
  {
    hide Product, Mass, Decode, Reliability;
    var llr' := ScaledLlr(llr, k);
    MassIsReliability(llr, |llr| / 2);
    MassIsReliability(llr', |llr| / 2);
    var off := seq(|llr|, i => 0.0);
    forall i | 0 <= i < |llr| ensures SoftWeights(llr')[i]
        == Weight(Product(k, SoftWeights(llr)[i].zero) + off[i], Product(k, SoftWeights(llr)[i].one) + off[i]) {
      ScaledNegative(k, llr[i]);
    }
    DecodeRescaled(SoftWeights(llr), SoftWeights(llr'), SOFT_INF, SOFT_INF, k, off);
  }

  /** A hard symbol as a fully confident ratio: 0 is +1, 1 is -1, an erasure is 0. */
  function Confident(r: Symbol): real { if r < 0 then 0.0 else if r == 0 then 1.0 else -1.0 }

  function ConfidentLlr(recv: seq<Symbol>): (llr: seq<real>)
    ensures |llr| == |recv|
  {
    seq(|recv|, i requires 0 <= i < |recv| => Confident(recv[i]))
  }

  lemma {:induction false} ConfidentReliability(recv: seq<Symbol>, n: nat)
    ensures Reliability(ConfidentLlr(recv), n) == (n - Erasures(recv, n)) as real
  {
    if n > 0 { ConfidentReliability(recv, n - 1); }
  }

  /** The constant of each position: a known one is worth 1 less than twice its hard cost. */
  function KnownOffsets(recv: seq<Symbol>): (off: seq<real>)
    ensures |off| == |recv|
  {
    seq(|recv|, i requires 0 <= i < |recv| => if recv[i] < 0 then 0.0 else -1.0)
  }

  lemma ConfidentIsRescaled(recv: seq<Symbol>)
    ensures Rescaled(HardWeights(recv), SoftWeights(ConfidentLlr(recv)), 2.0, KnownOffsets(recv))
  {
  }

  lemma {:induction false} OffsetsNotPositive(recv: seq<Symbol>, t: nat)
    ensures Offset(KnownOffsets(recv), t) <= 0.0
  {
    if t > 0 { OffsetsNotPositive(recv, t - 1); }
  }

  lemma HardIsCovered(recv: seq<Symbol>, n: nat)
    ensures Covered(HardWeights(recv), HARD_INF as real, SOFT_INF, 2.0, KnownOffsets(recv), n)
  {
    hide HardWeights, KnownOffsets, Offset;
    var off := KnownOffsets(recv);
    forall t: nat, s: State, b: Bit | t < n ensures BranchCost(HardWeights(recv), t, s, b) >= 0.0 {
      WeightCost(recv, 2 * t, Out(s, b, 0));
      WeightCost(recv, 2 * t + 1, Out(s, b, 1));
    }
    forall t: nat | t <= n ensures Offset(off, t) <= 0.0 { OffsetsNotPositive(recv, t); }
    CoveredByOffsets(HardWeights(recv), HARD_INF as real, SOFT_INF, 2.0, off, n);
  }

  /** On fully confident ratios the soft decoder returns the hard decoder's bits, ties included, on every
      word that the hard decoder can decode: each soft weight is twice the hard one less a constant of its
      position, and what only one of the two sentinels prunes loses in the other decoder as well. */
  lemma SoftRefinesHard(recv: seq<Symbol>, n: nat)
    requires Fits(recv)
    ensures SoftBits(ConfidentLlr(recv), n) == HardBits(recv, n)
  {
    hide Decode, Covered, Rescaled, HardWeights, SoftWeights, MetricsAt;
    FitsIffReached(recv);
    ConfidentIsRescaled(recv);
    HardIsCovered(recv, |recv| / 2);
    DecodeTracks(HardWeights(recv), SoftWeights(ConfidentLlr(recv)), HARD_INF as real, SOFT_INF, 2.0,
                 KnownOffsets(recv));
  }

  /** In particular on every word with fewer known positions than the hard sentinel. */
  lemma SoftRefinesHardOnFewKnown(recv: seq<Symbol>, n: nat)
    requires 2 * (|recv| / 2) - Erasures(recv, 2 * (|recv| / 2)) < HARD_INF
    ensures SoftBits(ConfidentLlr(recv), n) == HardBits(recv, n)
  {
    hide Fits, SoftBits, HardBits, Erasures;
    FewKnownFits(recv);
    SoftRefinesHard(recv, n);
  }

  /** The correspondence commutes with rebuilding a punctured stream. */
  lemma {:induction false} ConfidentRebuilt(pattern: Pattern, recv: seq<Symbol>, n: nat)
    ensures ConfidentLlr(Rebuilt(pattern, recv, -1, n)) == Rebuilt(pattern, ConfidentLlr(recv), 0.0, n)
  {
    hide Keeps, Rank;
    if n > 0 { ConfidentRebuilt(pattern, recv, n - 1); }
  }

  // ---- agreement in sign -----------------------------------------------------------

  /** The ratio at this position is positive for a 0 and negative for a 1. */
  predicate Favours(llr: real, c: Bit) { if c == 0 then llr > 0.0 else llr < 0.0 }

  /** Every transmitted position of the first t steps favours its bit; the others say nothing. */
  ghost predicate FollowsSigns(rate: Rate, llr: seq<real>, u: seq<Bit>, n: nat) {
    forall t: nat, g: Bit :: t < n ==>
      if Kept(rate, t, g) then Favours(LlrAt(llr, 2 * t + g), CodeBit(u, t, g)) else LlrAt(llr, 2 * t + g) == 0.0
  }

  /** Against the bit a position favours, any choice costs at least minus its magnitude, and more
      if it is the wrong one. */
  lemma TermMargin(llr: real, u: Bit, v: Bit)
    requires Favours(llr, u) || llr == 0.0
    ensures Term(llr, v) + Abs(llr) >= 0.0
    ensures u == v ==> Term(llr, v) + Abs(llr) == 0.0
    ensures u != v && Favours(llr, u) ==> Term(llr, v) + Abs(llr) > 0.0
  {
  }

  lemma StepMargin(rate: Rate, llr: seq<real>, u: seq<Bit>, v: seq<Bit>, n: nat, t: nat)
    requires FollowsSigns(rate, llr, u, n) && t < n
    ensures var m := Term(LlrAt(llr, 2 * t), CodeBit(v, t, 0)) + Term(LlrAt(llr, 2 * t + 1), CodeBit(v, t, 1))
                   + Abs(LlrAt(llr, 2 * t)) + Abs(LlrAt(llr, 2 * t + 1));
            m >= 0.0 && (StepDistance(rate, v, u, t) > 0 ==> m > 0.0)
  {
    hide Term, Abs, LlrAt, CodeBit, Kept;
    var l0, l1 := LlrAt(llr, 2 * t + 0), LlrAt(llr, 2 * t + 1);
    assert if Kept(rate, t, 0) then Favours(l0, CodeBit(u, t, 0)) else l0 == 0.0;
    assert if Kept(rate, t, 1) then Favours(l1, CodeBit(u, t, 1)) else l1 == 0.0;
    TermMargin(l0, CodeBit(u, t, 0), CodeBit(v, t, 0));
    TermMargin(l1, CodeBit(u, t, 1), CodeBit(v, t, 1));
  }

  /** The correlation of any codeword exceeds minus the reliability as soon as it leaves the favoured one. */
  lemma {:induction false} Margin(rate: Rate, llr: seq<real>, u: seq<Bit>, v: seq<Bit>, n: nat, t: nat)
    requires FollowsSigns(rate, llr, u, n) && t <= n
    ensures Correlation(llr, Codeword(v, n), 2 * t) + Reliability(llr, 2 * t) >= 0.0
    ensures KeptDistance(rate, v, u, t) > 0 ==>
              Correlation(llr, Codeword(v, n), 2 * t) + Reliability(llr, 2 * t) > 0.0
  {
    hide FollowsSigns, Term, Abs, LlrAt, Codeword, CodeBit, StepDistance;
    if t > 0 {
      var i, c := 2 * t - 2, Codeword(v, n);
      Margin(rate, llr, u, v, n, t - 1);
      StepMargin(rate, llr, u, v, n, t - 1);
      assert c[2 * (t - 1) + 0] == CodeBit(v, t - 1, 0) && c[2 * (t - 1) + 1] == CodeBit(v, t - 1, 1);
      assert Correlation(llr, c, i + 1) == Correlation(llr, c, i) + Term(LlrAt(llr, i), c[i]);
      assert Reliability(llr, i + 1) == Reliability(llr, i) + Abs(LlrAt(llr, i));
    }
  }

  lemma {:induction false} FavouredCorrelation(rate: Rate, llr: seq<real>, u: seq<Bit>, n: nat, t: nat)
    requires FollowsSigns(rate, llr, u, n) && t <= n
    ensures Correlation(llr, Codeword(u, n), 2 * t) == -Reliability(llr, 2 * t)
  {
    hide Term, Abs, LlrAt, Codeword, CodeBit, Kept;
    if t > 0 {
      var i, c := 2 * t - 2, Codeword(u, n);
      FavouredCorrelation(rate, llr, u, n, t - 1);
      assert c[2 * (t - 1) + 0] == CodeBit(u, t - 1, 0) && c[2 * (t - 1) + 1] == CodeBit(u, t - 1, 1);
      assert LlrAt(llr, 2 * (t - 1) + 0) == LlrAt(llr, i) && LlrAt(llr, 2 * (t - 1) + 1) == LlrAt(llr, i + 1);
      TermMargin(LlrAt(llr, i), c[i], c[i]);
      TermMargin(LlrAt(llr, i + 1), c[i + 1], c[i + 1]);
      assert Correlation(llr, c, i + 1) == Correlation(llr, c, i) + Term(LlrAt(llr, i), c[i]);
      assert Reliability(llr, i + 1) == Reliability(llr, i) + Abs(LlrAt(llr, i));
    }
  }

  lemma {:induction false} ReliabilityNonNegative(llr: seq<real>, n: nat)
    ensures Reliability(llr, n) >= 0.0
  {
    if n > 0 { ReliabilityNonNegative(llr, n - 1); }
  }

  /** If every transmitted ratio favours the bit that was sent, the soft decoder returns the payload,
      however small or large the ratios are and however long the word. */
  lemma SoftFollowsSigns(rate: Rate, llr: seq<real>, u: seq<Bit>)
    requires |llr| / 2 == |u| + 2 && FollowsSigns(rate, llr, u, |u| + 2)
    ensures SoftBits(llr, |u|) == u
  {
    hide SoftWeights, SoftBits, KeptDistance, FollowsSigns, Correlation, Codeword, StateAt, Reliability, PathCost;
    var n, v := |u|, SoftBits(llr, |u|);
    forall t: nat | t <= n + 2 ensures PathCost(SoftWeights(llr), u, t) < SOFT_INF {
      PathCostIsCorrelation(llr, u, n + 2, t);
      FavouredCorrelation(rate, llr, u, n + 2, t);
      ReliabilityNonNegative(llr, 2 * t);
    }
    SoftBeats(llr, u);
    if v != u {
      var i :| 0 <= i < n && v[i] != u[i];
      assert Tap(v, i) != Tap(u, i);
      FlushEndsAtZero(u);
      FlushEndsAtZero(v);
      CodewordsFarApart(rate, v, u, n + 2, i);
      Margin(rate, llr, u, v, n + 2, n + 2);
      FavouredCorrelation(rate, llr, u, n + 2, n + 2);
    }
  }


  // ---- the sentinel ----------------------------------------------------------------

  /** Below this total reliability every decoded word is optimal. */
  ghost predicate OptimalBelow(bound: real) {
    forall llr: seq<real>, u: seq<Bit> :: |llr| == |Encode(u)| && Reliability(llr, |llr|) < bound ==>
      Correlation(llr, Encode(SoftBits(llr, |u|)), |llr|) <= Correlation(llr, Encode(u), |llr|)
  }

  /** A word of reliability SOFT_INF + e: its fourth ratio contradicts every codeword of one info bit. */
  function Breaking(e: real): seq<real> { [0.0, 0.0, 0.0, -SOFT_INF, -e, 0.0] }

  lemma BreakingStep(w: seq<Weight>, e: real)
    requires w == SoftWeights(Breaking(e)) && e > 0.0
    ensures MetricsAt(w, SOFT_INF, 1) == Metrics(0.0, SOFT_INF, 0.0, SOFT_INF)
    ensures MetricsAt(w, SOFT_INF, 2).m0 == MetricsAt(w, SOFT_INF, 2).m1 == SOFT_INF
  {
    assert At(w, 0) == At(w, 1) == Weight(0.0, 0.0) == At(w, 2);
    assert At(w, 3) == Weight(SOFT_INF, -SOFT_INF);
    hide At;
    assert MetricsAt(w, SOFT_INF, 0) == Metrics(0.0, SOFT_INF, SOFT_INF, SOFT_INF);
    assert MetricsAt(w, SOFT_INF, 1) == Advance(MetricsAt(w, SOFT_INF, 0), w, SOFT_INF, 0);
    assert MetricsAt(w, SOFT_INF, 2) == Advance(MetricsAt(w, SOFT_INF, 1), w, SOFT_INF, 1);
    hide MetricsAt;
  }

  /** The loss of every path into state 0 makes the decoder answer 0 where 1 is the better payload. */
  lemma BreakingDecodes(e: real)
    requires e > 0.0
    ensures SoftBits(Breaking(e), 1) == [0]
  {
    hide BranchCost, MetricsAt;
    var w := SoftWeights(Breaking(e));
    BreakingStep(w, e);
    MetricsFromCells(w, SOFT_INF, 0);
    var c2, c1, c0 := CellAt(w, SOFT_INF, 2, 0), CellAt(w, SOFT_INF, 1, 0), CellAt(w, SOFT_INF, 0, 0);
    assert c2 == Fresh(SOFT_INF);
    MetricOfCell(w, SOFT_INF, 1, 0);
    SurvivorIsABranch(MetricsAt(w, SOFT_INF, 1), w, SOFT_INF, 1, 0);
    assert c1 == Fresh(SOFT_INF);
    assert c0.bit == 0;
    assert Trace(w, SOFT_INF, 1, 0) == [0];
    assert Trace(w, SOFT_INF, 2, 0) == [0, 0];
    assert Trace(w, SOFT_INF, 3, 0) == [0, 0, 0];
  }

  lemma BreakingCosts(e: real)
    requires e > 0.0
    ensures Reliability(Breaking(e), 6) == SOFT_INF + e
    ensures Correlation(Breaking(e), Encode([1]), 6) == SOFT_INF - e
    ensures Correlation(Breaking(e), Encode([0]), 6) == SOFT_INF + e
  {
    EncodeOneBit(0);
    EncodeOneBit(1);
    hide Encode;
    var llr := Breaking(e);
    forall b: Bit
      ensures Correlation(llr, Encode([b]), 6) == if b == 0 then SOFT_INF + e else SOFT_INF - e
    {
      var c := Encode([b]);
      assert Correlation(llr, c, 1) == 0.0;
      assert Correlation(llr, c, 2) == 0.0;
      assert Correlation(llr, c, 3) == 0.0;
      assert Correlation(llr, c, 4) == SOFT_INF;
      assert Correlation(llr, c, 5) == if b == 0 then SOFT_INF + e else SOFT_INF - e;
    }
    assert Reliability(llr, 1) == 0.0;
    assert Reliability(llr, 2) == 0.0;
    assert Reliability(llr, 3) == 0.0;
    assert Reliability(llr, 4) == SOFT_INF;
    assert Reliability(llr, 5) == SOFT_INF + e;
  }

  /** The soft decoder is optimal exactly as far as the reliability stays below its sentinel: no
      larger bound would do. */
  lemma SentinelIsTheBound(bound: real)
    ensures OptimalBelow(bound) <==> bound <= SOFT_INF
  {
    hide SoftBits, Correlation, Reliability, Encode, Breaking;
    if bound <= SOFT_INF {
      forall llr: seq<real>, u: seq<Bit> | |llr| == |Encode(u)| && Reliability(llr, |llr|) < bound
        ensures Correlation(llr, Encode(SoftBits(llr, |u|)), |llr|) <= Correlation(llr, Encode(u), |llr|)
      {
        SoftIsOptimal(llr, u);
      }
    } else {
      var e := (bound - SOFT_INF) / 2.0;
      BreakingCosts(e);
      BreakingDecodes(e);
      var llr := Breaking(e);
      assert |llr| == 6 by { BreakingLength(e); }
      assert |Encode([1])| == 6;
      assert Reliability(llr, |llr|) < bound;
    }
  }

  lemma BreakingLength(e: real)
    ensures |Breaking(e)| == 6
  {
  }
}
