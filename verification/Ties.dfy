/** gr_autopilot/coding.py: which of several equally good paths the decoders return. A branch only replaces a survivor
    that it beats, so among the paths of least cost the one that comes first when read from its end wins. */
module Ties {
  import opened Basics
  import opened Trellis
  import opened Viterbi
  import opened ConvCode
  import opened HardDecoder
  import opened SoftDecoder
  import opened ErrorCorrection
  import opened Puncturing
  import opened Coding
  import SparseErrors

  /** At the last of the first t inputs where they differ, q has a 0 and p a 1. */
  ghost predicate PrecedesAt(q: seq<Bit>, p: seq<Bit>, i: nat, t: nat) {
    i < t && Tap(q, i) == 0 && Tap(p, i) == 1 && forall j: nat :: i < j < t ==> Tap(q, j) == Tap(p, j)
  }

  /** Read from input t - 1 backwards, q comes before p. */
  ghost predicate Precedes(q: seq<Bit>, p: seq<Bit>, t: nat) { exists i: nat :: PrecedesAt(q, p, i, t) }

  ghost predicate SameInputs(q: seq<Bit>, p: seq<Bit>, t: nat) { forall i: nat :: i < t ==> Tap(q, i) == Tap(p, i) }

  /** The order is strict: no two paths precede each other. */
  lemma PrecedesOneWay(q: seq<Bit>, p: seq<Bit>, t: nat)
    ensures !(Precedes(q, p, t) && Precedes(p, q, t))
    ensures Precedes(q, p, t) ==> !SameInputs(q, p, t)
  {
    hide Tap;
  }

  /** Of two branches into a state the second source only wins by being strictly cheaper. */
  lemma FirstSourceWinsTies(pm: Metrics, w: seq<Weight>, inf: real, t: nat, s: State, b: Bit)
    requires pm.Of(s) < inf && pm.Of(s) + BranchCost(w, t, s, b) < inf
    requires var c := Survivor(pm, w, inf, t, Next(s, b));
             c.metric == pm.Of(s) + BranchCost(w, t, s, b) && c.from != s
    ensures var c := Survivor(pm, w, inf, t, Next(s, b));
            Low(s) == 1 && Low(c.from) == 0 && High(c.from) == High(s) && c.bit == b
  {
    hide BranchCost, Next;
    BranchesInto(s, b, Next(s, b));
  }

  lemma StateIsLastTwo(p: seq<Bit>, t: nat)
    ensures High(StateAt(p, t)) == Tap(p, t - 1) && Low(StateAt(p, t)) == Tap(p, t - 2)
  {
  }

  lemma TapOfLonger(q: seq<Bit>, b: Bit, i: int)
    ensures Tap(q + [b], i) == if i == |q| then b else Tap(q, i)
  {
  }

  /** One branch longer, the order is that of the paths before it. */
  lemma LongerPrecedes(q: seq<Bit>, p: seq<Bit>, t: nat)
    requires |q| == t && (SameInputs(q, p, t) || Precedes(q, p, t))
    ensures SameInputs(q + [Tap(p, t)], p, t + 1) || Precedes(q + [Tap(p, t)], p, t + 1)
  {
    hide Tap;
    forall i: nat ensures Tap(q + [Tap(p, t)], i) == if i == t then Tap(p, t) else Tap(q, i) {
      TapOfLonger(q, Tap(p, t), i);
    }
    if i: nat :| PrecedesAt(q, p, i, t) { assert PrecedesAt(q + [Tap(p, t)], p, i, t + 1); }
  }

  /** Where the last branches come from different states the survivor is already first. */
  lemma BranchPrecedes(q: seq<Bit>, p: seq<Bit>, t: nat)
    requires t >= 1 && |q| == t - 1
    requires Low(StateAt(p, t - 1)) == 1 && Low(StateAt(q, t - 1)) == 0
    requires High(StateAt(p, t - 1)) == High(StateAt(q, t - 1))
    ensures Precedes(q + [Tap(p, t - 1)], p, t)
  {
    StateIsLastTwo(p, t - 1);
    StateIsLastTwo(q, t - 1);
    assert t >= 3;
    hide StateAt, Tap;
    forall i: nat ensures Tap(q + [Tap(p, t - 1)], i) == if i == t - 1 then Tap(p, t - 1) else Tap(q, i) {
      TapOfLonger(q, Tap(p, t - 1), i);
    }
    assert PrecedesAt(q + [Tap(p, t - 1)], p, t - 3, t);
  }

  /** The metric of a state that p reaches as cheaply as possible: the branch p takes is as good as the survivor's. */
  lemma EqualBranch(w: seq<Weight>, inf: real, p: seq<Bit>, t: nat)
    requires t >= 1 && StaysBelow(w, inf, p, t) && PathCost(w, p, t) == MetricsAt(w, inf, t).Of(StateAt(p, t))
    ensures var s, b := StateAt(p, t - 1), Tap(p, t - 1);
            var pm, c := MetricsAt(w, inf, t - 1), CellAt(w, inf, t - 1, StateAt(p, t));
            && Next(s, b) == StateAt(p, t) && pm.Of(s) == PathCost(w, p, t - 1) < inf
            && c.metric == pm.Of(s) + BranchCost(w, t - 1, s, b) < inf
            && c.bit == b && pm.Of(c.from) < inf
  {
    hide BranchCost, StateAt, Tap, Survivor, Next, MetricsAt;
    var s, b := StateAt(p, t - 1), Tap(p, t - 1);
    var pm := MetricsAt(w, inf, t - 1);
    StateStep(p, t - 1);
    MetricOfCell(w, inf, t - 1, StateAt(p, t));
    assert PathCost(w, p, t - 1) < inf && PathCost(w, p, t) < inf;
    assert StaysBelow(w, inf, p, t - 1);
    MetricIsLowerBound(w, inf, p, t - 1);
    CheaperSource(pm, w, inf, t - 1, s, b, pm.Of(s));
    SurvivorIsABranch(pm, w, inf, t - 1, StateAt(p, t));
    var c := CellAt(w, inf, t - 1, StateAt(p, t));
    BranchesInto(s, b, StateAt(p, t));
    BranchesInto(c.from, c.bit, StateAt(p, t));
  }

  /** The survivor of a state comes first among the paths of least cost into it. */
  lemma {:induction false} TraceIsFirst(w: seq<Weight>, inf: real, p: seq<Bit>, t: nat)
    requires StaysBelow(w, inf, p, t) && PathCost(w, p, t) == MetricsAt(w, inf, t).Of(StateAt(p, t))
    ensures var q := Trace(w, inf, t, StateAt(p, t)); SameInputs(q, p, t) || Precedes(q, p, t)
  {
    hide BranchCost, StateAt, Tap, Survivor, Next, MetricsAt, PathCost, SameInputs, Precedes, CellAt;
    if t == 0 {
      NoInputs(Trace(w, inf, 0, StateAt(p, 0)), p);
    } else {
      EqualBranch(w, inf, p, t);
      var s, b, c := StateAt(p, t - 1), Tap(p, t - 1), CellAt(w, inf, t - 1, StateAt(p, t));
      var q := Trace(w, inf, t - 1, c.from);
      assert Trace(w, inf, t, StateAt(p, t)) == q + [b];
      if c.from == s {
        assert StaysBelow(w, inf, p, t - 1);
        TraceIsFirst(w, inf, p, t - 1);
        LongerPrecedes(q, p, t - 1);
      } else {
        CellIs(w, inf, t - 1, StateAt(p, t));
        FirstSourceWinsTies(MetricsAt(w, inf, t - 1), w, inf, t - 1, s, b);
        TraceIsAPath(w, inf, t - 1, c.from);
        BranchPrecedes(q, p, t);
      }
    }
  }

  lemma CellIs(w: seq<Weight>, inf: real, t: nat, ns: State)
    ensures CellAt(w, inf, t, ns) == Survivor(MetricsAt(w, inf, t), w, inf, t, ns)
  {
  }

  lemma NoInputs(q: seq<Bit>, p: seq<Bit>)
    ensures SameInputs(q, p, 0)
  {
  }

  /** Among the flushed paths that stay below the sentinel and cost no more than the decoded one, the decoded one comes
      first. */
  lemma DecodeIsFirst(w: seq<Weight>, inf: real, p: seq<Bit>)
    requires |p| == |w| / 2 && StateAt(p, |p|) == 0 && StaysBelow(w, inf, p, |p|)
    requires PathCost(w, p, |p|) == PathCost(w, Decode(w, inf), |p|)
    ensures p != Decode(w, inf) ==> Precedes(Decode(w, inf), p, |p|)
  {
    hide StateAt, Tap, PathCost, Precedes, SameInputs, MetricsAt, Trace;
    var q, t := Decode(w, inf), |p|;
    MetricIsLowerBound(w, inf, p, t);
    assert PathCost(w, p, t) < inf;
    TraceIsAPath(w, inf, t, 0);
    TraceIsFirst(w, inf, p, t);
    if SameInputs(q, p, t) { SameInputsSame(q, p); }
  }

  lemma SameInputsSame(q: seq<Bit>, p: seq<Bit>)
    requires |q| == |p| && SameInputs(q, p, |p|)
    ensures q == p
  {
    forall i | 0 <= i < |p| ensures q[i] == p[i] { assert Tap(q, i) == Tap(p, i); }
  }

  // ---- the two decoders ------------------------------------------------------------------------------

  /** Payload v is u, or has a 0 where u has a 1 at the last bit in which they differ. */
  ghost predicate First(v: seq<Bit>, u: seq<Bit>) {
    |v| == |u| && (v == u || exists i :: FirstAt(v, u, i))
  }

  ghost predicate FirstAt(v: seq<Bit>, u: seq<Bit>, i: int)
    requires |v| == |u|
  {
    0 <= i < |u| && v[i] == 0 && u[i] == 1 && forall j :: i < j < |u| ==> v[j] == u[j]
  }

  lemma FirstOneWay(v: seq<Bit>, u: seq<Bit>)
    requires First(v, u) && First(u, v)
    ensures v == u
  {
  }

  /** A payload with its tail, as a path. */
  function Flushed(v: seq<Bit>): (p: seq<Bit>)
    ensures |p| == |v| + 2
  {
    v + [0, 0]
  }

  lemma FlushedTap(v: seq<Bit>, i: int)
    ensures Tap(Flushed(v), i) == Tap(v, i)
  {
  }

  lemma FlushedEnds(v: seq<Bit>)
    ensures StateAt(Flushed(v), |v| + 2) == 0
    ensures Codeword(Flushed(v), |v| + 2) == Encode(v)
  {
    forall i: int ensures Tap(Flushed(v), i) == Tap(v, i) { FlushedTap(v, i); }
    hide Codeword;
    SameCodeword(Flushed(v), v, |v| + 2);
  }

  lemma FlushedOrder(v: seq<Bit>, u: seq<Bit>)
    requires |v| == |u| && Precedes(Flushed(v), Flushed(u), |u| + 2)
    ensures First(v, u)
  {
    var i: nat :| PrecedesAt(Flushed(v), Flushed(u), i, |u| + 2);
    FlushedTap(v, i);
    FlushedTap(u, i);
    forall j: nat | i < j < |u| ensures v[j] == u[j] {
      FlushedTap(v, j);
      FlushedTap(u, j);
      assert Tap(Flushed(v), j) == Tap(Flushed(u), j);
    }
    assert FirstAt(v, u, i);
  }

  /** For any weights: a payload of the same cost as the decoded one does not come before it. */
  lemma PayloadIsFirst(w: seq<Weight>, inf: real, v: seq<Bit>, u: seq<Bit>)
    requires |w| / 2 == |u| + 2 && Decode(w, inf) == Flushed(v) && |v| == |u|
    requires StaysBelow(w, inf, Flushed(u), |u| + 2)
    requires PathCost(w, Flushed(u), |u| + 2) == PathCost(w, Flushed(v), |u| + 2)
    ensures First(v, u)
  {
    hide Decode, StateAt, PathCost, Precedes, First, StaysBelow;
    FlushedEnds(u);
    DecodeIsFirst(w, inf, Flushed(u));
    if Flushed(u) == Flushed(v) {
      assert u == Flushed(u)[..|u|] == Flushed(v)[..|u|] == v;
      assert First(v, u) by { FirstOfItself(u); }
    } else {
      FlushedOrder(v, u);
    }
  }

  lemma FirstOfItself(u: seq<Bit>)
    ensures First(u, u)
  {
  }

  lemma HardTie(recv: seq<Symbol>, u: seq<Bit>)
    requires Decodable(recv, |u|)
    requires Flips(recv, Encode(u), |Encode(u)|) == Flips(recv, Encode(HardBits(recv, |u|)), |Encode(u)|)
    ensures First(HardBits(recv, |u|), u)
  {
    hide HardWeights, Decode, Codeword, Flips, HardBits, StateAt, PathCost, First;
    var n, w, v := |u| + 2, HardWeights(recv), HardBits(recv, |u|);
    var c: seq<Bit> :| |c| == |u| && Flips(recv, Encode(c), 2 * n) < HARD_INF;
    HardIsMaximumLikelihood(recv, c);
    FlushedEnds(u);
    FlushedEnds(v);
    PathCostIsFlips(recv, Flushed(u), n, n);
    PathCostIsFlips(recv, Flushed(v), n, n);
    forall i: nat | i <= n ensures PathCost(w, Flushed(u), i) < HARD_INF as real {
      HardCostGrows(recv, Flushed(u), i, n);
    }
    PayloadIsFirst(w, HARD_INF as real, v, u);
  }

  /** What the hard decoder returns, exactly: the payload that mismatches the word least and, among those, is first when
      read from its last bit. */
  lemma HardBitsIsFirstOfBest(recv: seq<Symbol>, v: seq<Bit>)
    requires Decodable(recv, |v|)
    ensures HardBits(recv, |v|) == v <==> HardBest(recv, v)
  {
    hide Decode, HardWeights, Flips, Codeword, HardBits, First, Decodable;
    var r := HardBits(recv, |v|);
    HardIsMaximumLikelihood(recv, v);
    if r == v {
      forall x: seq<Bit> | |x| == |v| ensures HardBetter(recv, v, x) {
        HardIsMaximumLikelihood(recv, x);
        if Flips(recv, Encode(x), |Encode(x)|) == Flips(recv, Encode(v), |Encode(v)|) { HardTie(recv, x); }
      }
    }
    if HardBest(recv, v) {
      assert HardBetter(recv, v, r);
      HardTie(recv, v);
      FirstOneWay(v, r);
    }
  }

  ghost predicate HardBetter(recv: seq<Symbol>, v: seq<Bit>, x: seq<Bit>) {
    var f, g := Flips(recv, Encode(v), |Encode(v)|), Flips(recv, Encode(x), |Encode(x)|);
    f < g || (f == g && First(v, x))
  }

  ghost predicate HardBest(recv: seq<Symbol>, v: seq<Bit>) {
    forall x: seq<Bit> :: |x| == |v| ==> HardBetter(recv, v, x)
  }

  lemma SoftTie(llr: seq<real>, u: seq<Bit>)
    requires SoftDecodable(llr, |u|)
    requires Correlation(llr, Encode(u), |Encode(u)|) == Correlation(llr, Encode(SoftBits(llr, |u|)), |Encode(u)|)
    ensures First(SoftBits(llr, |u|), u)
  {
    hide SoftWeights, Decode, Codeword, Correlation, SoftBits, StateAt, PathCost, First, StaysBelow, Mass, Reliability;
    var n, w, v := |u| + 2, SoftWeights(llr), SoftBits(llr, |u|);
    SoftIsOptimal(llr, u);
    FlushedEnds(u);
    FlushedEnds(v);
    PathCostIsCorrelation(llr, Flushed(u), n, n);
    PathCostIsCorrelation(llr, Flushed(v), n, n);
    MassIsReliability(llr, n);
    MassKeepsBelow(w, SOFT_INF, Flushed(u), n);
    PayloadIsFirst(w, SOFT_INF, v, u);
  }

  ghost predicate SoftBetter(llr: seq<real>, v: seq<Bit>, x: seq<Bit>) {
    var f, g := Correlation(llr, Encode(v), |Encode(v)|), Correlation(llr, Encode(x), |Encode(x)|);
    f < g || (f == g && First(v, x))
  }

  ghost predicate SoftBest(llr: seq<real>, v: seq<Bit>) {
    forall x: seq<Bit> :: |x| == |v| ==> SoftBetter(llr, v, x)
  }

  /** And the soft decoder: the payload of least correlation, ties broken in the same way. */
  lemma SoftBitsIsFirstOfBest(llr: seq<real>, v: seq<Bit>)
    requires SoftDecodable(llr, |v|)
    ensures SoftBits(llr, |v|) == v <==> SoftBest(llr, v)
  {
    hide Decode, SoftWeights, Correlation, Codeword, SoftBits, First, SoftDecodable;
    var r := SoftBits(llr, |v|);
    SoftIsOptimal(llr, v);
    if r == v {
      forall x: seq<Bit> | |x| == |v| ensures SoftBetter(llr, v, x) {
        SoftIsOptimal(llr, x);
        if Correlation(llr, Encode(x), |Encode(x)|) == Correlation(llr, Encode(v), |Encode(v)|) { SoftTie(llr, x); }
      }
    }
    if SoftBest(llr, v) {
      assert SoftBetter(llr, v, r);
      SoftTie(llr, v);
      FirstOneWay(v, r);
    }
  }

  // ---- on the channel, at either rate ------------------------------------------------------------------

  lemma ChannelFlips(rate: Rate, recv: seq<Symbol>, v: seq<Bit>)
    ensures Flips(Word(rate, recv, |v|), Encode(v), |Encode(v)|)
         == Flips(recv, Transmitted(rate, v), |Transmitted(rate, v)|)
  {
    hide Flips, Codeword, Rebuilt, Punctured, Sent;
    if !rate.Half? { RebuiltErrors(recv, v, |v| + 2); }
  }

  /** Payload v explains the channel word at least as well as x, and where they tie it is first. */
  ghost predicate Explains(rate: Rate, recv: seq<Symbol>, v: seq<Bit>, x: seq<Bit>) {
    var f := Flips(recv, Transmitted(rate, v), |Transmitted(rate, v)|);
    var g := Flips(recv, Transmitted(rate, x), |Transmitted(rate, x)|);
    f < g || (f == g && First(v, x))
  }

  /** The hard decoder of either rate, exactly: if some payload c fits the channel word with fewer than 2^30 mismatches,
      the payload returned is the first of those that fit it best. */
  lemma ReceivedIsFirstOfBest(rate: Rate, recv: seq<Symbol>, c: seq<Bit>, v: seq<Bit>)
    requires |c| == |v| && (rate.Half? ==> |recv| == |Encode(v)|)
    requires Flips(recv, Transmitted(rate, c), |Transmitted(rate, c)|) < HARD_INF
    ensures Received(rate, recv, |v|) == v <==> forall x: seq<Bit> :: |x| == |v| ==> Explains(rate, recv, v, x)
  {
    hide Flips, Encode, Transmitted, HardBits, First, Decodable, Word34;
    var w := Word(rate, recv, |v|);
    SparseErrors.FitsOnChannel(rate, recv, c) by { assert |Encode(c)| == |Encode(v)|; }
    HardBitsIsFirstOfBest(w, v);
    ChannelFlips(rate, recv, v);
    forall x: seq<Bit> | |x| == |v| ensures HardBetter(w, v, x) <==> Explains(rate, recv, v, x) {
      ChannelFlips(rate, recv, x);
    }
  }

  /** The ratios that the soft decoder of either rate works on. */
  function RatioWord(rate: Rate, llr: seq<real>, n: nat): seq<real> { if rate.Half? then llr else LlrWord34(llr, n) }

  lemma ChannelCorrelation(rate: Rate, llr: seq<real>, v: seq<Bit>)
    ensures Correlation(RatioWord(rate, llr, |v|), Encode(v), |Encode(v)|)
         == Correlation(llr, Transmitted(rate, v), |Transmitted(rate, v)|)
    ensures Reliability(RatioWord(rate, llr, |v|), |Encode(v)|) == Reliability(llr, |Transmitted(rate, v)|)
  {
    hide Correlation, Reliability, Codeword, Rebuilt, Punctured, Sent;
    if !rate.Half? { RebuiltRatios(llr, v, |v| + 2); }
  }

  ghost predicate SoftExplains(rate: Rate, llr: seq<real>, v: seq<Bit>, x: seq<Bit>) {
    var f := Correlation(llr, Transmitted(rate, v), |Transmitted(rate, v)|);
    var g := Correlation(llr, Transmitted(rate, x), |Transmitted(rate, x)|);
    f < g || (f == g && First(v, x))
  }

  /** The soft decoder of either rate, exactly, below the sentinel. */
  lemma ReceivedSoftIsFirstOfBest(rate: Rate, llr: seq<real>, v: seq<Bit>)
    requires rate.Half? ==> |llr| == |Encode(v)|
    requires Reliability(llr, |Transmitted(rate, v)|) < SOFT_INF
    ensures ReceivedSoft(rate, llr, |v|) == v <==> forall x: seq<Bit> :: |x| == |v| ==> SoftExplains(rate, llr, v, x)
  {
    hide Correlation, Reliability, Codeword, Transmitted, SoftBits, First, Rebuilt;
    var w := RatioWord(rate, llr, |v|);
    ChannelCorrelation(rate, llr, v);
    assert |w| / 2 == |v| + 2;
    SoftBitsIsFirstOfBest(w, v);
    forall x: seq<Bit> | |x| == |v| ensures SoftBetter(w, v, x) <==> SoftExplains(rate, llr, v, x) {
      ChannelCorrelation(rate, llr, x);
    }
  }
}
