/** gr_autopilot/coding.py: errors may be many as long as they are sparse. A detour of the decoder off the payload's
    path pays more transmitted bits the longer it lasts, so the errors in every window count, not those in the word. */
module SparseErrors {
  import opened Basics
  import opened Trellis
  import opened Viterbi
  import opened ConvCode
  import opened HardDecoder
  import opened ErrorCorrection
  import opened Puncturing
  import opened Coding
  import Link = CodedLink
  import Prbs

  // ---- weight grows with length ----------------------------------------------------------------

  /** A detour of L steps transmits at least (L + Allowance) / Steps ones: one more for every two steps, or every six
      at rate 3/4. */
  function Steps(rate: Rate): nat { if rate.Half? then 2 else 6 }

  function Allowance(rate: Rate): nat { if rate.Half? then 7 else 10 }

  /** How much of it a detour that is in state s before step t has paid for already. */
  function Reserve(rate: Rate, s: State, t: nat): int {
    match s
    case 0 => 0
    case 1 => if rate.Half? then 4 else if t % 3 == 0 then 4 else if t % 3 == 1 then 6 else 5
    case 2 => if rate.Half? then 3 else if t % 3 == 0 then 4 else if t % 3 == 1 then 3 else 5
    case _ => if rate.Half? then 4 else if t % 3 == 0 then 1 else if t % 3 == 1 then 6 else 2
  }

  lemma ReserveStep(rate: Rate, s: State, b: Bit, t: nat)
    ensures var paid := Steps(rate) * KeptOnes(rate, t, Out(s, b, 0), Out(s, b, 1)) - 1;
            && (s == 0 && b == 1 ==> Reserve(rate, Next(s, b), t + 1) <= paid)
            && (s != 0 && Next(s, b) != 0 ==> Reserve(rate, Next(s, b), t + 1) <= Reserve(rate, s, t) + paid)
            && (s != 0 && Next(s, b) == 0 ==> Allowance(rate) <= Reserve(rate, s, t) + paid)
  {
    PhaseStep(t);
  }

  /** The path of d leaves state 0 at step a and has not been back before step b. */
  ghost predicate Away(d: seq<Bit>, a: nat, b: nat) {
    a < b && StateAt(d, a) == 0 && Tap(d, a) == 1 && forall t: nat :: a < t < b ==> StateAt(d, t) != 0
  }

  function Product(k: nat, x: int): int { k * x }

  lemma ProductOfSum(k: nat, x: int, y: int)
    ensures Product(k, x + y) == Product(k, x) + Product(k, y)
  {
  }

  lemma {:induction false} AwayWeight(rate: Rate, d: seq<Bit>, a: nat, t: nat)
    requires Away(d, a, t)
    ensures KeptWeight(rate, d, a) <= KeptWeight(rate, d, t)
    ensures var paid := Product(Steps(rate), KeptWeight(rate, d, t) - KeptWeight(rate, d, a));
            if StateAt(d, t) == 0 then t - a + Allowance(rate) <= paid
            else t - a + Reserve(rate, StateAt(d, t), t) <= paid
    decreases t
  {
    hide Out, Next, KeptOnes, Reserve, Allowance, Steps, Product;
    var s, b := StateAt(d, t - 1), Tap(d, t - 1);
    var ones := KeptOnes(rate, t - 1, CodeBit(d, t - 1, 0), CodeBit(d, t - 1, 1));
    StateStep(d, t - 1);
    ReserveStep(rate, s, b, t - 1);
    ProductIs(Steps(rate), ones);
    assert KeptWeight(rate, d, t) == KeptWeight(rate, d, t - 1) + ones;
    if t - 1 > a {
      hide StateAt, Tap, CodeBit;
      AwayWeight(rate, d, a, t - 1);
      ProductOfSum(Steps(rate), KeptWeight(rate, d, t - 1) - KeptWeight(rate, d, a), ones);
    } else {
      NeverBackAtOnce(d, a);
    }
  }

  lemma ProductIs(k: nat, x: int)
    ensures Product(k, x) == k * x
  {
  }

  lemma NeverBackAtOnce(d: seq<Bit>, a: nat)
    requires Tap(d, a) == 1
    ensures StateAt(d, a + 1) != 0
  {
  }

  // ---- the first detour ------------------------------------------------------------------------

  lemma {:induction false} FirstReturn(d: seq<Bit>, a: nat, t: nat, n: nat) returns (b: nat)
    requires Away(d, a, t) && t <= n && StateAt(d, n) == 0
    ensures t <= b <= n && Away(d, a, b) && StateAt(d, b) == 0
    decreases n - t
  {
    hide StateAt, Tap;
    if StateAt(d, t) == 0 { b := t; } else { b := FirstReturn(d, a, t + 1, n); }
  }

  lemma {:induction false} FirstDifference(u: seq<Bit>, v: seq<Bit>, k: nat) returns (a: nat)
    requires |u| == |v| && k < |u| && u[k] != v[k]
    ensures a < |u| && u[a] != v[a] && forall i :: 0 <= i < a ==> u[i] == v[i]
    decreases k
  {
    a := k;
    if i: nat :| i < k && u[i] != v[i] { a := FirstDifference(u, v, i); }
  }

  /** Two payloads part at some step and meet again, at the latest in the tail. */
  lemma FirstDetour(u: seq<Bit>, v: seq<Bit>) returns (a: nat, b: nat)
    requires |u| == |v| && u != v
    ensures a + 3 <= b <= |u| + 2 && Away(Difference(u, v), a, b) && StateAt(Difference(u, v), b) == 0
  {
    var d := Difference(u, v);
    var k :| 0 <= k < |u| && u[k] != v[k];
    a := FirstDifference(u, v, k);
    DifferenceTap(u, v, a);
    DifferenceTap(u, v, a - 1);
    DifferenceTap(u, v, a - 2);
    assert |d| == |u| && StateAt(d, |u| + 2) == 0;
    hide Difference;
    b := FirstReturn(d, a, a + 1, |u| + 2);
    assert Tap(d, b - 1) == Tap(d, b - 2) == 0;
  }

  lemma SameState(u: seq<Bit>, v: seq<Bit>, t: nat)
    requires StateAt(Difference(u, v), t) == 0
    ensures Tap(u, t - 1) == Tap(v, t - 1) && Tap(u, t - 2) == Tap(v, t - 2)
  {
    DifferenceTap(u, v, t - 1);
    DifferenceTap(u, v, t - 2);
    hide Difference, Tap;
  }

  // ---- exchanging a detour -----------------------------------------------------------------------

  /** The inputs of v, with those of u from step a to step b. */
  function Spliced(u: seq<Bit>, v: seq<Bit>, a: nat, b: nat): (x: seq<Bit>)
    ensures |x| == |v|
  {
    seq(|v|, i requires 0 <= i < |v| => if a <= i < b then Tap(u, i) else v[i])
  }

  lemma SplicedTap(u: seq<Bit>, v: seq<Bit>, a: nat, b: nat, i: int)
    requires |u| == |v|
    ensures Tap(Spliced(u, v, a, b), i) == if a <= i < b then Tap(u, i) else Tap(v, i)
  {
  }

  lemma {:induction false} SameSteps(w: seq<Weight>, p: seq<Bit>, q: seq<Bit>, a: nat, t: nat)
    requires a <= t && Agree(p, q, a - 2, t)
    ensures PathCost(w, p, t) - PathCost(w, p, a) == PathCost(w, q, t) - PathCost(w, q, a)
    decreases t
  {
    hide BranchCost, Tap;
    if a < t { SameSteps(w, p, q, a, t - 1); }
  }

  ghost predicate Agree(p: seq<Bit>, q: seq<Bit>, a: int, b: int) {
    forall i: int :: a <= i < b ==> Tap(p, i) == Tap(q, i)
  }

  lemma SplicedAgrees(u: seq<Bit>, v: seq<Bit>, a: nat, b: nat, n: nat)
    requires |u| == |v| && a <= b <= n
    requires StateAt(Difference(u, v), a) == StateAt(Difference(u, v), b) == 0
    ensures var x := Spliced(u, v, a, b);
            Agree(x, v, 0, a) && Agree(x, u, a - 2, b) && Agree(x, v, b - 2, n)
  {
    SameState(u, v, a);
    SameState(u, v, b);
    hide Tap, Spliced, Difference, StateAt;
    forall i: int ensures Tap(Spliced(u, v, a, b), i) == if a <= i < b then Tap(u, i) else Tap(v, i) {
      SplicedTap(u, v, a, b, i);
    }
  }

  lemma SplicedCost(w: seq<Weight>, u: seq<Bit>, v: seq<Bit>, a: nat, b: nat, n: nat)
    requires |u| == |v| && a <= b <= n
    requires StateAt(Difference(u, v), a) == StateAt(Difference(u, v), b) == 0
    ensures PathCost(w, Spliced(u, v, a, b), n)
         == PathCost(w, v, n) - (PathCost(w, v, b) - PathCost(w, v, a)) + (PathCost(w, u, b) - PathCost(w, u, a))
  {
    hide Tap, Spliced, PathCost, Difference, StateAt;
    var x := Spliced(u, v, a, b);
    SplicedAgrees(u, v, a, b, n);
    PathCostPrefix(w, x, v, a);
    SameSteps(w, x, u, a, b);
    SameSteps(w, x, v, b, n);
  }

  lemma {:induction false} SegmentTriangle(rate: Rate, recv: seq<Symbol>, p: seq<Bit>, q: seq<Bit>, a: nat, t: nat)
    requires a <= t
    ensures (KeptDistance(rate, p, q, t) - KeptDistance(rate, p, q, a)) as real
         <= (KeptErasures(rate, recv, t) - KeptErasures(rate, recv, a)) as real
          + (PathCost(HardWeights(recv), p, t) - PathCost(HardWeights(recv), p, a))
          + (PathCost(HardWeights(recv), q, t) - PathCost(HardWeights(recv), q, a))
    decreases t
  {
    hide StepDistance, StepErasures, BranchCost, CodeBit, HardWeights, StateAt, Tap;
    if a < t {
      SegmentTriangle(rate, recv, p, q, a, t - 1);
      StepTriangle(rate, recv, p, q, t - 1);
    }
  }

  // ---- sparse errors are corrected -----------------------------------------------------------------

  /** Flips against payload u, and transmitted positions lost, from step a to step b. */
  function FlipsIn(recv: seq<Symbol>, u: seq<Bit>, a: nat, b: nat): int {
    Flips(recv, Encode(u), 2 * b) - Flips(recv, Encode(u), 2 * a)
  }

  function LossesIn(rate: Rate, recv: seq<Symbol>, a: nat, b: nat): int {
    KeptErasures(rate, recv, b) - KeptErasures(rate, recv, a)
  }

  /** The errors of this window are fewer than a detour of its length could use. */
  ghost predicate SparseIn(rate: Rate, recv: seq<Symbol>, u: seq<Bit>, a: nat, b: nat) {
    Product(Steps(rate), 2 * FlipsIn(recv, u, a, b) + LossesIn(rate, recv, a, b)) < b - a + Allowance(rate)
  }

  lemma CancelProduct(k: nat, x: int, y: int)
    requires Product(k, x) < Product(k, y)
    ensures x < y
  {
    assert x >= y ==> k * x >= k * y;
  }

  lemma DetourIsDearer(rate: Rate, recv: seq<Symbol>, u: seq<Bit>, v: seq<Bit>, a: nat, b: nat)
    requires Away(Difference(u, v), a, b) && StateAt(Difference(u, v), b) == 0 && b <= |u| + 2
    requires SparseIn(rate, recv, u, a, b)
    ensures var w := HardWeights(recv);
            PathCost(w, u, b) - PathCost(w, u, a) < PathCost(w, v, b) - PathCost(w, v, a)
  {
    hide Difference, StateAt, KeptDistance, KeptErasures, KeptWeight, PathCost, HardWeights, Flips, Codeword, Product,
         Steps, Away;
    var n := |u| + 2;
    AwayWeight(rate, Difference(u, v), a, b);
    DistanceIsWeight(rate, u, v, a);
    DistanceIsWeight(rate, u, v, b);
    PathCostIsFlips(recv, u, n, a) by { assert a <= n by { AwayOrdered(Difference(u, v), a, b); } }
    PathCostIsFlips(recv, u, n, b);
    SegmentTriangle(rate, recv, u, v, a, b) by { AwayOrdered(Difference(u, v), a, b); }
    CancelProduct(Steps(rate), 2 * FlipsIn(recv, u, a, b) + LossesIn(rate, recv, a, b),
                  KeptDistance(rate, u, v, b) - KeptDistance(rate, u, v, a));
  }

  lemma AwayOrdered(d: seq<Bit>, a: nat, b: nat)
    requires Away(d, a, b)
    ensures a < b
  {
  }

  /** A payload that differs from u is dearer than one that does not leave u on its first detour. */
  lemma NotBest(rate: Rate, recv: seq<Symbol>, u: seq<Bit>, v: seq<Bit>) returns (x: seq<Bit>)
    requires |u| == |v| && u != v
    requires forall a: nat, b: nat :: a + 3 <= b <= |u| + 2 ==> SparseIn(rate, recv, u, a, b)
    ensures |x| == |u| && Flips(recv, Encode(x), |Encode(x)|) < Flips(recv, Encode(v), |Encode(v)|)
  {
    var n, w := |u| + 2, HardWeights(recv);
    hide Difference, StateAt, PathCost, HardWeights, Flips, Codeword, SparseIn, Tap;
    var a, b := FirstDetour(u, v);
    assert SparseIn(rate, recv, u, a, b);
    DetourIsDearer(rate, recv, u, v, a, b);
    SplicedCost(w, u, v, a, b, n);
    x := Spliced(u, v, a, b);
    PathCostIsFlips(recv, x, n, n);
    PathCostIsFlips(recv, v, n, n);
  }

  /** However many errors the word holds in all: if every window of steps holds few enough for its length, and some
      payload fits the word at all, the decoder returns the payload that was sent. */
  lemma SparseErrorsCorrected(rate: Rate, recv: seq<Symbol>, u: seq<Bit>)
    requires Decodable(recv, |u|)
    requires forall a: nat, b: nat :: a + 3 <= b <= |u| + 2 ==> SparseIn(rate, recv, u, a, b)
    ensures HardBits(recv, |u|) == u
  {
    hide HardBits, Decode, HardWeights, Decodable, Flips, Codeword, SparseIn;
    HardIsMaximumLikelihood(recv, u);
    if HardBits(recv, |u|) != u {
      var x := NotBest(rate, recv, u, HardBits(recv, |u|));
      HardIsMaximumLikelihood(recv, x);
    }
  }

  // ---- on the channel ------------------------------------------------------------------------------

  /** The channel bits sent before step t. */
  function Position(rate: Rate, t: nat): nat { if rate.Half? then 2 * t else Sent(PUNCT_R34, t) }

  /** Twice the flips, and the losses, among the channel bits of the steps from a to b. */
  function ErrorsIn(rate: Rate, recv: seq<Symbol>, u: seq<Bit>, a: nat, b: nat): int {
    var sent, i, k := Transmitted(rate, u), Position(rate, a), Position(rate, b);
    2 * (Flips(recv, sent, k) - Flips(recv, sent, i)) + (Erasures(recv, k) - Erasures(recv, i))
  }

  ghost predicate Sparse(rate: Rate, recv: seq<Symbol>, u: seq<Bit>) {
    forall a: nat, b: nat :: a + 3 <= b <= |u| + 2 ==>
      Product(Steps(rate), ErrorsIn(rate, recv, u, a, b)) < b - a + Allowance(rate)
  }

  lemma ErrorsOfWord(rate: Rate, recv: seq<Symbol>, u: seq<Bit>, a: nat, b: nat)
    requires a <= b <= |u| + 2
    ensures var w := Word(rate, recv, |u|);
            ErrorsIn(rate, recv, u, a, b) == 2 * FlipsIn(w, u, a, b) + LossesIn(rate, w, a, b)
  {
    hide Flips, Erasures, KeptErasures, Encode, Stream34, Word34, Sent;
    if rate.Half? {
      HalfKeepsAll(recv, a);
      HalfKeepsAll(recv, b);
    } else {
      RebuiltErrors(recv, u, a);
      RebuiltErrors(recv, u, b);
    }
  }

  lemma FitsOnChannel(rate: Rate, recv: seq<Symbol>, c: seq<Bit>)
    requires rate.Half? ==> |recv| == |Encode(c)|
    requires Flips(recv, Transmitted(rate, c), |Transmitted(rate, c)|) < HARD_INF
    ensures Decodable(Word(rate, recv, |c|), |c|)
  {
    hide Flips, Codeword, Stream34, Word34, Sent;
    var w, n := Word(rate, recv, |c|), |c|;
    if !rate.Half? {
      RebuiltErrors(recv, c, n + 2);
      StreamLength(c);
      WordLength(recv, n);
    }
    assert |c| == n && Flips(w, Encode(c), 2 * (n + 2)) < HARD_INF;
  }

  lemma StreamLength(c: seq<Bit>)
    ensures |Stream34(c)| == Sent(PUNCT_R34, |c| + 2)
  {
  }

  lemma WordLength(recv: seq<Symbol>, n: nat)
    ensures |Word34(recv, n)| == 2 * (n + 2)
  {
  }

  /** At either rate: errors that are sparse in every window of channel bits are all corrected, as long as some
      payload fits with fewer than 2^30 mismatches. */
  lemma SparseLinkCorrects(rate: Rate, recv: seq<Symbol>, u: seq<Bit>, c: seq<Bit>)
    requires |c| == |u| && (rate.Half? ==> |recv| == |Encode(u)|)
    requires Flips(recv, Transmitted(rate, c), |Transmitted(rate, c)|) < HARD_INF
    requires Sparse(rate, recv, u)
    ensures Received(rate, recv, |u|) == u
  {
    hide HardBits, Decodable, Flips, Encode, Transmitted, ErrorsIn, FlipsIn, LossesIn, Product, Position, Word34;
    var w := Word(rate, recv, |u|);
    FitsOnChannel(rate, recv, c) by { assert |Encode(c)| == |Encode(u)|; }
    forall a: nat, b: nat | a + 3 <= b <= |u| + 2 ensures SparseIn(rate, w, u, a, b) {
      ErrorsOfWord(rate, recv, u, a, b);
    }
    SparseErrorsCorrected(rate, w, u);
  }

  /** End to end: whatever the table and the channel, slicer errors that are sparse in this sense cost nothing. */
  lemma SparseLinkDelivers(table: Link.Table, coding: string, nPayloadBits: nat, order: Prbs.Taps, seed: int,
                           channel: Link.Channel, c: seq<Bit>)
    requires table.Valid() && Prbs.Supported(order) && RateOf(coding).Ok?
    requires var rate := RateOf(coding).value;
             var u := Link.InfoBits(rate, table.bps, nPayloadBits, order, seed);
             var word := Link.CodedBits(table, channel, rate, u);
             && Sparse(rate, word, u)
             && |c| == |u| && Flips(word, Transmitted(rate, c), |word|) < HARD_INF
    ensures var r := Link.RunLink(table, Some(coding), false, nPayloadBits, order, seed, channel);
            r.Ok? && r.value.rxBits == r.value.txBits
                  == Link.InfoBits(RateOf(coding).value, table.bps, nPayloadBits, order, seed)
  {
    var rate := RateOf(coding).value;
    var u := Link.InfoBits(rate, table.bps, nPayloadBits, order, seed);
    var word := Link.CodedBits(table, channel, rate, u);
    Link.HardTrial(table, coding, nPayloadBits, order, seed, channel);
    hide RateOf, Link.RunLink, Link.InfoBits, Link.CodedBits, Flips, Transmitted, Received, Sparse;
    Link.CodedBitsLength(table, channel, rate, u);
    TransmittedLength(rate, u);
    TransmittedLength(rate, c);
    Link.TransmittedAtHalf(rate, u);
    SparseLinkCorrects(rate, word, u, c);
  }

  // ---- the radius is a case of it ------------------------------------------------------------------

  /** Within half the free distance every window is sparse. */
  lemma RadiusIsSparse(rate: Rate, recv: seq<Symbol>, u: seq<Bit>, a: nat, b: nat)
    requires 2 * Flips(recv, Encode(u), |Encode(u)|) + KeptErasures(rate, recv, |u| + 2) < FreeDistance(rate)
    requires a + 3 <= b <= |u| + 2
    ensures SparseIn(rate, recv, u, a, b)
  {
    hide Flips, Codeword, KeptErasures;
    FlipsBetween(recv, Encode(u), 0, 2 * a);
    FlipsBetween(recv, Encode(u), 2 * a, 2 * b);
    FlipsBetween(recv, Encode(u), 2 * b, 2 * (|u| + 2));
    LossesGrow(rate, recv, 0, a);
    LossesGrow(rate, recv, b, |u| + 2);
    ProductIs(Steps(rate), 2 * FlipsIn(recv, u, a, b) + LossesIn(rate, recv, a, b));
    assert Flips(recv, Encode(u), 0) == 0 && KeptErasures(rate, recv, 0) == 0 by { NothingYet(rate, recv, u); }
  }

  lemma NothingYet(rate: Rate, recv: seq<Symbol>, u: seq<Bit>)
    ensures Flips(recv, Encode(u), 0) == 0 && KeptErasures(rate, recv, 0) == 0
  {
  }

  lemma {:induction false} LossesGrow(rate: Rate, recv: seq<Symbol>, m: nat, n: nat)
    requires m <= n
    ensures KeptErasures(rate, recv, m) <= KeptErasures(rate, recv, n)
    decreases n
  {
    hide StepErasures;
    if m < n { LossesGrow(rate, recv, m, n - 1); }
  }

  // ---- one flip in every four steps ----------------------------------------------------------------

  /** No four successive inputs, eight coded bits, hold more than one flip. */
  ghost predicate Spaced(recv: seq<Symbol>, u: seq<Bit>) {
    forall a: nat, b: nat :: a <= b <= a + 4 && b <= |u| + 2 ==> FlipsIn(recv, u, a, b) <= 1
  }

  lemma {:induction false} SpacedFlips(recv: seq<Symbol>, u: seq<Bit>, a: nat, b: nat)
    requires Spaced(recv, u) && a < b <= |u| + 2
    ensures 4 * FlipsIn(recv, u, a, b) <= b - a + 3
    decreases b
  {
    hide Flips, Encode;
    if b <= a + 4 {
      assert FlipsIn(recv, u, a, b) <= 1;
    } else {
      SpacedFlips(recv, u, a, b - 4);
      assert FlipsIn(recv, u, b - 4, b) <= 1;
    }
  }

  /** So at rate 1/2 one flip in every eight coded bits is harmless, in a word of any length. */
  lemma SpacedFlipsCorrected(recv: seq<Symbol>, u: seq<Bit>)
    requires |recv| == |Encode(u)| && Erasures(recv, |recv|) == 0 && Spaced(recv, u) && Decodable(recv, |u|)
    ensures HardBits(recv, |u|) == u
  {
    hide HardBits, Decodable, Flips, Codeword, Erasures, KeptErasures, Spaced;
    forall a: nat, b: nat | a + 3 <= b <= |u| + 2 ensures SparseIn(Half, recv, u, a, b) {
      SpacedFlips(recv, u, a, b);
      HalfKeepsAll(recv, a);
      HalfKeepsAll(recv, b);
      ErasuresGrow(recv, 2 * a, 2 * b);
      ErasuresGrow(recv, 2 * b, |recv|);
      ErasuresGrow(recv, 0, 2 * a);
    }
    SparseErrorsCorrected(Half, recv, u);
  }

  lemma {:induction false} ErasuresGrow(recv: seq<Symbol>, m: nat, n: nat)
    requires m <= n
    ensures Erasures(recv, m) <= Erasures(recv, n)
    decreases n
  {
    if m < n { ErasuresGrow(recv, m, n - 1); }
  }
}
