/** The sentinel 1 << 30 of the hard decoder in gr_autopilot/coding.py: how far optimality reaches. */
module HardSentinel {
  import opened Trellis
  import opened Viterbi
  import opened ConvCode
  import opened HardDecoder
  import opened ErrorCorrection
  import Soft = SoftDecoder

  /** Wherever some payload fits with fewer than bound mismatches, the decoder returns a best one. */
  ghost predicate OptimalBelow(bound: int) {
    forall recv: seq<Symbol>, c: seq<Bit>, u: seq<Bit> ::
      |recv| == |Encode(c)| == |Encode(u)| && Flips(recv, Encode(c), |recv|) < bound ==>
        Flips(recv, Encode(HardBits(recv, |u|)), |recv|) <= Flips(recv, Encode(u), |recv|)
  }

  // ---- a word that every path pays for -----------------------------------------------

  /** n blocks of three steps, none of which any path matches. */
  function Blocks(n: nat): (r: seq<Symbol>)
    ensures |r| == 6 * n
  {
    if n == 0 then [] else Blocks(n - 1) + [1, 0, 0, 0, 0, 0]
  }

  const TAIL: seq<Symbol> := [1, 1, 1, 0, 1, 1]

  function Word(n: nat): (r: seq<Symbol>)
    ensures |r| == 6 * n + 6
  {
    Blocks(n) + TAIL
  }

  lemma {:induction false} BlocksAt(n: nat, m: nat, j: nat)
    requires m < n && j < 6
    ensures Blocks(n)[6 * m + j] == if j == 0 then 1 else 0
  {
    if m < n - 1 { BlocksAt(n - 1, m, j); }
  }

  lemma WordAt(n: nat, m: nat, j: nat)
    requires m <= n && j < 6
    ensures SymbolAt(Word(n), 6 * m + j) == if m < n then (if j == 0 then 1 else 0) else TAIL[j]
  {
    if m < n { BlocksAt(n, m, j); }
  }

  /** Mismatches of step t with the received pair (r0, r1). */
  function StepCost(p: seq<Bit>, t: nat, r0: Symbol, r1: Symbol): nat {
    Clash(r0, CodeBit(p, t, 0)) + Clash(r1, CodeBit(p, t, 1))
  }

  lemma StepPays(recv: seq<Symbol>, p: seq<Bit>, t: nat, r0: Symbol, r1: Symbol)
    requires SymbolAt(recv, 2 * t) == r0 && SymbolAt(recv, 2 * t + 1) == r1
    ensures PathCost(HardWeights(recv), p, t + 1) == PathCost(HardWeights(recv), p, t) + StepCost(p, t, r0, r1) as real
  {
    hide HardWeights, SymbolAt, StateAt, Tap, Out, Clash;
    WeightCost(recv, 2 * t, CodeBit(p, t, 0));
    WeightCost(recv, 2 * t + 1, CodeBit(p, t, 1));
  }

  /** The mismatches of three steps from t with six received symbols. */
  function TripleCost(p: seq<Bit>, t: nat, r: seq<Symbol>): nat
    requires |r| == 6
  {
    StepCost(p, t, r[0], r[1]) + StepCost(p, t + 1, r[2], r[3]) + StepCost(p, t + 2, r[4], r[5])
  }

  lemma TriplePays(n: nat, p: seq<Bit>, m: nat)
    requires m <= n
    ensures PathCost(HardWeights(Word(n)), p, 3 * m + 3)
         == PathCost(HardWeights(Word(n)), p, 3 * m)
          + TripleCost(p, 3 * m, if m < n then [1, 0, 0, 0, 0, 0] else TAIL) as real
  {
    hide Word, StepCost, PathCost, SymbolAt;
    var r: seq<Symbol> := if m < n then [1, 0, 0, 0, 0, 0] else TAIL;
    forall j: nat | j < 6 ensures SymbolAt(Word(n), 6 * m + j) == r[j] { WordAt(n, m, j); }
    assert SymbolAt(Word(n), 6 * m + 0) == r[0];
    StepPays(Word(n), p, 3 * m, r[0], r[1]);
    StepPays(Word(n), p, 3 * m + 1, r[2], r[3]);
    StepPays(Word(n), p, 3 * m + 2, r[4], r[5]);
  }

  lemma CodeBits(p: seq<Bit>, t: nat)
    ensures CodeBit(p, t, 0) == Xor(Xor(Tap(p, t), Tap(p, t - 1)), Tap(p, t - 2))
    ensures CodeBit(p, t, 1) == Xor(Tap(p, t), Tap(p, t - 2))
  {
    hide Tap;
    StateBits(p, t);
  }

  /** The parity check of the code: no path spells 10 00 00. */
  lemma NoFreeBlock(p: seq<Bit>, t: nat)
    ensures TripleCost(p, t, [1, 0, 0, 0, 0, 0]) >= 1
  {
    hide Tap, CodeBit;
    CodeBits(p, t);
    CodeBits(p, t + 1);
    CodeBits(p, t + 2);
  }

  lemma {:induction false} EveryPathPays(n: nat, p: seq<Bit>, m: nat)
    requires m <= n
    ensures PathCost(HardWeights(Word(n)), p, 3 * m) >= m as real
  {
    hide Word, TripleCost;
    if m > 0 {
      EveryPathPays(n, p, m - 1);
      TriplePays(n, p, m - 1);
      NoFreeBlock(p, 3 * (m - 1));
      hide PathCost;
    }
  }

  /** The tail 11 10 11 fits a final 1 better than a final 0, whatever came before. */
  lemma TailPrefersOne(p: seq<Bit>, t: nat)
    requires Tap(p, t + 1) == Tap(p, t + 2) == 0
    ensures if Tap(p, t) == 1 then TripleCost(p, t, TAIL) <= 2 + Tap(p, t - 1)
            else TripleCost(p, t, TAIL) >= 3 + Tap(p, t - 1)
    ensures Tap(p, t) == 1 && Tap(p, t - 1) == Tap(p, t - 2) == 0 ==> TripleCost(p, t, TAIL) == 0
  {
    hide Tap, CodeBit;
    CodeBits(p, t);
    CodeBits(p, t + 1);
    CodeBits(p, t + 2);
  }

  // ---- what the decoder makes of it -----------------------------------------------------

  /** No state is reached. */
  ghost predicate AllLost(m: Metrics, inf: real) { forall s: State :: m.Of(s) >= inf }

  /** Once every state is lost it stays lost, and the traceback reads zeros. */
  lemma LostStaysLost(w: seq<Weight>, inf: real, t: nat)
    requires AllLost(MetricsAt(w, inf, t), inf)
    ensures AllLost(MetricsAt(w, inf, t + 1), inf)
    ensures Trace(w, inf, t + 1, 0) == Trace(w, inf, t, 0) + [0]
  {
    hide MetricsAt, BranchCost, Survivor;
    var m := MetricsAt(w, inf, t + 1);
    forall s: State ensures m.Of(s) >= inf && CellAt(w, inf, t, s) == Fresh(inf) {
      var c := Survivor(MetricsAt(w, inf, t), w, inf, t, s);
      SurvivorIsABranch(MetricsAt(w, inf, t), w, inf, t, s);
      assert MetricsAt(w, inf, t).Of(c.from) >= inf;
      MetricOfCell(w, inf, t, s);
    }
    assert AllLost(m, inf) by {
      forall s: State ensures m.Of(s) >= inf { assert CellAt(w, inf, t, s) == Fresh(inf); MetricOfCell(w, inf, t, s); }
    }
  }

  /** Whatever the rest of the word says: from a step at which every state is lost on, zeros are read. */
  lemma {:induction false} LostReadsZeros(w: seq<Weight>, inf: real, t: nat, n: nat)
    requires AllLost(MetricsAt(w, inf, t), inf)
    ensures AllLost(MetricsAt(w, inf, t + n), inf)
    ensures Trace(w, inf, t + n, 0) == Trace(w, inf, t, 0) + Zeros(n)
  {
    hide AllLost, MetricsAt, Trace;
    if n > 0 {
      LostReadsZeros(w, inf, t, n - 1);
      LostStaysLost(w, inf, t + n - 1);
    }
  }

  function Zeros(k: nat): (z: seq<Bit>)
    ensures |z| == k
  {
    seq(k, i => 0)
  }

  lemma WordLosesAll(n: nat)
    ensures AllLost(MetricsAt(HardWeights(Word(n)), n as real, 3 * n), n as real)
  {
    hide MetricsAt, Word, PathCost, Trace, StateAt, HardWeights;
    var w, inf := HardWeights(Word(n)), n as real;
    forall s: State ensures MetricsAt(w, inf, 3 * n).Of(s) >= inf {
      if MetricsAt(w, inf, 3 * n).Of(s) < inf {
        TraceIsAPath(w, inf, 3 * n, s);
        EveryPathPays(n, Trace(w, inf, 3 * n, s), n);
      }
    }
  }

  lemma DecodesToZero(n: nat)
    ensures Decode(HardWeights(Word(n)), n as real) == Trace(HardWeights(Word(n)), n as real, 3 * n, 0) + [0, 0, 0]
  {
    hide MetricsAt, Word, HardWeights, CellAt, Trace;
    var w, inf := HardWeights(Word(n)), n as real;
    WordLosesAll(n);
    LostReadsZeros(w, inf, 3 * n, 3);
    assert |w| / 2 == 3 * n + 3;
  }

  // ---- the payloads it is compared with ---------------------------------------------------

  /** Changing the final bit of the answer to 1 is strictly better. */
  lemma OneIsBetter(n: nat, q: seq<Bit>)
    requires |q| == 3 * n
    ensures Flips(Word(n), Encode(q + [1]), 6 * n + 6) < Flips(Word(n), Encode(q + [0]), 6 * n + 6)
  {
    hide Word, HardWeights, PathCost, Flips, TripleCost, Codeword;
    var w, a, b := HardWeights(Word(n)), q + [0], q + [1];
    PathCostPrefix(w, a, b, 3 * n);
    TriplePays(n, a, n);
    TriplePays(n, b, n);
    TailPrefersOne(a, 3 * n);
    TailPrefersOne(b, 3 * n);
    PathCostIsFlips(Word(n), a, 3 * n + 3, 3 * n + 3);
    PathCostIsFlips(Word(n), b, 3 * n + 3, 3 * n + 3);
  }

  lemma {:induction false} ZerosPayOneABlock(n: nat, u: seq<Bit>, m: nat)
    requires m <= n && forall i: int :: i < 3 * n ==> Tap(u, i) == 0
    ensures PathCost(HardWeights(Word(n)), u, 3 * m) == m as real
  {
    hide Word, HardWeights;
    if m > 0 {
      ZerosPayOneABlock(n, u, m - 1);
      TriplePays(n, u, m - 1);
      var t := 3 * (m - 1);
      CodeBits(u, t);
      CodeBits(u, t + 1);
      CodeBits(u, t + 2);
      hide PathCost, Tap, CodeBit;
      assert TripleCost(u, t, [1, 0, 0, 0, 0, 0]) == 1;
    }
  }

  /** Zeros and a final 1 mismatch the word in exactly one position a block. */
  lemma BestFit(n: nat)
    ensures Flips(Word(n), Encode(Zeros(3 * n) + [1]), 6 * n + 6) == n
  {
    hide Word, HardWeights, PathCost, Flips, TripleCost, Codeword;
    var u := Zeros(3 * n) + [1];
    ZerosPayOneABlock(n, u, n);
    TriplePays(n, u, n);
    TailPrefersOne(u, 3 * n);
    PathCostIsFlips(Word(n), u, 3 * n + 3, 3 * n + 3);
  }

  /** The sentinel is the exact limit: the hard decoder is optimal wherever some payload fits with
      fewer than 2^30 mismatches, and for no larger bound. */
  lemma HardSentinelIsTheBound(bound: int)
    ensures OptimalBelow(bound) <==> bound <= HARD_INF
  {
    hide HardBits, Flips, Codeword, Decode, HardWeights;
    if bound <= HARD_INF {
      forall recv: seq<Symbol>, c: seq<Bit>, u: seq<Bit> |
        |recv| == |Encode(c)| == |Encode(u)| && Flips(recv, Encode(c), |recv|) < bound
        ensures Flips(recv, Encode(HardBits(recv, |u|)), |recv|) <= Flips(recv, Encode(u), |recv|)
      {
        HardIsMaximumLikelihood(recv, u);
      }
    } else {
      Fails(HARD_INF, bound);
    }
  }

  lemma Fails(n: nat, bound: int)
    requires n == HARD_INF < bound
    ensures !OptimalBelow(bound)
  {
    hide Flips, Codeword, Decode, HardWeights, Word, Trace;
    var recv, q := Word(n), Trace(HardWeights(Word(n)), n as real, 3 * n, 0);
    DecodesToZero(n);
    assert HardBits(recv, 3 * n + 1) == q + [0];
    OneIsBetter(n, q);
    BestFit(n);
    var c, u := Zeros(3 * n) + [1], q + [1];
    assert |u| == 3 * n + 1 && |c| == 3 * n + 1;
    assert |recv| == |Encode(c)| == |Encode(u)|;
    hide Encode, HardBits, Zeros;
    assert Flips(recv, Encode(c), |recv|) < bound;
    assert !(Flips(recv, Encode(HardBits(recv, |u|)), |recv|) <= Flips(recv, Encode(u), |recv|));
  }

  // ---- agreement of the two decoders ------------------------------------------------------

  /** Wherever some payload fits with fewer than bound mismatches, both decoders return the same bits. */
  ghost predicate AgreeBelow(bound: int) {
    forall recv: seq<Symbol>, c: seq<Bit> :: |recv| == |Encode(c)| && Flips(recv, Encode(c), |recv|) < bound ==>
      Soft.SoftBits(Soft.ConfidentLlr(recv), |c|) == HardBits(recv, |c|)
  }

  lemma {:induction false} CorrelationIsFlips(recv: seq<Symbol>, c: seq<Bit>, n: nat)
    ensures Soft.Correlation(Soft.ConfidentLlr(recv), c, n)
         == (2 * Flips(recv, c, n) + Erasures(recv, n) - n) as real
  {
    if n > 0 {
      CorrelationIsFlips(recv, c, n - 1);
      OneTerm(recv, n - 1, Tap(c, n - 1));
      hide Clash, Lost, SymbolAt, Soft.Term, Soft.LlrAt;
    }
  }

  lemma OneTerm(recv: seq<Symbol>, i: nat, c: Bit)
    ensures Soft.Term(Soft.LlrAt(Soft.ConfidentLlr(recv), i), c)
         == (2 * Clash(SymbolAt(recv, i), c) + Lost(SymbolAt(recv, i)) - 1) as real
  {
  }

  /** On the word that loses every path of the hard decoder, the soft one still finds a best payload. */
  lemma SoftStillOptimal(n: nat, v: seq<Bit>)
    requires 1 <= n <= HARD_INF && |v| == 3 * n + 1
    ensures var s := Soft.SoftBits(Soft.ConfidentLlr(Word(n)), 3 * n + 1);
            Flips(Word(n), Encode(s), 6 * n + 6) <= Flips(Word(n), Encode(v), 6 * n + 6)
  {
    hide Flips, Codeword, Word, Soft.SoftBits, Soft.Correlation, Soft.Reliability, Decode, Erasures, Soft.ConfidentLlr;
    var llr := Soft.ConfidentLlr(Word(n));
    Soft.ConfidentReliability(Word(n), 6 * n + 6);
    Soft.SoftIsOptimal(llr, v);
    var s := Soft.SoftBits(llr, 3 * n + 1);
    CorrelationIsFlips(Word(n), Encode(s), 6 * n + 6);
    CorrelationIsFlips(Word(n), Encode(v), 6 * n + 6);
  }

  /** Agreement reaches exactly as far as the hard sentinel. */
  lemma AgreementIsTheBound(bound: int)
    ensures AgreeBelow(bound) <==> bound <= HARD_INF
  {
    hide HardBits, Flips, Codeword, Decode, HardWeights, Soft.SoftBits;
    if bound <= HARD_INF {
      forall recv: seq<Symbol>, c: seq<Bit> | |recv| == |Encode(c)| && Flips(recv, Encode(c), |recv|) < bound
        ensures Soft.SoftBits(Soft.ConfidentLlr(recv), |c|) == HardBits(recv, |c|)
      {
        DecodableFits(recv, |c|);
        Soft.SoftRefinesHard(recv, |c|);
      }
    } else {
      Disagree(HARD_INF, bound);
    }
  }

  lemma Disagree(n: nat, bound: int)
    requires n == HARD_INF < bound
    ensures !AgreeBelow(bound)
  {
    hide Flips, Codeword, Decode, HardWeights, Word, Trace, Soft.SoftBits;
    var recv, q := Word(n), Trace(HardWeights(Word(n)), n as real, 3 * n, 0);
    DecodesToZero(n);
    assert HardBits(recv, 3 * n + 1) == q + [0];
    OneIsBetter(n, q);
    BestFit(n);
    SoftStillOptimal(n, q + [1]);
    var c := Zeros(3 * n) + [1];
    assert |c| == 3 * n + 1 && |recv| == |Encode(c)| by { hide Word; }
    hide Encode, HardBits, Zeros;
    assert Flips(recv, Encode(c), |recv|) < bound;
    assert Soft.SoftBits(Soft.ConfidentLlr(recv), |c|) != HardBits(recv, |c|);
  }
}
