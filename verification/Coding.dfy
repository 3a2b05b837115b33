/** gr_autopilot/coding.py: the named codes, and sizing a payload to a channel budget. */
module Coding {
  import opened Basics
  import opened Trellis
  import opened Viterbi
  import opened ConvCode
  import opened HardDecoder
  import opened SoftDecoder
  import opened ErrorCorrection
  import opened Puncturing

  datatype Result<+T> = Ok(value: T) | UnknownCoding(name: string)

  function RateOf(coding: string): Result<Rate> {
    if coding == "conv_k3_r12" then Ok(Half)
    else if coding == "conv_k3_r34" then Ok(ThreeQuarters)
    else UnknownCoding(coding)
  }

  /** The channel bits of a payload. */
  function Transmitted(rate: Rate, u: seq<Bit>): seq<Bit> {
    if rate.Half? then Encode(u) else Stream34(u)
  }

  function Received(rate: Rate, recv: seq<Symbol>, n: nat): seq<Bit> {
    if rate.Half? then HardBits(recv, n) else HardBits(Word34(recv, n), n)
  }

  function LlrWord34(llr: seq<real>, n: nat): seq<real> { Rebuilt(PUNCT_R34, llr, 0.0, n + 2) }

  function ReceivedSoft(rate: Rate, llr: seq<real>, n: nat): seq<Bit> {
    if rate.Half? then SoftBits(llr, n) else SoftBits(LlrWord34(llr, n), n)
  }

  method CodingEncode(infoBits: seq<Bit>, coding: string) returns (r: Result<seq<Bit>>)
    ensures match RateOf(coding)
            case Ok(rate) => r == Ok(Transmitted(rate, infoBits))
            case UnknownCoding(name) => r == UnknownCoding(name)
  {
    hide Encode, Punctured;
    var coded := ConvEncode(infoBits);
    if coding == "conv_k3_r12" { return Ok(coded); }
    if coding == "conv_k3_r34" {
      var kept := Puncture(coded, PUNCT_R34);
      return Ok(kept);
    }
    return UnknownCoding(coding);
  }

  method CodingDecode(demod: seq<Symbol>, coding: string, nInfo: nat) returns (r: Result<seq<Bit>>)
    ensures match RateOf(coding)
            case Ok(rate) => r == Ok(Received(rate, demod, nInfo))
            case UnknownCoding(name) => r == UnknownCoding(name)
  {
    if coding == "conv_k3_r12" {
      var bits := ViterbiDecode(demod, nInfo);
      return Ok(bits);
    }
    if coding == "conv_k3_r34" {
      var word := Depuncture(demod, nInfo + 2, PUNCT_R34);
      var bits := ViterbiDecode(word, nInfo);
      return Ok(bits);
    }
    return UnknownCoding(coding);
  }

  method CodingDecodeSoft(llr: seq<real>, coding: string, nInfo: nat) returns (r: Result<seq<Bit>>)
    ensures match RateOf(coding)
            case Ok(rate) => r == Ok(ReceivedSoft(rate, llr, nInfo))
            case UnknownCoding(name) => r == UnknownCoding(name)
  {
    if coding == "conv_k3_r12" {
      var bits := ViterbiDecodeSoft(llr, nInfo);
      return Ok(bits);
    }
    if coding == "conv_k3_r34" {
      var word := DepunctureSoft(llr, nInfo + 2, PUNCT_R34);
      var bits := ViterbiDecodeSoft(word, nInfo);
      return Ok(bits);
    }
    return UnknownCoding(coding);
  }

  // ---- the link guarantee ----------------------------------------------------------

  /** Hard decoding inverts encoding within half the distance of the rate: with f flipped and e lost
      channel bits (erased, or missing from the end), 2 f + e < d_free. */
  lemma HardLinkCorrects(rate: Rate, recv: seq<Symbol>, u: seq<Bit>)
    requires rate.Half? ==> |recv| == |Encode(u)|
    requires var sent := Transmitted(rate, u);
             2 * Flips(recv, sent, |sent|) + Erasures(recv, |sent|) < FreeDistance(rate)
    ensures Received(rate, recv, |u|) == u
  {
    hide HardBits, Flips, Encode, Erasures, Stream34;
    if rate.Half? {
      HalfRateCorrects(recv, u);
    } else {
      ThreeQuarterRateCorrects(recv, u);
    }
  }

  /** What is received is a best explanation of the channel word at either rate: if some payload c fits it with
      fewer than 2^30 mismatches, no payload v fits it better than the payload returned. */
  lemma ReceivedIsBest(rate: Rate, recv: seq<Symbol>, c: seq<Bit>, v: seq<Bit>)
    requires |c| == |v| && (rate.Half? ==> |recv| == |Encode(v)|)
    requires Flips(recv, Transmitted(rate, c), |Transmitted(rate, c)|) < HARD_INF
    ensures var r := Received(rate, recv, |v|);
            |r| == |v| && Flips(recv, Transmitted(rate, r), |Transmitted(rate, r)|)
                       <= Flips(recv, Transmitted(rate, v), |Transmitted(rate, v)|)
  {
    hide HardBits, Flips, Codeword, Stream34, Decode, Word34;
    if rate.Half? {
      assert |recv| / 2 == |v| + 2 && Flips(recv, Encode(c), 2 * (|v| + 2)) < HARD_INF;
      HardIsMaximumLikelihood(recv, v);
    } else {
      PuncturedIsMaximumLikelihood(recv, c, v);
    }
  }

  lemma ReceivedLength(rate: Rate, word: seq<Bit>, n: nat)
    requires rate.Half? ==> |word| == 2 * (n + 2)
    ensures |Received(rate, word, n)| == n
  {
    hide Rebuilt;
  }

  lemma ReceivedSoftLength(rate: Rate, llr: seq<real>, n: nat)
    requires rate.Half? ==> |llr| == 2 * (n + 2)
    ensures |ReceivedSoft(rate, llr, n)| == n
  {
    hide Rebuilt;
  }

  // ---- soft optimality at either rate ------------------------------------------------

  lemma FilledRatio(llr: seq<real>, n: nat, t: nat, g: Bit)
    requires t < n
    ensures LlrAt(Rebuilt(PUNCT_R34, llr, 0.0, n), 2 * t + g)
         == if Keeps(PUNCT_R34, t, g) then LlrAt(llr, Rank(PUNCT_R34, t, g)) else 0.0
  {
    hide Keeps, Rank;
    assert Rebuilt(PUNCT_R34, llr, 0.0, n)[2 * t + g] == Filled(PUNCT_R34, llr, 0.0, t, g);
  }

  lemma NothingAtHoles(c: Bit)
    ensures Term(0.0, c) == 0.0 && Abs(0.0) == 0.0
  {
  }

  lemma RebuiltRatioStep(llr: seq<real>, u: seq<Bit>, t: nat)
    requires t < |u| + 2
    ensures var w, c, s := LlrWord34(llr, |u|), Encode(u), Stream34(u);
            var f, f1 := Sent(PUNCT_R34, t), Sent(PUNCT_R34, t + 1);
            && Correlation(w, c, 2 * t + 2) - Correlation(w, c, 2 * t)
               == Correlation(llr, s, f1) - Correlation(llr, s, f)
            && Reliability(w, 2 * t + 2) - Reliability(w, 2 * t) == Reliability(llr, f1) - Reliability(llr, f)
  {
    hide Keeps, Encode, Punctured, Rebuilt, LlrAt, Rank, Term, Abs, Tap;
    var w, c := LlrWord34(llr, |u|), Encode(u);
    FilledRatio(llr, |u| + 2, t, 0);
    FilledRatio(llr, |u| + 2, t, 1);
    NothingAtHoles(Tap(c, 2 * t));
    NothingAtHoles(Tap(c, 2 * t + 1));
    RankCases(t);
    SentTap(u, t, 0);
    SentTap(u, t, 1);
    assert Correlation(w, c, 2 * t + 1) == Correlation(w, c, 2 * t) + Term(LlrAt(w, 2 * t), Tap(c, 2 * t));
    assert Reliability(w, 2 * t + 1) == Reliability(w, 2 * t) + Abs(LlrAt(w, 2 * t));
  }

  /** Correlation and reliability of the rebuilt word are those of the channel's ratios. */
  lemma {:induction false} RebuiltRatios(llr: seq<real>, u: seq<Bit>, t: nat)
    requires t <= |u| + 2
    ensures Correlation(LlrWord34(llr, |u|), Encode(u), 2 * t) == Correlation(llr, Stream34(u), Sent(PUNCT_R34, t))
    ensures Reliability(LlrWord34(llr, |u|), 2 * t) == Reliability(llr, Sent(PUNCT_R34, t))
  {
    hide Keeps, Encode, Punctured, Rebuilt, LlrWord34, Stream34;
    if t > 0 {
      RebuiltRatios(llr, u, t - 1);
      RebuiltRatioStep(llr, u, t - 1);
    }
  }

  lemma PuncturedSoftIsOptimal(llr: seq<real>, v: seq<Bit>)
    requires Reliability(llr, |Stream34(v)|) < SOFT_INF
    ensures var r := SoftBits(LlrWord34(llr, |v|), |v|);
            |r| == |v| && Correlation(llr, Stream34(r), |Stream34(r)|) <= Correlation(llr, Stream34(v), |Stream34(v)|)
  {
    hide Punctured, SoftBits, Correlation, Reliability, Codeword, Rebuilt, Sent, Decode;
    var w, n := LlrWord34(llr, |v|), |v|;
    RebuiltRatios(llr, v, n + 2);
    SoftIsOptimal(w, v);
    RebuiltRatios(llr, SoftBits(w, n), n + 2);
  }

  /** Soft decoding is optimal at either rate: below the sentinel no payload's channel bits correlate less with the
      ratios than those of the payload returned, missing trailing ratios included. */
  lemma ReceivedSoftIsBest(rate: Rate, llr: seq<real>, v: seq<Bit>)
    requires rate.Half? ==> |llr| == |Encode(v)|
    requires Reliability(llr, |Transmitted(rate, v)|) < SOFT_INF
    ensures var r := ReceivedSoft(rate, llr, |v|);
            |r| == |v| && Correlation(llr, Transmitted(rate, r), |Transmitted(rate, r)|)
                       <= Correlation(llr, Transmitted(rate, v), |Transmitted(rate, v)|)
  {
    hide SoftBits, Correlation, Reliability, Codeword, Stream34, Decode, LlrWord34;
    if rate.Half? {
      assert |llr| / 2 == |v| + 2;
      SoftIsOptimal(llr, v);
    } else {
      PuncturedSoftIsOptimal(llr, v);
    }
  }

  /** The word that the decoder of either rate works on. */
  function Word(rate: Rate, recv: seq<Symbol>, n: nat): seq<Symbol> {
    if rate.Half? then recv else Word34(recv, n)
  }

  /** On fully confident ratios soft decoding returns what hard decoding does at either rate, on every channel word
      whose rebuilt word the hard decoder can decode. */
  lemma SoftRefinesHardAtEitherRate(rate: Rate, recv: seq<Symbol>, n: nat)
    requires Fits(Word(rate, recv, n))
    ensures ReceivedSoft(rate, ConfidentLlr(recv), n) == Received(rate, recv, n)
  {
    hide SoftBits, HardBits, Fits, Rebuilt, ConfidentLlr;
    SoftRefinesHard(Word(rate, recv, n), n);
    ConfidentRebuilt(PUNCT_R34, recv, n + 2);
  }

  /** Soft decoding inverts encoding whenever every channel ratio favours the bit that was sent. */
  lemma SoftLinkFollowsSigns(rate: Rate, llr: seq<real>, u: seq<Bit>)
    requires var sent := Transmitted(rate, u);
             |llr| == |sent| && forall i :: 0 <= i < |sent| ==> Favours(llr[i], sent[i])
    ensures ReceivedSoft(rate, llr, |u|) == u
  {
    hide SoftBits, Reliability, Favours, Kept;
    var word := if rate.Half? then llr else LlrWord34(llr, |u|);
    forall t: nat, g: Bit | t < |u| + 2
      ensures if Kept(rate, t, g) then Favours(LlrAt(word, 2 * t + g), CodeBit(u, t, g))
              else LlrAt(word, 2 * t + g) == 0.0
    {
      if rate.Half? {
        HalfKeeps(t, g);
        assert Encode(u)[2 * t + g] == CodeBit(u, t, g);
      } else {
        RebuiltFavours(llr, u, t, g);
      }
    }
    SoftFollowsSigns(rate, word, u);
  }

  lemma HalfKeeps(t: nat, g: Bit)
    ensures Kept(Half, t, g)
  {
  }

  lemma RebuiltFavours(llr: seq<real>, u: seq<Bit>, t: nat, g: Bit)
    requires |llr| == |Stream34(u)| && forall i :: 0 <= i < |llr| ==> Favours(llr[i], Stream34(u)[i])
    requires t < |u| + 2
    ensures if Kept(ThreeQuarters, t, g) then Favours(LlrAt(LlrWord34(llr, |u|), 2 * t + g), CodeBit(u, t, g))
            else LlrAt(LlrWord34(llr, |u|), 2 * t + g) == 0.0
  {
    hide Favours, Kept, Keeps, Rank, Punctured, CodeBit, Sent;
    KeepsIsKept(t, g);
    assert Rebuilt(PUNCT_R34, llr, 0.0, |u| + 2)[2 * t + g] == Filled(PUNCT_R34, llr, 0.0, t, g);
    assert Encode(u)[2 * t + g] == CodeBit(u, t, g);
    if Keeps(PUNCT_R34, t, g) {
      PuncturedAtRank(PUNCT_R34, Encode(u), |u| + 2, t, g);
    }
  }

  // ---- sizing ----------------------------------------------------------------------

  /** Channel bits for n info bits: 2 (n + 2), or four per three inputs and 0, 2 or 3 more. */
  function CodedLength(rate: Rate, n: nat): nat {
    if rate.Half? then 2 * (n + 2)
    else 4 * ((n + 2) / 3) + (if (n + 2) % 3 == 0 then 0 else if (n + 2) % 3 == 1 then 2 else 3)
  }

  lemma TransmittedLength(rate: Rate, u: seq<Bit>)
    ensures |Transmitted(rate, u)| == CodedLength(rate, |u|)
  {
    hide Encode, Sent;
    SentClosedForm(|u| + 2);
  }

  lemma {:induction false} CodedLengthGrows(rate: Rate, m: nat, n: nat)
    requires m < n
    ensures CodedLength(rate, m) < CodedLength(rate, n)
  {
    if m + 1 < n { CodedLengthGrows(rate, m, n - 1); }
  }

  method CodedBitCount(nInfo: nat, coding: string) returns (r: Result<nat>)
    ensures match RateOf(coding)
            case Ok(rate) => r == Ok(CodedLength(rate, nInfo))
            case UnknownCoding(name) => r == UnknownCoding(name)
  {
    var zeros := seq(nInfo, i => 0);
    var coded := CodingEncode(zeros, coding);
    match coded {
      case Ok(bits) =>
        var rate := RateOf(coding).value;
        TransmittedLength(rate, zeros);
        return Ok(|bits|);
      case UnknownCoding(name) => return UnknownCoding(name);
    }
  }

  /** The integer part of n times the code rate, towards zero as the source truncates. */
  function RateTimes(n: int, rate: Rate): int {
    var (num, den) := if rate.Half? then (1, 2) else (3, 4);
    if n >= 0 then n * num / den else -(-n * num / den)
  }

  /** The payload the source starts from: the rate times the budget less the tail, at least two bits. */
  function PayloadSize(rate: Rate, budget: int): nat {
    if RateTimes(budget, rate) - 2 < 2 then 2 else RateTimes(budget, rate) - 2
  }

  /** A payload of n bits fits the budget and n + 1 bits would not. */
  predicate LargestFit(rate: Rate, n: nat, budget: int) {
    CodedLength(rate, n) <= budget < CodedLength(rate, n + 1)
  }

  /** Taking the rate times the budget less the tail is already exact once two bits fit, so the
      correction loop below never has anything to correct. */
  lemma FirstGuessFits(rate: Rate, budget: int)
    requires CodedLength(rate, 2) <= budget
    ensures RateTimes(budget, rate) - 2 >= 2 && LargestFit(rate, RateTimes(budget, rate) - 2, budget)
  {
    if !rate.Half? {
      var q, r := budget / 4, budget % 4;
      assert budget == 4 * q + r;
      var m := budget * 3 / 4;
      assert m == 3 * q + (if r == 0 then 0 else r - 1);
    }
  }

  /** One bit more than the guess never fits, and a budget too small for two bits guesses no more than two. */
  lemma GuessIsNotShort(rate: Rate, budget: int)
    ensures CodedLength(rate, 2) > budget ==> RateTimes(budget, rate) - 2 <= 2
    ensures CodedLength(rate, 2) <= budget ==>
              RateTimes(budget, rate) - 2 >= 2 && budget < CodedLength(rate, RateTimes(budget, rate) - 1)
  {
    if CodedLength(rate, 2) <= budget { FirstGuessFits(rate, budget); }
  }

  /** The largest payload that fits when two bits fit, and two bits otherwise; an n that fits is
      the largest exactly when n + 1 does not fit, lengths being strictly increasing. */
  method InfoBitsForBudget(nChannelBits: int, coding: string) returns (r: Result<nat>)
    ensures match RateOf(coding)
            case UnknownCoding(name) => r == UnknownCoding(name)
            case Ok(rate) => r.Ok? && (if CodedLength(rate, 2) <= nChannelBits
                                       then LargestFit(rate, r.value, nChannelBits) && r.value >= 2
                                       else r.value == 2)
                              && r.value == PayloadSize(rate, nChannelBits)
  {
    match RateOf(coding) {
      case UnknownCoding(name) => return UnknownCoding(name);
      case Ok(rate) =>
        hide RateTimes, CodedLength;
        var guess := RateTimes(nChannelBits, rate) - 2;
        GuessIsNotShort(rate, nChannelBits);
        var n: nat := if guess < 2 then 2 else guess;
        var count := CodedBitCount(n, coding);
        while n > 2 && count.value > nChannelBits
          invariant n >= 2 && count == Ok(CodedLength(rate, n))
          invariant CodedLength(rate, 2) <= nChannelBits ==> nChannelBits < CodedLength(rate, n + 1)
          invariant CodedLength(rate, 2) > nChannelBits ==> n == 2
        {
          n := n - 1;
          count := CodedBitCount(n, coding);
        }
        if CodedLength(rate, 2) <= nChannelBits {
          FirstGuessFits(rate, nChannelBits);
          LargestFitIsMaximum(rate, guess, n, nChannelBits);
          LargestFitIsMaximum(rate, n, guess, nChannelBits);
        }
        return Ok(n);
    }
  }

  /** Largest means largest: nothing longer fits. */
  lemma LargestFitIsMaximum(rate: Rate, n: nat, m: nat, budget: int)
    requires LargestFit(rate, n, budget)
    ensures CodedLength(rate, m) <= budget <==> m <= n
  {
    if m < n { CodedLengthGrows(rate, m, n); }
    if n + 1 < m { CodedLengthGrows(rate, n + 1, m); }
  }
}
