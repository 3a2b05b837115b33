/** gr_autopilot/link/numpy_sim.py, the soft-decision branch: the trial returns a payload that correlates best with the
    ratios, which on BPSK and QPSK means one whose burst is nearest to what arrived. */
module SoftLink {
  import opened Basics
  import opened Trellis
  import opened Viterbi
  import opened ConvCode
  import opened SoftDecoder
  import opened Coding
  import opened Modulation
  import opened CodedLink
  import Gray
  import Prbs

  /** What arrives of a payload's burst. */
  function ArrivedOf(table: Table, channel: Channel, rate: Rate, u: seq<Bit>): seq<Point>
    requires table.bps >= 1
  {
    Arrived(channel, Points(table, Burst(rate, u, table.bps)))
  }

  /** The ratios that reach the decoder: those of the burst, cut to the coded length. */
  function CodedRatios(table: Table, channel: Channel, rate: Rate, u: seq<Bit>): seq<real>
    requires table.Valid()
  {
    Prefix(Ratios(table, ArrivedOf(table, channel, rate, u)), |Transmitted(rate, u)|)
  }

  lemma CodedRatiosLength(table: Table, channel: Channel, rate: Rate, u: seq<Bit>)
    requires table.Valid()
    ensures |Ratios(table, ArrivedOf(table, channel, rate, u))| == |Padded(Transmitted(rate, u), table.bps)|
    ensures |CodedRatios(table, channel, rate, u)| == |Transmitted(rate, u)|
  {
    hide Transmitted, Gray.Pow2, Groups, Spell, Ratios, Whole;
    var all := Padded(Transmitted(rate, u), table.bps);
    PaddedIsWhole(Transmitted(rate, u), table.bps);
    SpellOfGroups(all, table.bps);
    RatiosLength(table, ArrivedOf(table, channel, rate, u), Groups(all, table.bps));
  }

  /** A soft trial in the parts used below. */
  lemma SoftTrial(table: Table, coding: string, nPayloadBits: nat, order: Prbs.Taps, seed: int, channel: Channel)
    requires table.Valid() && Prbs.Supported(order) && RateOf(coding).Ok?
    ensures var r := RunLink(table, Some(coding), true, nPayloadBits, order, seed, channel);
            var rate := RateOf(coding).value;
            var u := InfoBits(rate, table.bps, nPayloadBits, order, seed);
            r.Ok? && r.value.txBits == u
            && r.value.rxBits == ReceivedSoft(rate, CodedRatios(table, channel, rate, u), |u|)
  {
    hide Gray.Pow2, Groups, Ratios, PayloadSize, Prbs.Payload, Transmitted, ReceivedSoft, Padded, RateOf;
  }

  /** Whatever the channel did and whatever the table, at either rate: as long as the ratios stay below the sentinel in
      all, no payload's channel bits correlate less with them than those of the payload received. */
  lemma SoftLinkIsOptimal(table: Table, coding: string, nPayloadBits: nat, order: Prbs.Taps, seed: int,
                          channel: Channel, v: seq<Bit>)
    requires table.Valid() && Prbs.Supported(order) && RateOf(coding).Ok?
    requires var rate := RateOf(coding).value;
             var u := InfoBits(rate, table.bps, nPayloadBits, order, seed);
             var llr := CodedRatios(table, channel, rate, u);
             |v| == |u| && Reliability(llr, |llr|) < SOFT_INF
    ensures var r := RunLink(table, Some(coding), true, nPayloadBits, order, seed, channel);
            var rate := RateOf(coding).value;
            var llr := CodedRatios(table, channel, rate, InfoBits(rate, table.bps, nPayloadBits, order, seed));
            r.Ok? && |r.value.rxBits| == |v|
            && Correlation(llr, Transmitted(rate, r.value.rxBits), |llr|)
               <= Correlation(llr, Transmitted(rate, v), |llr|)
  {
    hide RunLink, InfoBits, CodedRatios, Transmitted, ReceivedSoft, Correlation, Reliability, RateOf, CodedLength;
    var rate := RateOf(coding).value;
    var u := InfoBits(rate, table.bps, nPayloadBits, order, seed);
    var llr := CodedRatios(table, channel, rate, u);
    SoftTrial(table, coding, nPayloadBits, order, seed, channel);
    CodedRatiosLength(table, channel, rate, u);
    TransmittedLength(rate, u);
    TransmittedLength(rate, v);
    TransmittedAtHalf(rate, v);
    ReceivedSoftIsBest(rate, llr, v);
    TransmittedLength(rate, ReceivedSoft(rate, llr, |v|));
  }

  /** Every trial is aligned: as many bits received as were sent, so its bit errors can be counted. */
  lemma TrialIsAligned(table: Table, coding: Option<string>, soft: bool, nPayloadBits: nat, order: Prbs.Taps, seed: int,
                       channel: Channel)
    requires table.Valid() && Prbs.Supported(order) && (coding.Some? ==> RateOf(coding.value).Ok?)
    ensures var r := RunLink(table, coding, soft, nPayloadBits, order, seed, channel);
            r.Ok? && |r.value.rxBits| == |r.value.txBits|
  {
    hide RunLink, InfoBits, CodedRatios, CodedBits, Received, ReceivedSoft, RateOf;
    if coding.None? {
      UncodedIsAligned(table, soft, nPayloadBits, order, seed, channel);
    } else {
      var rate := RateOf(coding.value).value;
      var u := InfoBits(rate, table.bps, nPayloadBits, order, seed);
      TransmittedLength(rate, u);
      if soft {
        SoftTrial(table, coding.value, nPayloadBits, order, seed, channel);
        CodedRatiosLength(table, channel, rate, u);
        ReceivedSoftLength(rate, CodedRatios(table, channel, rate, u), |u|);
      } else {
        HardTrial(table, coding.value, nPayloadBits, order, seed, channel);
        CodedBitsLength(table, channel, rate, u);
        ReceivedLength(rate, CodedBits(table, channel, rate, u), |u|);
      }
    }
  }

  lemma UncodedIsAligned(table: Table, soft: bool, nPayloadBits: nat, order: Prbs.Taps, seed: int, channel: Channel)
    requires table.Valid() && Prbs.Supported(order)
    ensures var r := RunLink(table, None, soft, nPayloadBits, order, seed, channel);
            r.Ok? && |r.value.rxBits| == |r.value.txBits|
  {
    hide Gray.Pow2, Groups, Spell, Nearest;
    var bits := Prbs.Payload(order, seed, nPayloadBits / table.bps * table.bps);
    hide Prbs.Payload;
    var sent := Groups(bits, table.bps);
    BudgetIsWhole(bits, table.bps, nPayloadBits);
    SpellOfGroups(bits, table.bps);
    SpellLength(Decided(table, Arrived(channel, Points(table, sent))), sent, table.bps);
  }

  // ---- nearest burst -----------------------------------------------------------------------------

  /** What the ratios of one symbol say against index idx. */
  function SymbolCorrelation(table: Table, y: Point, idx: nat): real
    requires table.Valid()
  {
    Correlation(SymbolLlr(table, y), Gray.BitsOf(idx, table.bps), table.bps)
  }

  /** Up to a constant of the received point, the ratios add up to twice the squared distance. */
  ghost predicate Additive(table: Table) {
    table.Valid() && forall y: Point, idx: nat :: idx < |table.points| ==>
      2.0 * Dist(y, table.points[idx]) - SymbolCorrelation(table, y, idx) == Constant(table, y)
  }

  ghost function Constant(table: Table, y: Point): real
    requires table.Valid()
  {
    if table.points == [] then 0.0 else 2.0 * Dist(y, table.points[0]) - SymbolCorrelation(table, y, 0)
  }

  /** The squared distance of a burst from what arrived. */
  function BurstDistance(table: Table, rx: seq<Point>, idx: seq<nat>): real
    requires |rx| == |idx| && forall s :: 0 <= s < |idx| ==> idx[s] < |table.points|
  {
    if rx == [] then 0.0
    else BurstDistance(table, rx[..|rx| - 1], idx[..|idx| - 1]) + Dist(rx[|rx| - 1], table.points[idx[|idx| - 1]])
  }

  ghost function Constants(table: Table, rx: seq<Point>): real
    requires table.Valid()
  {
    if rx == [] then 0.0 else Constants(table, rx[..|rx| - 1]) + Constant(table, rx[|rx| - 1])
  }

  lemma {:induction false} CorrelationPrefix(a: seq<real>, b: seq<real>, c: seq<Bit>, d: seq<Bit>, n: nat)
    requires forall i: nat :: i < n ==> LlrAt(a, i) == LlrAt(b, i) && Tap(c, i) == Tap(d, i)
    ensures Correlation(a, c, n) == Correlation(b, d, n)
  {
    hide Term, LlrAt, Tap;
    if n > 0 { CorrelationPrefix(a, b, c, d, n - 1); }
  }

  lemma {:induction false} CorrelationAppend(a: seq<real>, b: seq<real>, c: seq<Bit>, d: seq<Bit>, n: nat)
    requires |a| == |c| && n <= |b| == |d|
    ensures Correlation(a + b, c + d, |a| + n) == Correlation(a, c, |a|) + Correlation(b, d, n)
  {
    hide Term;
    if n == 0 {
      CorrelationPrefix(a + b, a, c + d, c, |a|);
    } else {
      CorrelationAppend(a, b, c, d, n - 1);
      assert LlrAt(a + b, |a| + n - 1) == LlrAt(b, n - 1) && Tap(c + d, |a| + n - 1) == Tap(d, n - 1);
    }
  }

  /** Over a whole burst the correlation is twice its squared distance, up to a constant of what arrived. */
  lemma {:induction false} BurstCorrelation(table: Table, rx: seq<Point>, idx: seq<nat>)
    requires Additive(table) && |rx| == |idx| && forall s :: 0 <= s < |idx| ==> idx[s] < |table.points|
    ensures |Ratios(table, rx)| == |Spell(idx, table.bps)|
    ensures Correlation(Ratios(table, rx), Spell(idx, table.bps), |Ratios(table, rx)|)
         == 2.0 * BurstDistance(table, rx, idx) - Constants(table, rx)
  {
    hide Gray.Pow2, Gray.BitsOf, SymbolLlr, Correlation, Dist;
    RatiosLength(table, rx, idx);
    if rx == [] {
      NoCorrelation();
    } else {
      var n := |rx| - 1;
      var y, k := rx[n], idx[n];
      BurstCorrelation(table, rx[..n], idx[..n]);
      CorrelationAppend(Ratios(table, rx[..n]), SymbolLlr(table, y), Spell(idx[..n], table.bps),
                        Gray.BitsOf(k, table.bps), table.bps);
      assert 2.0 * Dist(y, table.points[k]) - SymbolCorrelation(table, y, k) == Constant(table, y);
      hide Additive, Ratios, Spell;
    }
  }

  lemma NoCorrelation()
    ensures Correlation([], [], 0) == 0.0
  {
  }

  lemma {:induction false} GroupsCount(a: seq<Bit>, b: seq<Bit>, bps: nat)
    requires bps >= 1 && |a| == |b|
    ensures |Groups(a, bps)| == |Groups(b, bps)|
  {
    hide Gray.IndexOf;
    if |a| >= bps { GroupsCount(a[..|a| - bps], b[..|b| - bps], bps); }
  }

  /** Every payload of the same length has a burst that could have arrived as rx. */
  ghost predicate Comparable(table: Table, rate: Rate, rx: seq<Point>, x: seq<Bit>)
    requires table.bps >= 1
  {
    |rx| == |Burst(rate, x, table.bps)|
    && forall s :: 0 <= s < |rx| ==> Burst(rate, x, table.bps)[s] < |table.points|
  }

  lemma AllComparable(table: Table, channel: Channel, rate: Rate, u: seq<Bit>, x: seq<Bit>)
    requires table.Valid() && |x| == |u|
    ensures Comparable(table, rate, ArrivedOf(table, channel, rate, u), x)
  {
    hide Transmitted, Groups, Whole, CodedLength, Gray.Pow2;
    TransmittedLength(rate, u);
    TransmittedLength(rate, x);
    var all := Padded(Transmitted(rate, x), table.bps);
    PaddedIsWhole(Transmitted(rate, x), table.bps);
    SpellOfGroups(all, table.bps);
    GroupsCount(Padded(Transmitted(rate, u), table.bps), all, table.bps);
  }

  /** What the ratios behind the coded length contribute, the same for all payloads of one length. */
  function PaddingCorrelation(all: seq<real>, m: nat, pad: nat): real
    requires m <= |all|
  {
    Correlation(all[m..], seq(pad, i => 0), |all| - m)
  }

  lemma PaddingSplits(all: seq<real>, coded: seq<Bit>, pad: nat)
    requires |coded| + pad == |all|
    ensures Correlation(all, coded + seq(pad, i => 0), |all|)
         == Correlation(all[..|coded|], coded, |coded|) + PaddingCorrelation(all, |coded|, pad)
  {
    hide Correlation;
    var m := |coded|;
    assert all == all[..m] + all[m..];
    CorrelationAppend(all[..m], all[m..], coded, seq(pad, i => 0), pad);
  }

  /** The decoder's objective is the squared distance of the burst. */
  lemma PayloadCorrelation(table: Table, channel: Channel, rate: Rate, u: seq<Bit>, x: seq<Bit>)
    requires Additive(table) && |x| == |u|
    ensures var rx := ArrivedOf(table, channel, rate, u);
            var llr := CodedRatios(table, channel, rate, u);
            var all, m := Ratios(table, rx), |llr|;
            && Comparable(table, rate, rx, x)
            && m <= |all| && m == |Transmitted(rate, x)|
            && Correlation(llr, Transmitted(rate, x), m) + PaddingCorrelation(all, m, Padding(m, table.bps))
               == 2.0 * BurstDistance(table, rx, Burst(rate, x, table.bps)) - Constants(table, rx)
  {
    hide ArrivedOf, Transmitted, Groups, Ratios, Whole, CodedLength, Correlation, Padding, Spell, PaddingCorrelation,
         BurstDistance, Constants, Gray.Pow2, Dist, Constant, SymbolCorrelation;
    var rx := ArrivedOf(table, channel, rate, u);
    AllComparable(table, channel, rate, u, x);
    CodedRatiosLength(table, channel, rate, u);
    TransmittedLength(rate, u);
    TransmittedLength(rate, x);
    PaddedIsWhole(Transmitted(rate, x), table.bps);
    SpellOfGroups(Padded(Transmitted(rate, x), table.bps), table.bps);
    hide Additive;
    BurstCorrelation(table, rx, Burst(rate, x, table.bps));
    PaddingSplits(Ratios(table, rx), Transmitted(rate, x), Padding(|Transmitted(rate, x)|, table.bps));
  }

  /** Soft decisions buy this: on such a table no payload of the trial's length has a burst nearer to what arrived than
      the payload received, at either rate and whatever the channel did. */
  lemma SoftLinkIsNearest(table: Table, coding: string, nPayloadBits: nat, order: Prbs.Taps, seed: int,
                          channel: Channel, v: seq<Bit>)
    requires Additive(table) && Prbs.Supported(order) && RateOf(coding).Ok?
    requires var rate := RateOf(coding).value;
             var u := InfoBits(rate, table.bps, nPayloadBits, order, seed);
             var llr := CodedRatios(table, channel, rate, u);
             |v| == |u| && Reliability(llr, |llr|) < SOFT_INF
    ensures var r := RunLink(table, Some(coding), true, nPayloadBits, order, seed, channel);
            var rate := RateOf(coding).value;
            var rx := ArrivedOf(table, channel, rate, InfoBits(rate, table.bps, nPayloadBits, order, seed));
            && r.Ok? && |r.value.rxBits| == |v|
            && Comparable(table, rate, rx, r.value.rxBits) && Comparable(table, rate, rx, v)
            && BurstDistance(table, rx, Burst(rate, r.value.rxBits, table.bps))
               <= BurstDistance(table, rx, Burst(rate, v, table.bps))
  {
    assert table.Valid();
    hide RunLink, InfoBits, CodedRatios, ArrivedOf, Transmitted, Correlation, Reliability, RateOf, Burst, Additive,
         Comparable, BurstDistance, PaddingCorrelation, Constants, Ratios;
    var rate := RateOf(coding).value;
    var u := InfoBits(rate, table.bps, nPayloadBits, order, seed);
    SoftLinkIsOptimal(table, coding, nPayloadBits, order, seed, channel, v);
    var r := RunLink(table, Some(coding), true, nPayloadBits, order, seed, channel).value.rxBits;
    PayloadCorrelation(table, channel, rate, u, r);
    PayloadCorrelation(table, channel, rate, u, v);
  }

  // ---- BPSK and QPSK -------------------------------------------------------------------------------

  lemma TwoTerms(llr: seq<real>, c: seq<Bit>)
    ensures Correlation(llr, c, 1) == Term(LlrAt(llr, 0), Tap(c, 0))
    ensures Correlation(llr, c, 2) == Term(LlrAt(llr, 0), Tap(c, 0)) + Term(LlrAt(llr, 1), Tap(c, 1))
  {
    hide Term, LlrAt, Tap;
    assert Correlation(llr, c, 0) == 0.0;
    assert Correlation(llr, c, 1) == Correlation(llr, c, 0) + Term(LlrAt(llr, 0), Tap(c, 0));
  }

  lemma BpskIsAdditive()
    ensures Additive(Table(BPSK, 1))
  {
    var table := Table(BPSK, 1);
    assert Gray.Pow2(1) == 2 && table.Valid();
    forall y: Point, idx: nat | idx < 2
      ensures 2.0 * Dist(y, BPSK[idx]) - SymbolCorrelation(table, y, idx) == Constant(table, y)
    {
      BpskRatio(y);
      hide Dist, Llr, Gray.Pow2;
      TwoTerms(SymbolLlr(table, y), Gray.BitsOf(0, 1));
      TwoTerms(SymbolLlr(table, y), Gray.BitsOf(1, 1));
    }
  }

  lemma BpskRatio(y: Point)
    ensures |BPSK| == Gray.Pow2(1)
    ensures Llr(BPSK, y, 1, 0) == Dist(y, BPSK[1]) - Dist(y, BPSK[0])
    ensures Gray.BitsOf(0, 1) == [0] && Gray.BitsOf(1, 1) == [1]
  {
    assert Gray.Pow2(1) == 2;
    hide Dist;
    assert Gray.BitsOf(0, 1) == [0] && Gray.BitsOf(1, 1) == [1];
    assert LeastWith(BPSK, y, 1, 0, 0, 1) == Least(Dist(y, BPSK[0])) && LeastWith(BPSK, y, 1, 0, 1, 1) == Empty;
    assert LeastWith(BPSK, y, 1, 0, 0, 2) == Least(Dist(y, BPSK[0]));
    assert LeastWith(BPSK, y, 1, 0, 1, 2) == Least(Dist(y, BPSK[1]));
  }

  lemma QpskLabels()
    ensures Gray.BitsOf(0, 2) == [0, 0] && Gray.BitsOf(1, 2) == [0, 1]
    ensures Gray.BitsOf(2, 2) == [1, 0] && Gray.BitsOf(3, 2) == [1, 1]
  {
    assert Gray.BitsOf(0, 1) == [0] && Gray.BitsOf(1, 1) == [1];
  }

  function Smaller(a: real, b: real): real { if b < a then b else a }

  function Joined(rest: Least, counts: bool, d: real): Least {
    if !counts then rest else if rest.Empty? then Least(d) else Least(Smaller(rest.d, d))
  }

  lemma OneMore(points: seq<Point>, y: Point, bps: nat, j: nat, c: Bit, n: nat)
    requires n < |points| && j < bps
    ensures LeastWith(points, y, bps, j, c, n + 1)
         == Joined(LeastWith(points, y, bps, j, c, n), Gray.BitsOf(n, bps)[j] == c, Dist(y, points[n]))
  {
    hide Dist, Gray.BitsOf;
  }

  lemma QpskLeast(y: Point, j: nat, c: Bit)
    requires j < 2
    ensures var (a, b) := if j == 0 then (2 * c, 2 * c + 1) else (c, 2 + c);
            LeastWith(QPSK, y, 2, j, c, 4) == Least(Smaller(Dist(y, QPSK[a]), Dist(y, QPSK[b])))
  {
    QpskLabels();
    assert LeastWith(QPSK, y, 2, j, c, 0) == Empty;
    hide Dist, Gray.BitsOf, LeastWith;
    OneMore(QPSK, y, 2, j, c, 0);
    OneMore(QPSK, y, 2, j, c, 1);
    OneMore(QPSK, y, 2, j, c, 2);
    OneMore(QPSK, y, 2, j, c, 3);
  }

  /** The four squared distances are sums of one of two for each axis. */
  lemma QpskDistances(y: Point)
    ensures Dist(y, QPSK[0]) + Dist(y, QPSK[3]) == Dist(y, QPSK[1]) + Dist(y, QPSK[2])
    ensures Dist(y, QPSK[0]) < Dist(y, QPSK[1]) <==> Dist(y, QPSK[2]) < Dist(y, QPSK[3])
    ensures Dist(y, QPSK[0]) < Dist(y, QPSK[2]) <==> Dist(y, QPSK[1]) < Dist(y, QPSK[3])
  {
    hide Square;
  }

  lemma QpskRatios(y: Point)
    ensures |QPSK| == Gray.Pow2(2)
    ensures Llr(QPSK, y, 2, 0) == Dist(y, QPSK[2]) - Dist(y, QPSK[0])
    ensures Llr(QPSK, y, 2, 1) == Dist(y, QPSK[1]) - Dist(y, QPSK[0])
  {
    assert Gray.Pow2(2) == 4;
    QpskDistances(y);
    hide Dist, LeastWith, Gray.BitsOf;
    QpskLeast(y, 0, 0);
    QpskLeast(y, 0, 1);
    QpskLeast(y, 1, 0);
    QpskLeast(y, 1, 1);
  }

  lemma SquareDifference(a: real)
    ensures Square(a + 1.0) - Square(a - 1.0) == 4.0 * a
  {
  }

  /** On BPSK and QPSK the max-log ratios are the coordinates times 4, negative on BPSK, where +1 stands for a 1. */
  lemma RatiosAreCoordinates(y: Point)
    ensures |BPSK| == Gray.Pow2(1) && |QPSK| == Gray.Pow2(2)
    ensures Llr(BPSK, y, 1, 0) == -4.0 * y.i
    ensures Llr(QPSK, y, 2, 0) == 4.0 * y.i && Llr(QPSK, y, 2, 1) == 4.0 * y.q
  {
    BpskRatio(y);
    QpskRatios(y);
    SquareDifference(y.i);
    SquareDifference(y.q);
    hide Llr, Square, Gray.Pow2;
  }

  lemma QpskIsAdditive()
    ensures Additive(Table(QPSK, 2))
  {
    var table := Table(QPSK, 2);
    assert Gray.Pow2(2) == 4 && table.Valid();
    forall y: Point, idx: nat | idx < 4
      ensures 2.0 * Dist(y, QPSK[idx]) - SymbolCorrelation(table, y, idx) == Constant(table, y)
    {
      QpskRatios(y);
      QpskDistances(y);
      QpskLabels();
      hide Dist, Llr, Gray.Pow2, Gray.BitsOf, Correlation;
      TwoTerms(SymbolLlr(table, y), Gray.BitsOf(0, 2));
      TwoTerms(SymbolLlr(table, y), Gray.BitsOf(idx, 2));
    }
  }
}
