/** gr_autopilot/link/numpy_sim.py: payload, encoder, padding, mapper, channel, decisions,
    truncation and decoder composed into one trial. */
module CodedLink {
  import opened Basics
  import opened Trellis
  import opened Viterbi
  import opened ConvCode
  import opened HardDecoder
  import opened SoftDecoder
  import opened ErrorCorrection
  import opened Coding
  import opened Modulation
  import Gray
  import Prbs

  /** A table of 2^bps points indexed by the bits they carry. */
  datatype Table = Table(points: seq<Point>, bps: nat) {
    ghost predicate Valid() { bps >= 1 && |points| == Gray.Pow2(bps) }
  }

  // ---- mapping -------------------------------------------------------------------------

  /** The bit groups as symbol indices, first bit most significant. */
  function Groups(bits: seq<Bit>, bps: nat): (idx: seq<nat>)
    requires bps >= 1
  {
    if |bits| < bps then []
    else Groups(bits[..|bits| - bps], bps) + [Gray.IndexOf(bits[|bits| - bps..])]
  }

  function Spell(idx: seq<nat>, bps: nat): (bits: seq<Bit>) {
    if idx == [] then [] else Spell(idx[..|idx| - 1], bps) + Gray.BitsOf(idx[|idx| - 1], bps)
  }

  /** The bits divide evenly into groups. */
  predicate Whole(bits: seq<Bit>, bps: nat)
    requires bps >= 1
  {
    bits == [] || (|bits| >= bps && Whole(bits[..|bits| - bps], bps))
  }

  lemma {:induction false} MultipleIsWhole(bits: seq<Bit>, bps: nat, n: nat)
    requires bps >= 1 && |bits| == bps * n
    ensures Whole(bits, bps)
  {
    if n > 0 {
      assert bps * n == bps * (n - 1) + bps;
      MultipleIsWhole(bits[..|bits| - bps], bps, n - 1);
    }
  }

  lemma {:induction false} SpellOfGroups(bits: seq<Bit>, bps: nat)
    requires bps >= 1 && Whole(bits, bps)
    ensures Spell(Groups(bits, bps), bps) == bits
    ensures forall s :: 0 <= s < |Groups(bits, bps)| ==> Groups(bits, bps)[s] < Gray.Pow2(bps)
  {
    hide Gray.IndexOf, Gray.BitsOf;
    if bits != [] {
      var cut := |bits| - bps;
      var last := bits[cut..];
      SpellOfGroups(bits[..cut], bps);
      Gray.BitsOfIndex(last);
      Gray.IndexInRange(last);
      var g := Groups(bits, bps);
      assert g[..|g| - 1] == Groups(bits[..cut], bps);
      assert bits == bits[..cut] + last;
    }
  }

  // ---- errors symbol by symbol -----------------------------------------------------------

  lemma {:induction false} FlipsPrefix(a: seq<Bit>, c: seq<Bit>, b: seq<Bit>, d: seq<Bit>, n: nat)
    requires n <= |a| && n <= |c|
    ensures Flips(a + b, c + d, n) == Flips(a, c, n)
  {
    hide Clash;
    if n > 0 { FlipsPrefix(a, c, b, d, n - 1); }
  }

  lemma {:induction false} FlipsAppend(a: seq<Bit>, c: seq<Bit>, b: seq<Bit>, d: seq<Bit>, k: nat)
    requires |a| == |c| && k <= |b| && k <= |d|
    ensures Flips(a + b, c + d, |a| + k) == Flips(a, c, |a|) + Flips(b, d, k)
  {
    hide Clash;
    if k == 0 {
      FlipsPrefix(a, c, b, d, |a|);
    } else {
      FlipsAppend(a, c, b, d, k - 1);
      assert (a + b)[|a| + k - 1] == b[k - 1] && (c + d)[|a| + k - 1] == d[k - 1];
    }
  }

  lemma {:induction false} FlipsGrow(recv: seq<Symbol>, sent: seq<Bit>, m: nat, n: nat)
    requires m <= n
    ensures Flips(recv, sent, m) <= Flips(recv, sent, n)
  {
    if m < n { FlipsGrow(recv, sent, m, n - 1); }
  }

  /** A wrong decision flips as many bits as the labels differ in. */
  lemma {:induction false} FlipsOfLabels(x: nat, y: nat, n: nat)
    requires x < Gray.Pow2(n) && y < Gray.Pow2(n)
    ensures Flips(Gray.BitsOf(x, n), Gray.BitsOf(y, n), n) == Gray.Hamming(x, y)
  {
    hide Gray.Hamming;
    Gray.HammingStep(x, y);
    if n == 0 {
      Gray.HammingSame(0);
    } else {
      FlipsOfLabels(x / 2, y / 2, n - 1);
      FlipsPrefix(Gray.BitsOf(x / 2, n - 1), Gray.BitsOf(y / 2, n - 1), [x % 2], [y % 2], n - 1);
    }
  }

  /** Every decision is the symbol that was sent or one whose label is a single bit away. */
  ghost predicate NearMisses(got: seq<nat>, sent: seq<nat>, bps: nat) {
    |got| == |sent| && forall s :: 0 <= s < |sent| ==>
      got[s] < Gray.Pow2(bps) && sent[s] < Gray.Pow2(bps) && (got[s] == sent[s] || Gray.Hamming(got[s], sent[s]) == 1)
  }

  /** How many symbols were decided wrongly. */
  function Displaced(got: seq<nat>, sent: seq<nat>): nat
    requires |got| == |sent|
  {
    if sent == [] then 0 else
      Displaced(got[..|got| - 1], sent[..|sent| - 1]) + (if got[|got| - 1] == sent[|sent| - 1] then 0 else 1)
  }

  lemma {:induction false} SpellLength(a: seq<nat>, b: seq<nat>, bps: nat)
    requires |a| == |b|
    ensures |Spell(a, bps)| == |Spell(b, bps)|
  {
    if a != [] { SpellLength(a[..|a| - 1], b[..|b| - 1], bps); }
  }

  /** One bit error per displaced symbol. */
  lemma {:induction false} FlipsAreDisplaced(got: seq<nat>, sent: seq<nat>, bps: nat)
    requires NearMisses(got, sent, bps)
    ensures Flips(Spell(got, bps), Spell(sent, bps), |Spell(sent, bps)|) == Displaced(got, sent)
  {
    hide Flips, Gray.BitsOf, Gray.Hamming, Gray.Pow2;
    if sent == [] {
      NoFlips([], [], 0);
    } else {
      var n := |sent| - 1;
      FlipsAreDisplaced(got[..n], sent[..n], bps);
      SpellLength(got[..n], sent[..n], bps);
      FlipsAppend(Spell(got[..n], bps), Spell(sent[..n], bps),
                  Gray.BitsOf(got[n], bps), Gray.BitsOf(sent[n], bps), bps);
      FlipsOfLabels(got[n], sent[n], bps);
      Gray.HammingSame(sent[n]);
    }
  }

  // ---- one trial -------------------------------------------------------------------------

  /** The channel with the receiver's de-rotation: what arrives for symbol s of the burst. */
  type Channel = (nat, Point) -> Point

  /** Zero bits that complete the last symbol: (-n) mod bps. */
  function Padding(n: nat, bps: nat): (pad: nat)
    requires bps >= 1
  {
    var m: int := n;
    (-m) % bps
  }

  function Padded(coded: seq<Bit>, bps: nat): seq<Bit>
    requires bps >= 1
  {
    coded + seq(Padding(|coded|, bps), i => 0)
  }

  function Points(table: Table, idx: seq<nat>): (syms: seq<Point>)
    ensures |syms| == |idx|
  {
    seq(|idx|, s requires 0 <= s < |idx| => if idx[s] < |table.points| then table.points[idx[s]] else Point(0.0, 0.0))
  }

  function Arrived(channel: Channel, syms: seq<Point>): (rx: seq<Point>)
    ensures |rx| == |syms|
  {
    seq(|syms|, s requires 0 <= s < |syms| => channel(s, syms[s]))
  }

  function Decided(table: Table, rx: seq<Point>): (idx: seq<nat>)
    requires table.points != []
    ensures |idx| == |rx|
  {
    seq(|rx|, s requires 0 <= s < |rx| => Nearest(table.points, rx[s]))
  }

  function SymbolLlr(table: Table, y: Point): (llr: seq<real>)
    requires table.Valid()
    ensures |llr| == table.bps
  {
    seq(table.bps, j requires 0 <= j < table.bps => Llr(table.points, y, table.bps, j))
  }

  function Ratios(table: Table, rx: seq<Point>): (llr: seq<real>)
    requires table.Valid()
  {
    if rx == [] then [] else Ratios(table, rx[..|rx| - 1]) + SymbolLlr(table, rx[|rx| - 1])
  }

  datatype Graded = Graded(txBits: seq<Bit>, rxBits: seq<Bit>, symbols: nat)

  /** One trial, graded on the info bits. */
  function RunLink(table: Table, coding: Option<string>, soft: bool, nPayloadBits: nat, order: Prbs.Taps, seed: int,
                   channel: Channel): Result<Graded>
    requires table.Valid() && Prbs.Supported(order)
  {
    var budget := nPayloadBits / table.bps * table.bps;
    if coding.None? then
      var txBits := Prbs.Payload(order, seed, budget);
      var tx := Points(table, Groups(txBits, table.bps));
      Ok(Graded(txBits, Spell(Decided(table, Arrived(channel, tx)), table.bps), |tx|))
    else match RateOf(coding.value)
      case UnknownCoding(name) => UnknownCoding(name)
      case Ok(rate) =>
        var n := PayloadSize(rate, budget);
        var info := Prbs.Payload(order, seed, n);
        var coded := Transmitted(rate, info);
        var tx := Points(table, Groups(Padded(coded, table.bps), table.bps));
        var rx := Arrived(channel, tx);
        var rxBits := if soft then ReceivedSoft(rate, Prefix(Ratios(table, rx), |coded|), n)
                      else Received(rate, Prefix(Spell(Decided(table, rx), table.bps), |coded|), n);
        Ok(Graded(info, rxBits, |tx|))
  }

  // ---- what a trial delivers -----------------------------------------------------------

  /** The info bits of a coded trial. */
  function InfoBits(rate: Rate, bps: nat, nPayloadBits: nat, order: Prbs.Taps, seed: int): seq<Bit>
    requires bps >= 1 && Prbs.Supported(order)
  {
    Prbs.Payload(order, seed, PayloadSize(rate, nPayloadBits / bps * bps))
  }

  /** The symbols that carry payload u, padded to whole symbols. */
  function Burst(rate: Rate, u: seq<Bit>, bps: nat): seq<nat>
    requires bps >= 1
  {
    Groups(Padded(Transmitted(rate, u), bps), bps)
  }

  /** What the slicer makes of a burst. */
  function Sliced(table: Table, channel: Channel, sent: seq<nat>): (got: seq<nat>)
    requires table.points != []
    ensures |got| == |sent|
  {
    Decided(table, Arrived(channel, Points(table, sent)))
  }

  /** Half the free distance, rounded down: 2 symbols, or 1 at rate 3/4. */
  function Tolerated(rate: Rate): nat { if rate.Half? then 2 else 1 }

  lemma MultipleGrows(a: nat, q: int)
    requires q >= 1
    ensures a * q >= a
  {
  }

  lemma PaddedIsWhole(coded: seq<Bit>, bps: nat)
    requires bps >= 1
    ensures Whole(Padded(coded, bps), bps)
  {
    var n: int := |coded|;
    var q, r := (-n) / bps, (-n) % bps;
    assert -n == bps * q + r;
    assert n + r == bps * (-q);
    if q > 0 { MultipleGrows(bps, q); }
    MultipleIsWhole(Padded(coded, bps), bps, -q);
  }

  /** Padding completes the last symbol with zero bits, as few as possible. */
  lemma PaddingCompletes(coded: seq<Bit>, bps: nat)
    requires bps >= 1
    ensures var all := Padded(coded, bps);
            && |all| % bps == 0 && |coded| <= |all| < |coded| + bps && all[..|coded|] == coded
            && forall i :: |coded| <= i < |all| ==> all[i] == 0
  {
    var n: int := |coded|;
    var q, r := (-n) / bps, (-n) % bps;
    assert -n == bps * q + r;
    assert |Padded(coded, bps)| == n + r == bps * (-q);
    MultipleRemainder(bps, -q);
  }

  lemma MultipleRemainder(bps: nat, q: int)
    requires bps >= 1
    ensures (bps * q) % bps == 0
  {
    var c, r := (bps * q) / bps, (bps * q) % bps;
    assert bps * q == bps * c + r;
    assert bps * (q - c) == r;
    if q > c { MultipleGrows(bps, q - c); }
    if q < c { MultipleGrows(bps, c - q); }
  }

  lemma {:induction false} GroupsFit(bits: seq<Bit>, bps: nat, n: nat)
    requires bps >= 1 && |bits| < bps * n + bps
    ensures |Groups(bits, bps)| <= n
  {
    hide Gray.IndexOf;
    if |bits| >= bps {
      assert bps * (n - 1) + bps == bps * n;
      GroupsFit(bits[..|bits| - bps], bps, n - 1);
    }
  }

  /** A coded trial takes no more symbols than the uncoded one would, and its payload is the largest
      that does, once two info bits fit. */
  lemma SymbolBudgetKept(table: Table, coding: string, soft: bool, nPayloadBits: nat, order: Prbs.Taps, seed: int,
                         channel: Channel)
    requires table.Valid() && Prbs.Supported(order) && RateOf(coding).Ok?
    requires CodedLength(RateOf(coding).value, 2) <= nPayloadBits / table.bps * table.bps
    ensures var r := RunLink(table, Some(coding), soft, nPayloadBits, order, seed, channel);
            r.Ok? && r.value.symbols <= nPayloadBits / table.bps
            && CodedLength(RateOf(coding).value, |r.value.txBits| + 1) > nPayloadBits / table.bps * table.bps
  {
    hide RateOf, Groups, Gray.Pow2, Received, ReceivedSoft, Ratios, Spell, Decided, CodedLength, Transmitted, RateTimes;
    var rate, budget := RateOf(coding).value, nPayloadBits / table.bps * table.bps;
    var u := InfoBits(rate, table.bps, nPayloadBits, order, seed);
    FirstGuessFits(rate, budget);
    TransmittedLength(rate, u);
    assert table.bps * (nPayloadBits / table.bps) == budget;
    GroupsFit(Padded(Transmitted(rate, u), table.bps), table.bps, nPayloadBits / table.bps);
  }

  lemma {:induction false} FlipsOfTruncation(a: seq<Bit>, c: seq<Bit>, d: seq<Bit>, n: nat)
    requires n <= |c| <= |a|
    ensures Flips(a[..|c|], c, n) == Flips(a, c + d, n)
  {
    hide Clash;
    if n > 0 { FlipsOfTruncation(a, c, d, n - 1); }
  }

  /** The coded part of a burst: decisions that miss by one label bit in fewer than half d_free
      symbols decode to the payload, whatever padding follows. */
  lemma BurstCorrects(rate: Rate, u: seq<Bit>, bps: nat, got: seq<nat>)
    requires bps >= 1
    requires NearMisses(got, Burst(rate, u, bps), bps) && 2 * Displaced(got, Burst(rate, u, bps)) < FreeDistance(rate)
    ensures |Spell(got, bps)| >= |Transmitted(rate, u)|
    ensures Received(rate, Prefix(Spell(got, bps), |Transmitted(rate, u)|), |u|) == u
  {
    hide Received, Transmitted, Flips, Displaced, Gray.Pow2, Groups, Spell, FreeDistance;
    var coded := Transmitted(rate, u);
    var all := Padded(coded, bps);
    var sent := Groups(all, bps);
    PaddedIsWhole(coded, bps);
    SpellOfGroups(all, bps);
    FlipsAreDisplaced(got, sent, bps);
    SpellLength(got, sent, bps);
    var bits := Spell(got, bps);
    FlipsOfTruncation(bits, coded, all[|coded|..], |coded|);
    assert all == coded + all[|coded|..];
    FlipsGrow(bits, all, |coded|, |all|);
    NoErasures(bits[..|coded|], |coded|);
    TransmittedAtHalf(rate, u);
    HardLinkCorrects(rate, bits[..|coded|], u);
  }

  lemma TransmittedAtHalf(rate: Rate, u: seq<Bit>)
    ensures rate.Half? ==> Transmitted(rate, u) == Encode(u)
  {
  }

  /** End to end, any Gray table: at most two symbols (one at rate 3/4) decided as a label one bit
      away, all others correctly, and the hard-decision link returns the transmitted info bits. */
  lemma HardLinkDelivers(table: Table, coding: string, nPayloadBits: nat, order: Prbs.Taps, seed: int, channel: Channel)
    requires table.Valid() && Prbs.Supported(order) && RateOf(coding).Ok?
    requires var rate := RateOf(coding).value;
             var u := InfoBits(rate, table.bps, nPayloadBits, order, seed);
             var sent := Burst(rate, u, table.bps);
             NearMisses(Sliced(table, channel, sent), sent, table.bps)
             && Displaced(Sliced(table, channel, sent), sent) <= Tolerated(rate)
    ensures var r := RunLink(table, Some(coding), false, nPayloadBits, order, seed, channel);
            r.Ok? && r.value.rxBits == r.value.txBits
                  == InfoBits(RateOf(coding).value, table.bps, nPayloadBits, order, seed)
  {
    hide Received, Transmitted, Displaced, Gray.Pow2, Groups, Spell, PayloadSize, Nearest, RateOf, Prbs.Payload;
    var rate := RateOf(coding).value;
    var u := InfoBits(rate, table.bps, nPayloadBits, order, seed);
    BurstCorrects(rate, u, table.bps, Sliced(table, channel, Burst(rate, u, table.bps)));
  }

  /** The demodulated bits that reach the decoder: the burst's slicer output cut to the coded length. */
  function CodedBits(table: Table, channel: Channel, rate: Rate, u: seq<Bit>): seq<Bit>
    requires table.Valid()
  {
    Prefix(Spell(Sliced(table, channel, Burst(rate, u, table.bps)), table.bps), |Transmitted(rate, u)|)
  }

  /** A hard trial in these parts. */
  lemma HardTrial(table: Table, coding: string, nPayloadBits: nat, order: Prbs.Taps, seed: int, channel: Channel)
    requires table.Valid() && Prbs.Supported(order) && RateOf(coding).Ok?
    ensures var r := RunLink(table, Some(coding), false, nPayloadBits, order, seed, channel);
            var rate := RateOf(coding).value;
            var u := InfoBits(rate, table.bps, nPayloadBits, order, seed);
            r.Ok? && r.value.txBits == u && r.value.rxBits == Received(rate, CodedBits(table, channel, rate, u), |u|)
  {
    hide Gray.Pow2, Groups, Spell, Nearest, PayloadSize, Prbs.Payload, Transmitted, Received, Padded, RateOf;
  }

  lemma CodedBitsLength(table: Table, channel: Channel, rate: Rate, u: seq<Bit>)
    requires table.Valid()
    ensures |CodedBits(table, channel, rate, u)| == |Transmitted(rate, u)|
  {
    hide Transmitted, Gray.Pow2, Groups, Spell, Nearest, Whole;
    var all := Padded(Transmitted(rate, u), table.bps);
    PaddedIsWhole(Transmitted(rate, u), table.bps);
    SpellOfGroups(all, table.bps);
    SpellLength(Sliced(table, channel, Groups(all, table.bps)), Groups(all, table.bps), table.bps);
  }

  /** Beyond the radius the link still returns a best explanation of what the slicer saw, at either rate and
      whatever the channel did: if some payload c fits with fewer than 2^30 mismatches, no payload v fits better
      than the one received. */
  lemma LinkIsMaximumLikelihood(table: Table, coding: string, nPayloadBits: nat, order: Prbs.Taps, seed: int,
                                channel: Channel, c: seq<Bit>, v: seq<Bit>)
    requires table.Valid() && Prbs.Supported(order) && RateOf(coding).Ok?
    requires var rate := RateOf(coding).value;
             var u := InfoBits(rate, table.bps, nPayloadBits, order, seed);
             var word := CodedBits(table, channel, rate, u);
             |c| == |v| == |u| && Flips(word, Transmitted(rate, c), |word|) < HARD_INF
    ensures var r := RunLink(table, Some(coding), false, nPayloadBits, order, seed, channel);
            var rate := RateOf(coding).value;
            var u := InfoBits(rate, table.bps, nPayloadBits, order, seed);
            var word := CodedBits(table, channel, rate, u);
            r.Ok? && r.value.txBits == u && |r.value.rxBits| == |u|
            && Flips(word, Transmitted(rate, r.value.rxBits), |word|) <= Flips(word, Transmitted(rate, v), |word|)
  {
    hide Gray.Pow2, Groups, Spell, Nearest, PayloadSize, Prbs.Payload, Flips, Transmitted, Received, Padded, RateOf;
    var rate := RateOf(coding).value;
    var u := InfoBits(rate, table.bps, nPayloadBits, order, seed);
    var word := CodedBits(table, channel, rate, u);
    CodedBitsLength(table, channel, rate, u);
    TransmittedLength(rate, u);
    TransmittedLength(rate, c);
    TransmittedLength(rate, v);
    TransmittedAtHalf(rate, v);
    ReceivedIsBest(rate, word, c, v);
    TransmittedLength(rate, Received(rate, word, |v|));
  }

  // ---- square QAM ------------------------------------------------------------------------

  function QamTable(k: nat): Table { Table(QamPoints(k), 2 * k) }

  /** Every decision is right or a nearest neighbour of the point that was sent. */
  ghost predicate GridMisses(k: nat, got: seq<nat>, sent: seq<nat>) {
    |got| == |sent| && forall s :: 0 <= s < |sent| ==>
      got[s] < |QamPoints(k)| && sent[s] < |QamPoints(k)|
      && (got[s] == sent[s] || OneStep(QamPoints(k)[got[s]], QamPoints(k)[sent[s]]))
  }

  lemma GridMissesAreNear(k: nat, got: seq<nat>, sent: seq<nat>)
    requires GridMisses(k, got, sent)
    ensures NearMisses(got, sent, 2 * k)
  {
    hide Gray.Pow2, Gray.Hamming, OneStep, QamPoint;
    forall s | 0 <= s < |sent| && got[s] != sent[s] ensures Gray.Hamming(got[s], sent[s]) == 1 {
      GridNeighboursDifferInOneBit(k, got[s], sent[s]);
    }
  }

  /** End to end on square QAM: at most two symbols (one at rate 3/4) land in a grid-adjacent cell,
      the others stay in their own, and the link returns the transmitted info bits. */
  lemma QamHardLinkDelivers(k: nat, coding: string, nPayloadBits: nat, order: Prbs.Taps, seed: int, channel: Channel)
    requires k >= 1 && Prbs.Supported(order) && RateOf(coding).Ok?
    requires var rate := RateOf(coding).value;
             var u := InfoBits(rate, 2 * k, nPayloadBits, order, seed);
             var sent := Burst(rate, u, 2 * k);
             GridMisses(k, Sliced(QamTable(k), channel, sent), sent)
             && Displaced(Sliced(QamTable(k), channel, sent), sent) <= Tolerated(rate)
    ensures var r := RunLink(QamTable(k), Some(coding), false, nPayloadBits, order, seed, channel);
            r.Ok? && r.value.rxBits == r.value.txBits
                  == InfoBits(RateOf(coding).value, 2 * k, nPayloadBits, order, seed)
  {
    hide Received, Transmitted, Displaced, Gray.Pow2, Groups, Spell, PayloadSize, Nearest, RateOf, InfoBits,
         GridMisses, NearMisses, Padded, RunLink;
    var rate := RateOf(coding).value;
    var u := InfoBits(rate, 2 * k, nPayloadBits, order, seed);
    GridMissesAreNear(k, Sliced(QamTable(k), channel, Burst(rate, u, 2 * k)), Burst(rate, u, 2 * k));
    HardLinkDelivers(QamTable(k), coding, nPayloadBits, order, seed, channel);
  }

  // ---- BPSK and QPSK -----------------------------------------------------------------------

  /** Every decision is right or lands on a point in the same row or column; in BPSK all of them do. */
  ghost predicate RowMisses(points: seq<Point>, got: seq<nat>, sent: seq<nat>) {
    |got| == |sent| && forall s :: 0 <= s < |sent| ==>
      got[s] < |points| && sent[s] < |points|
      && (got[s] == sent[s] || points[got[s]].i == points[sent[s]].i || points[got[s]].q == points[sent[s]].q)
  }

  lemma RowMissesAreNear(table: Table, got: seq<nat>, sent: seq<nat>)
    requires table == Table(BPSK, 1) || table == Table(QPSK, 2)
    requires RowMisses(table.points, got, sent)
    ensures NearMisses(got, sent, table.bps)
  {
    assert Gray.Pow2(1) == 2 && Gray.Pow2(2) == 4;
    hide Gray.Hamming, Gray.Pow2;
    forall s | 0 <= s < |sent| && got[s] != sent[s] ensures Gray.Hamming(got[s], sent[s]) == 1 {
      if table.bps == 2 { PskNeighboursDifferInOneBit(got[s], sent[s]); } else { PskNeighboursDifferInOneBit(0, 1); }
    }
  }

  /** End to end on BPSK and QPSK: at most two symbols (one at rate 3/4) decided as a neighbour, the others correctly,
      and the link returns the transmitted info bits. */
  lemma PskHardLinkDelivers(table: Table, coding: string, nPayloadBits: nat, order: Prbs.Taps, seed: int,
                            channel: Channel)
    requires table == Table(BPSK, 1) || table == Table(QPSK, 2)
    requires table.Valid() && Prbs.Supported(order) && RateOf(coding).Ok?
    requires var rate := RateOf(coding).value;
             var sent := Burst(rate, InfoBits(rate, table.bps, nPayloadBits, order, seed), table.bps);
             RowMisses(table.points, Sliced(table, channel, sent), sent)
             && Displaced(Sliced(table, channel, sent), sent) <= Tolerated(rate)
    ensures var r := RunLink(table, Some(coding), false, nPayloadBits, order, seed, channel);
            r.Ok? && r.value.rxBits == r.value.txBits
                  == InfoBits(RateOf(coding).value, table.bps, nPayloadBits, order, seed)
  {
    hide RunLink, InfoBits, Burst, RateOf, Sliced, RowMisses, NearMisses, Displaced, Gray.Pow2;
    var rate := RateOf(coding).value;
    var sent := Burst(rate, InfoBits(rate, table.bps, nPayloadBits, order, seed), table.bps);
    RowMissesAreNear(table, Sliced(table, channel, sent), sent);
    HardLinkDelivers(table, coding, nPayloadBits, order, seed, channel);
  }

  // ---- quiet channels ----------------------------------------------------------------------

  /** A table of 2^bps points on the grid. */
  ghost predicate OnGrid(table: Table) { table.Valid() && Separated(table.points) }

  /** The tables of the source are on the grid, except that of 8-PSK. */
  lemma TablesAreOnGrid(k: nat)
    ensures k >= 1 ==> OnGrid(QamTable(k))
    ensures OnGrid(Table(BPSK, 1)) && OnGrid(Table(QPSK, 2)) && OnGrid(Table(QAM32, 5))
  {
    hide Separated, QamPoints;
    QamIsSeparated(k);
    SmallTablesAreSeparated();
    CrossIsSeparated();
    assert Gray.Pow2(1) == 2 && Gray.Pow2(2) == 4 && Gray.Pow2(3) == 8 && Gray.Pow2(4) == 16 && Gray.Pow2(5) == 32;
  }

  /** Every symbol arrives within half a grid step of the point that was sent, on each axis. */
  ghost predicate QuietChannel(table: Table, channel: Channel, sent: seq<nat>) {
    forall s :: 0 <= s < |sent| && sent[s] < |table.points| ==>
      InsideCell(channel(s, table.points[sent[s]]), table.points[sent[s]])
  }

  lemma {:induction false} NoneDisplaced(sent: seq<nat>)
    ensures Displaced(sent, sent) == 0
  {
    if sent != [] { NoneDisplaced(sent[..|sent| - 1]); }
  }

  /** On a quiet channel the slicer returns the burst itself. */
  lemma QuietBurst(table: Table, channel: Channel, bits: seq<Bit>)
    requires OnGrid(table) && Whole(bits, table.bps) && QuietChannel(table, channel, Groups(bits, table.bps))
    ensures Sliced(table, channel, Groups(bits, table.bps)) == Groups(bits, table.bps)
    ensures NearMisses(Groups(bits, table.bps), Groups(bits, table.bps), table.bps)
  {
    hide Gray.Pow2, Groups, Whole, Nearest, InsideCell, Separated;
    var sent := Groups(bits, table.bps);
    var got := Sliced(table, channel, sent);
    SpellOfGroups(bits, table.bps);
    forall s | 0 <= s < |sent| ensures got[s] == sent[s] {
      DecisionInside(table.points, sent[s], channel(s, table.points[sent[s]]));
    }
  }

  /** Noise of less than half a grid step per axis, whatever its shape, costs nothing at all. */
  lemma QuietLinkDelivers(table: Table, coding: string, nPayloadBits: nat, order: Prbs.Taps, seed: int,
                          channel: Channel)
    requires OnGrid(table) && Prbs.Supported(order) && RateOf(coding).Ok?
    requires var rate := RateOf(coding).value;
             var u := InfoBits(rate, table.bps, nPayloadBits, order, seed);
             QuietChannel(table, channel, Burst(rate, u, table.bps))
    ensures var r := RunLink(table, Some(coding), false, nPayloadBits, order, seed, channel);
            r.Ok? && r.value.rxBits == r.value.txBits
                  == InfoBits(RateOf(coding).value, table.bps, nPayloadBits, order, seed)
  {
    hide Transmitted, Displaced, Gray.Pow2, Groups, Padded, RateOf, InfoBits, RunLink, QuietChannel, Sliced, NearMisses,
         Separated;
    var rate := RateOf(coding).value;
    var u := InfoBits(rate, table.bps, nPayloadBits, order, seed);
    PaddedIsWhole(Transmitted(rate, u), table.bps);
    QuietBurst(table, channel, Padded(Transmitted(rate, u), table.bps));
    NoneDisplaced(Burst(rate, u, table.bps));
    HardLinkDelivers(table, coding, nPayloadBits, order, seed, channel);
  }

  lemma {:induction false} RatiosFavour(table: Table, rx: seq<Point>, sent: seq<nat>, i: nat)
    requires OnGrid(table) && |rx| == |sent| && i < |Spell(sent, table.bps)|
    requires forall s :: 0 <= s < |sent| ==> sent[s] < |table.points| && InsideCell(rx[s], table.points[sent[s]])
    ensures |Ratios(table, rx)| == |Spell(sent, table.bps)|
    ensures Favours(Ratios(table, rx)[i], Spell(sent, table.bps)[i])
  {
    hide Gray.Pow2, Gray.BitsOf, InsideCell, Favours, Llr, Separated;
    var n := |sent| - 1;
    var head := |Spell(sent[..n], table.bps)|;
    RatiosLength(table, rx[..n], sent[..n]);
    if i < head {
      RatiosFavour(table, rx[..n], sent[..n], i);
    } else {
      LlrInside(table.points, table.bps, sent[n], rx[n], i - head);
    }
  }

  lemma {:induction false} RatiosLength(table: Table, rx: seq<Point>, sent: seq<nat>)
    requires table.Valid() && |rx| == |sent|
    ensures |Ratios(table, rx)| == |Spell(sent, table.bps)|
  {
    hide Gray.Pow2;
    if rx != [] { RatiosLength(table, rx[..|rx| - 1], sent[..|sent| - 1]); }
  }

  /** End to end with soft decisions on a quiet channel: every ratio favours the bit sent, so the
      link returns the transmitted info bits at either rate. */
  lemma QuietSoftLinkDelivers(table: Table, coding: string, nPayloadBits: nat, order: Prbs.Taps, seed: int,
                              channel: Channel)
    requires OnGrid(table) && Prbs.Supported(order) && RateOf(coding).Ok?
    requires var rate := RateOf(coding).value;
             var u := InfoBits(rate, table.bps, nPayloadBits, order, seed);
             QuietChannel(table, channel, Burst(rate, u, table.bps))
    ensures var r := RunLink(table, Some(coding), true, nPayloadBits, order, seed, channel);
            r.Ok? && r.value.rxBits == r.value.txBits
                  == InfoBits(RateOf(coding).value, table.bps, nPayloadBits, order, seed)
  {
    hide ReceivedSoft, Transmitted, Gray.Pow2, Groups, Spell, PayloadSize, RateOf, Prbs.Payload, Ratios, Reliability,
         InsideCell, Favours, LlrWord34, Separated;
    var rate := RateOf(coding).value;
    var u := InfoBits(rate, table.bps, nPayloadBits, order, seed);
    var coded := Transmitted(rate, u);
    var all := Padded(coded, table.bps);
    var sent := Burst(rate, u, table.bps);
    var rx := Arrived(channel, Points(table, sent));
    PaddedIsWhole(coded, table.bps);
    SpellOfGroups(all, table.bps);
    RatiosLength(table, rx, sent);
    var llr := Prefix(Ratios(table, rx), |coded|);
    forall i | 0 <= i < |coded| ensures Favours(llr[i], coded[i]) {
      RatiosFavour(table, rx, sent, i);
    }
    SoftLinkFollowsSigns(rate, llr, u);
  }

  /** The channel that changes nothing. */
  function Noiseless(): Channel { (s: nat, y: Point) => y }

  /** Without noise every coded trial on such a table is error-free, hard or soft, at every budget, order and seed. */
  lemma NoiselessLinkDelivers(table: Table, coding: string, soft: bool, nPayloadBits: nat, order: Prbs.Taps, seed: int)
    requires OnGrid(table) && Prbs.Supported(order) && RateOf(coding).Ok?
    ensures var r := RunLink(table, Some(coding), soft, nPayloadBits, order, seed, Noiseless());
            r.Ok? && r.value.rxBits == r.value.txBits
                  == InfoBits(RateOf(coding).value, table.bps, nPayloadBits, order, seed)
  {
    hide RunLink, InfoBits, Burst, RateOf, Separated;
    var rate := RateOf(coding).value;
    var bits := InfoBits(rate, table.bps, nPayloadBits, order, seed);
    assert QuietChannel(table, Noiseless(), Burst(rate, bits, table.bps));
    if soft {
      QuietSoftLinkDelivers(table, coding, nPayloadBits, order, seed, Noiseless());
    } else {
      QuietLinkDelivers(table, coding, nPayloadBits, order, seed, Noiseless());
    }
  }

  // ---- without coding ----------------------------------------------------------------------

  lemma BudgetIsWhole(bits: seq<Bit>, bps: nat, n: nat)
    requires bps >= 1 && |bits| == n / bps * bps
    ensures Whole(bits, bps)
  {
    assert bps * (n / bps) == n / bps * bps;
    MultipleIsWhole(bits, bps, n / bps);
  }

  /** Without coding the bit errors are the symbols decided a label bit away. */
  lemma UncodedLinkCounts(table: Table, nPayloadBits: nat, order: Prbs.Taps, seed: int, channel: Channel)
    requires table.Valid() && Prbs.Supported(order)
    requires var sent := Groups(Prbs.Payload(order, seed, nPayloadBits / table.bps * table.bps), table.bps);
             NearMisses(Decided(table, Arrived(channel, Points(table, sent))), sent, table.bps)
    ensures var r := RunLink(table, None, false, nPayloadBits, order, seed, channel).value;
            var sent := Groups(r.txBits, table.bps);
            r.txBits == Prbs.Payload(order, seed, nPayloadBits / table.bps * table.bps) && |r.rxBits| == |r.txBits|
            && Flips(r.rxBits, r.txBits, |r.txBits|)
               == Displaced(Decided(table, Arrived(channel, Points(table, sent))), sent)
  {
    hide Gray.Pow2, Groups, Spell, Nearest, Displaced, Flips, NearMisses;
    var bits := Prbs.Payload(order, seed, nPayloadBits / table.bps * table.bps);
    var sent := Groups(bits, table.bps);
    var got := Decided(table, Arrived(channel, Points(table, sent)));
    BudgetIsWhole(bits, table.bps, nPayloadBits);
    SpellOfGroups(bits, table.bps);
    SpellLength(got, sent, table.bps);
    FlipsAreDisplaced(got, sent, table.bps);
  }

  // ---- symbols ------------------------------------------------------------------------------

  lemma {:induction false} GroupsOfWhole(bits: seq<Bit>, bps: nat)
    requires bps >= 1 && Whole(bits, bps)
    ensures bps * |Groups(bits, bps)| == |bits|
  {
    hide Gray.IndexOf;
    if bits != [] {
      GroupsOfWhole(bits[..|bits| - bps], bps);
      OneMoreGroup(bps, |Groups(bits[..|bits| - bps], bps)|);
      hide Whole;
    }
  }

  lemma OneMoreGroup(bps: nat, n: nat)
    ensures bps * (n + 1) == bps * n + bps
  {
  }

  /** The symbols of a trial carry its bits exactly: the payload without coding, the padded codeword with it. */
  lemma SymbolsCarryTheBits(table: Table, coding: Option<string>, soft: bool, nPayloadBits: nat, order: Prbs.Taps,
                            seed: int, channel: Channel)
    requires table.Valid() && Prbs.Supported(order) && (coding.Some? ==> RateOf(coding.value).Ok?)
    ensures var r := RunLink(table, coding, soft, nPayloadBits, order, seed, channel);
            r.Ok? && table.bps * r.value.symbols
            == if coding.None? then |r.value.txBits|
               else |Padded(Transmitted(RateOf(coding.value).value, r.value.txBits), table.bps)|
  {
    hide Gray.Pow2, Groups, Spell, Decided, Received, ReceivedSoft, Ratios, PayloadSize, Prbs.Payload, Transmitted,
         Padded, RateOf, Whole;
    if coding.None? {
      var bits := Prbs.Payload(order, seed, nPayloadBits / table.bps * table.bps);
      BudgetIsWhole(bits, table.bps, nPayloadBits);
      GroupsOfWhole(bits, table.bps);
    } else {
      var rate := RateOf(coding.value).value;
      var u := InfoBits(rate, table.bps, nPayloadBits, order, seed);
      PaddedIsWhole(Transmitted(rate, u), table.bps);
      GroupsOfWhole(Padded(Transmitted(rate, u), table.bps), table.bps);
    }
  }
}
