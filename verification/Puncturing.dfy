/** gr_autopilot/coding.py: puncturing to rate 3/4 and rebuilding the mother-code stream with
    erasures, for any puncturing pattern. */
module Puncturing {
  import opened Trellis
  import opened Viterbi
  import opened ConvCode
  import opened HardDecoder
  import opened ErrorCorrection

  /** Column i says which of the two generator outputs of input i, modulo the period, is kept. */
  type Pattern = p: seq<(bool, bool)> | |p| > 0 witness [(true, true)]

  const PUNCT_R34: Pattern := [(true, true), (true, false), (false, true)]

  predicate Keeps(pattern: Pattern, t: nat, g: Bit) {
    if g == 0 then pattern[t % |pattern|].0 else pattern[t % |pattern|].1
  }

  function One(kept: bool): nat { if kept then 1 else 0 }

  /** How many positions of the first t inputs are transmitted. */
  function Sent(pattern: Pattern, t: nat): nat {
    if t == 0 then 0
    else Sent(pattern, t - 1) + One(Keeps(pattern, t - 1, 0)) + One(Keeps(pattern, t - 1, 1))
  }

  /** Where output g of input t lands in the punctured stream, if it is transmitted. */
  function Rank(pattern: Pattern, t: nat, g: Bit): nat {
    Sent(pattern, t) + (if g == 1 then One(Keeps(pattern, t, 0)) else 0)
  }

  /** The kept bits of the first t inputs, in order. */
  function Punctured(pattern: Pattern, coded: seq<Bit>, t: nat): (kept: seq<Bit>)
    requires 2 * t <= |coded|
    ensures |kept| == Sent(pattern, t)
  {
    if t == 0 then [] else
      Punctured(pattern, coded, t - 1)
      + (if Keeps(pattern, t - 1, 0) then [coded[2 * t - 2]] else [])
      + (if Keeps(pattern, t - 1, 1) then [coded[2 * t - 1]] else [])
  }

  /** Every kept bit sits at its rank. */
  lemma {:induction false} PuncturedAtRank(pattern: Pattern, coded: seq<Bit>, n: nat, t: nat, g: Bit)
    requires t < n && 2 * n <= |coded| && Keeps(pattern, t, g)
    ensures Rank(pattern, t, g) < Sent(pattern, n)
    ensures Punctured(pattern, coded, n)[Rank(pattern, t, g)] == coded[2 * t + g]
  {
    hide Keeps;
    if t < n - 1 {
      PuncturedAtRank(pattern, coded, n - 1, t, g);
    }
  }

  method Puncture(coded: seq<Bit>, pattern: Pattern) returns (keep: seq<Bit>)
    ensures keep == Punctured(pattern, coded, |coded| / 2)
  {
    hide Sent;
    keep := [];
    for i := 0 to |coded| / 2
      invariant keep == Punctured(pattern, coded, i)
    {
      var p := pattern[i % |pattern|];
      if p.0 { keep := keep + [coded[2 * i]]; }
      if p.1 { keep := keep + [coded[2 * i + 1]]; }
    }
  }

  // ---- depuncturing --------------------------------------------------------------

  /** What a rebuilt position holds: the received value at its rank, or the hole. */
  function Filled<T>(pattern: Pattern, recv: seq<T>, hole: T, t: nat, g: Bit): T {
    if Keeps(pattern, t, g) && Rank(pattern, t, g) < |recv| then recv[Rank(pattern, t, g)] else hole
  }

  /** The rebuilt rate-1/2 stream of the first t inputs. */
  function Rebuilt<T>(pattern: Pattern, recv: seq<T>, hole: T, t: nat): (out: seq<T>)
    ensures |out| == 2 * t
    ensures forall i: nat, g: Bit :: i < t ==> out[2 * i + g] == Filled(pattern, recv, hole, i, g)
  {
    if t == 0 then [] else
      Rebuilt(pattern, recv, hole, t - 1)
      + [Filled(pattern, recv, hole, t - 1, 0), Filled(pattern, recv, hole, t - 1, 1)]
  }

  /** How many received values are used up before input t. */
  function Cursor<T>(pattern: Pattern, recv: seq<T>, t: nat): nat {
    if Sent(pattern, t) < |recv| then Sent(pattern, t) else |recv|
  }

  lemma CursorStart<T>(pattern: Pattern, recv: seq<T>)
    ensures Cursor(pattern, recv, 0) == 0
  {
  }

  /** One input of the rebuilding loop, read off the cursor. */
  lemma CursorStep<T>(pattern: Pattern, recv: seq<T>, hole: T, t: nat)
    ensures var j := Cursor(pattern, recv, t);
            var take0 := pattern[t % |pattern|].0 && j < |recv|;
            var j1 := if take0 then j + 1 else j;
            var take1 := pattern[t % |pattern|].1 && j1 < |recv|;
            && Rebuilt(pattern, recv, hole, t + 1) == Rebuilt(pattern, recv, hole, t)
                 + [if take0 then recv[j] else hole, if take1 then recv[j1] else hole]
            && Cursor(pattern, recv, t + 1) == if take1 then j1 + 1 else j1
  {
  }

  method Depuncture(recv: seq<Symbol>, nInputs: nat, pattern: Pattern) returns (out: seq<Symbol>)
    ensures out == Rebuilt(pattern, recv, -1, nInputs)
  {
    hide Rebuilt, Filled, Sent;
    var a := new Symbol[2 * nInputs](i => -1);
    var j := 0;
    CursorStart(pattern, recv);
    for i := 0 to nInputs
      invariant j == Cursor(pattern, recv, i)
      invariant a[..2 * i] == Rebuilt(pattern, recv, -1, i)
      invariant forall k :: 2 * i <= k < 2 * nInputs ==> a[k] == -1
    {
      ghost var done := a[..2 * i];
      var p := pattern[i % |pattern|];
      CursorStep(pattern, recv, -1, i);
      if p.0 && j < |recv| { a[2 * i] := recv[j]; j := j + 1; }
      if p.1 && j < |recv| { a[2 * i + 1] := recv[j]; j := j + 1; }
      assert a[..2 * i + 2] == done + [a[2 * i], a[2 * i + 1]];
    }
    out := a[..];
    assert out == a[..2 * nInputs];
  }

  /** The soft twin: a hole is a zero log-likelihood ratio. */
  method DepunctureSoft(recv: seq<real>, nInputs: nat, pattern: Pattern) returns (out: seq<real>)
    ensures out == Rebuilt(pattern, recv, 0.0, nInputs)
  {
    hide Rebuilt, Filled, Sent;
    var a := new real[2 * nInputs](i => 0.0);
    var j := 0;
    CursorStart(pattern, recv);
    for i := 0 to nInputs
      invariant j == Cursor(pattern, recv, i)
      invariant a[..2 * i] == Rebuilt(pattern, recv, 0.0, i)
      invariant forall k :: 2 * i <= k < 2 * nInputs ==> a[k] == 0.0
    {
      ghost var done := a[..2 * i];
      var p := pattern[i % |pattern|];
      CursorStep(pattern, recv, 0.0, i);
      if p.0 && j < |recv| { a[2 * i] := recv[j]; j := j + 1; }
      if p.1 && j < |recv| { a[2 * i + 1] := recv[j]; j := j + 1; }
      assert a[..2 * i + 2] == done + [a[2 * i], a[2 * i + 1]];
    }
    out := a[..];
    assert out == a[..2 * nInputs];
  }

  /** Rebuilding a punctured stream restores every kept bit and erases every other position. */
  lemma RebuildAfterPuncture(pattern: Pattern, coded: seq<Bit>, n: nat, t: nat, g: Bit)
    requires t < n && 2 * n <= |coded|
    ensures Rebuilt<Symbol>(pattern, Punctured(pattern, coded, n), -1, n)[2 * t + g]
         == if Keeps(pattern, t, g) then coded[2 * t + g] else -1
  {
    hide Keeps, Rank, Sent, Punctured, Rebuilt;
    var kept := Punctured(pattern, coded, n);
    assert Rebuilt<Symbol>(pattern, kept, -1, n)[2 * t + g] == Filled<Symbol>(pattern, kept, -1, t, g);
    if Keeps(pattern, t, g) { PuncturedAtRank(pattern, coded, n, t, g); }
  }

  // ---- rate 3/4 ------------------------------------------------------------------

  lemma KeepsIsKept(t: nat, g: Bit)
    ensures Keeps(PUNCT_R34, t, g) == Kept(ThreeQuarters, t, g)
  {
  }

  /** Four of every six coded bits are sent: 0, 2 and 3 extra bits in the three phases. */
  lemma {:induction false} SentClosedForm(m: nat)
    ensures Sent(PUNCT_R34, m) == 4 * (m / 3) + (if m % 3 == 0 then 0 else if m % 3 == 1 then 2 else 3)
  {
    hide Keeps;
    if m > 0 {
      SentClosedForm(m - 1);
      KeepsIsKept(m - 1, 0);
      KeepsIsKept(m - 1, 1);
    }
  }

  /** The rate-3/4 stream of a payload, and the word its receiver decodes. */
  function Stream34(u: seq<Bit>): seq<Bit> { Punctured(PUNCT_R34, Encode(u), |u| + 2) }

  function Word34(recv: seq<Symbol>, n: nat): seq<Symbol> { Rebuilt(PUNCT_R34, recv, -1, n + 2) }

  lemma FilledSymbol(recv: seq<Symbol>, n: nat, t: nat, g: Bit)
    requires t < n
    ensures SymbolAt(Rebuilt(PUNCT_R34, recv, -1, n), 2 * t + g)
         == if Keeps(PUNCT_R34, t, g) then SymbolAt(recv, Rank(PUNCT_R34, t, g)) else -1
  {
    hide Keeps, Rank;
    assert Rebuilt(PUNCT_R34, recv, -1, n)[2 * t + g] == Filled(PUNCT_R34, recv, -1, t, g);
  }

  /** Flips and losses of the rebuilt word are those of the channel word; bits missing at the end count as lost. */
  lemma {:induction false} RebuiltErrors(recv: seq<Symbol>, u: seq<Bit>, t: nat)
    requires t <= |u| + 2
    ensures Flips(Word34(recv, |u|), Encode(u), 2 * t) == Flips(recv, Stream34(u), Sent(PUNCT_R34, t))
    ensures KeptErasures(ThreeQuarters, Word34(recv, |u|), t) == Erasures(recv, Sent(PUNCT_R34, t))
    ensures 2 * t - Erasures(Word34(recv, |u|), 2 * t) <= Sent(PUNCT_R34, t)
  {
    hide Keeps, Encode, Punctured, Rebuilt, Kept;
    if t > 0 {
      RebuiltErrors(recv, u, t - 1);
      RebuiltStep(recv, u, t - 1);
    }
  }

  lemma RebuiltStep(recv: seq<Symbol>, u: seq<Bit>, t: nat)
    requires t < |u| + 2
    ensures var w, c, s := Word34(recv, |u|), Encode(u), Stream34(u);
            var f, f1 := Sent(PUNCT_R34, t), Sent(PUNCT_R34, t + 1);
            && Flips(w, c, 2 * t + 2) - Flips(w, c, 2 * t) == Flips(recv, s, f1) - Flips(recv, s, f)
            && StepErasures(ThreeQuarters, w, t) == Erasures(recv, f1) - Erasures(recv, f)
            && Erasures(w, 2 * t + 2) - Erasures(w, 2 * t) >= 2 - (f1 - f)
  {
    hide Keeps, Encode, Punctured, Rebuilt, Kept, SymbolAt, Rank;
    var w, c := Word34(recv, |u|), Encode(u);
    var f := Sent(PUNCT_R34, t);
    KeepsIsKept(t, 0);
    KeepsIsKept(t, 1);
    FilledSymbol(recv, |u| + 2, t, 0);
    FilledSymbol(recv, |u| + 2, t, 1);
    RankCases(t);
    SentTap(u, t, 0);
    SentTap(u, t, 1);
    assert Flips(w, c, 2 * t + 2) == Flips(w, c, 2 * t + 1) + Clash(SymbolAt(w, 2 * t + 1), Tap(c, 2 * t + 1));
    assert Erasures(w, 2 * t + 2) == Erasures(w, 2 * t + 1) + Lost(SymbolAt(w, 2 * t + 1));
  }

  lemma RankCases(t: nat)
    ensures Rank(PUNCT_R34, t, 0) == Sent(PUNCT_R34, t)
    ensures Rank(PUNCT_R34, t, 1) == Sent(PUNCT_R34, t) + One(Keeps(PUNCT_R34, t, 0))
  {
    hide Keeps;
  }

  lemma SentTap(u: seq<Bit>, t: nat, g: Bit)
    requires t < |u| + 2
    ensures Keeps(PUNCT_R34, t, g) ==> Tap(Stream34(u), Rank(PUNCT_R34, t, g)) == Tap(Encode(u), 2 * t + g)
  {
    hide Keeps, Rank, Encode, Punctured, Sent;
    if Keeps(PUNCT_R34, t, g) { PuncturedAtRank(PUNCT_R34, Encode(u), |u| + 2, t, g); }
  }

  /** Rate 3/4 survives one flip, or two losses: erasures anywhere or bits missing from the end. */
  lemma ThreeQuarterRateCorrects(recv: seq<Symbol>, u: seq<Bit>)
    requires 2 * Flips(recv, Stream34(u), |Stream34(u)|) + Erasures(recv, |Stream34(u)|) <= 2
    ensures HardBits(Word34(recv, |u|), |u|) == u
  {
    hide Keeps, Punctured, HardBits, Flips, Erasures, Encode, KeptErasures, Rebuilt;
    RebuiltErrors(recv, u, |u| + 2);
    assert |Encode(u)| == 2 * (|u| + 2);
    WithinRadius(ThreeQuarters, Word34(recv, |u|), u);
  }

  /** Maximum likelihood at rate 3/4: if some payload's stream fits with fewer mismatches than the sentinel, no
      payload's stream fits better than that of the payload returned, missing trailing bits included. */
  lemma PuncturedIsMaximumLikelihood(recv: seq<Symbol>, c: seq<Bit>, v: seq<Bit>)
    requires |c| == |v| && Flips(recv, Stream34(c), |Stream34(c)|) < HARD_INF
    ensures var r := HardBits(Word34(recv, |v|), |v|);
            |r| == |v| && Flips(recv, Stream34(r), |Stream34(r)|) <= Flips(recv, Stream34(v), |Stream34(v)|)
  {
    hide Keeps, Punctured, HardBits, Flips, Erasures, Encode, KeptErasures, Rebuilt, Sent, Decode;
    var w, n := Word34(recv, |v|), |v|;
    RebuiltErrors(recv, c, n + 2);
    assert |c| == n && Flips(w, Encode(c), 2 * (n + 2)) < HARD_INF;
    HardIsMaximumLikelihood(w, v);
    RebuiltErrors(recv, v, n + 2);
    RebuiltErrors(recv, HardBits(w, n), n + 2);
  }

  /** The radius is sharp: three losses can cost the payload. */
  lemma ThreeQuarterRadiusIsSharp()
    ensures exists recv: seq<Symbol>, u: seq<Bit> ::
              2 * Flips(recv, Stream34(u), |Stream34(u)|) + Erasures(recv, |Stream34(u)|) == 3
              && HardBits(Word34(recv, |u|), |u|) != u
  {
    hide HardBits, Flips, Erasures, Stream34, Rebuilt;
    var recv: seq<Symbol> := [0, 0, -1, 0, -1, -1];
    StreamOfTwo(0);
    StreamOfTwo(1);
    var u: seq<Bit> := if HardBits(Word34(recv, 2), 2) == [0, 0] then [0, 1] else [0, 0];
    NoFlips(recv, Stream34(u), 6);
    ThreeErasures(recv);
    assert 2 * Flips(recv, Stream34(u), |Stream34(u)|) + Erasures(recv, |Stream34(u)|) == 3;
  }

  lemma StreamOfTwo(b: Bit)
    ensures Stream34([0, b]) == [0, 0, b, 0, b, b]
  {
    hide Encode;
    CodeOfTwo(b);
    var c := Encode([0, b]);
    assert Punctured(PUNCT_R34, c, 1) == [0, 0];
    assert Punctured(PUNCT_R34, c, 2) == [0, 0, b];
    assert Punctured(PUNCT_R34, c, 3) == [0, 0, b, 0];
    assert Punctured(PUNCT_R34, c, 4) == [0, 0, b, 0, b, b];
  }

  lemma CodeOfTwo(b: Bit)
    ensures var c := Encode([0, b]); c[0] == c[1] == 0 && c[2] == b && c[5] == 0 && c[6] == c[7] == b
  {
    hide Encode;
    var u := [0, b];
    assert Tap(u, -2) == Tap(u, -1) == Tap(u, 0) == Tap(u, 2) == Tap(u, 3) == 0 && Tap(u, 1) == b;
    EncodeIsConvolution(u, 0);
    EncodeIsConvolution(u, 1);
    EncodeIsConvolution(u, 2);
    EncodeIsConvolution(u, 3);
  }

  lemma ThreeErasures(recv: seq<Symbol>)
    requires recv == [0, 0, -1, 0, -1, -1]
    ensures Erasures(recv, 6) == 3
  {
    assert Erasures(recv, 1) == 0;
    assert Erasures(recv, 2) == 0;
    assert Erasures(recv, 3) == 1;
    assert Erasures(recv, 4) == 1;
    assert Erasures(recv, 5) == 2;
  }
}
