/** gr_autopilot/coding.py: the convolutional encoder, its linearity, and the distance between
    codewords at the positions each rate transmits. */
module ConvCode {
  import opened Trellis
  import opened Viterbi

  /** Output g of step t when the inputs are p. */
  function CodeBit(p: seq<Bit>, t: nat, g: Bit): Bit {
    Out(StateAt(p, t), Tap(p, t), g)
  }

  /** The coded bits of the first n steps. */
  function Codeword(p: seq<Bit>, n: nat): (c: seq<Bit>)
    ensures |c| == 2 * n
    ensures forall t: nat, g: Bit :: t < n ==> c[2 * t + g] == CodeBit(p, t, g)
  {
    if n == 0 then [] else Codeword(p, n - 1) + [CodeBit(p, n - 1, 0), CodeBit(p, n - 1, 1)]
  }

  /** Encoding with the zero tail: past the payload every input is 0. */
  function Encode(u: seq<Bit>): (c: seq<Bit>)
    ensures |c| == 2 * (|u| + 2)
  {
    Codeword(u, |u| + 2)
  }

  /** The register-driven encoder computes the two generator convolutions 1+D+D^2 and 1+D^2. */
  lemma EncodeIsConvolution(u: seq<Bit>, t: nat)
    requires t < |u| + 2
    ensures Encode(u)[2 * t] == Xor(Xor(Tap(u, t), Tap(u, t - 1)), Tap(u, t - 2))
    ensures Encode(u)[2 * t + 1] == Xor(Tap(u, t), Tap(u, t - 2))
  {
    assert Encode(u)[2 * t + 0] == CodeBit(u, t, 0) && Encode(u)[2 * t + 1] == CodeBit(u, t, 1);
    StateBits(u, t);
  }

  lemma StateBits(p: seq<Bit>, t: nat)
    ensures High(StateAt(p, t)) == Tap(p, t - 1) && Low(StateAt(p, t)) == Tap(p, t - 2)
  {
  }

  /** The flush returns the encoder to the zero state. */
  lemma FlushEndsAtZero(u: seq<Bit>)
    ensures StateAt(u, |u| + 2) == 0
  {
  }

  method ConvEncode(bits: seq<Bit>) returns (coded: seq<Bit>)
    ensures coded == Encode(bits)
  {
    hide Out, Next, Codeword;
    var s: State := 0;
    var out := new Bit[(|bits| + 2) * 2](i => 0);
    var j := 0;
    var input := bits + [0, 0];
    StateAtStart(bits);
    for t := 0 to |input|
      invariant j == 2 * t && s == StateAt(bits, t)
      invariant forall i: nat, g: Bit :: i < t ==> out[2 * i + g] == CodeBit(bits, i, g)
    {
      var b := input[t];
      assert b == Tap(bits, t);
      StateStep(bits, t);
      out[j] := Out(s, b, 0);
      out[j + 1] := Out(s, b, 1);
      s := Next(s, b);
      j := j + 2;
    }
    coded := out[..];
    forall k | 0 <= k < |coded| ensures coded[k] == Encode(bits)[k] {
      assert k == 2 * (k / 2) + k % 2;
      assert coded[2 * (k / 2) + k % 2] == CodeBit(bits, k / 2, k % 2);
    }
  }

  // ---- linearity ---------------------------------------------------------------

  /** The inputs on which p and q differ. */
  function Difference(p: seq<Bit>, q: seq<Bit>): (d: seq<Bit>) {
    var n := if |p| < |q| then |q| else |p|;
    seq(n, i requires 0 <= i < n => Xor(Tap(p, i), Tap(q, i)))
  }

  lemma DifferenceTap(p: seq<Bit>, q: seq<Bit>, i: int)
    ensures Tap(Difference(p, q), i) == Xor(Tap(p, i), Tap(q, i))
  {
  }

  /** The code is linear: the codewords of p and q differ exactly where their difference encodes to 1. */
  lemma Linearity(p: seq<Bit>, q: seq<Bit>, t: nat, g: Bit)
    ensures CodeBit(Difference(p, q), t, g) == Xor(CodeBit(p, t, g), CodeBit(q, t, g))
  {
    hide Tap, Difference, StateAt;
    StateBits(p, t);
    StateBits(q, t);
    StateBits(Difference(p, q), t);
    DifferenceTap(p, q, t);
    DifferenceTap(p, q, t - 1);
    DifferenceTap(p, q, t - 2);
  }

  // ---- distance ----------------------------------------------------------------

  /** The two rates of the source: all coded bits, or four of every six. */
  datatype Rate = Half | ThreeQuarters

  /** Whether output g of step t is transmitted. */
  predicate Kept(rate: Rate, t: nat, g: Bit) {
    rate.Half? || t % 3 == 0 || (t % 3 == 1 && g == 0) || (t % 3 == 2 && g == 1)
  }

  function KeptOnes(rate: Rate, t: nat, c0: Bit, c1: Bit): nat {
    (if Kept(rate, t, 0) then c0 else 0) + (if Kept(rate, t, 1) then c1 else 0)
  }

  /** Transmitted ones in the first t steps of the codeword of d. */
  function KeptWeight(rate: Rate, d: seq<Bit>, t: nat): nat {
    if t == 0 then 0
    else KeptWeight(rate, d, t - 1) + KeptOnes(rate, t - 1, CodeBit(d, t - 1, 0), CodeBit(d, t - 1, 1))
  }

  function StepDistance(rate: Rate, p: seq<Bit>, q: seq<Bit>, t: nat): nat {
    KeptOnes(rate, t, Xor(CodeBit(p, t, 0), CodeBit(q, t, 0)), Xor(CodeBit(p, t, 1), CodeBit(q, t, 1)))
  }

  /** Transmitted positions in the first t steps where the codewords of p and q differ. */
  function KeptDistance(rate: Rate, p: seq<Bit>, q: seq<Bit>, t: nat): nat {
    if t == 0 then 0 else KeptDistance(rate, p, q, t - 1) + StepDistance(rate, p, q, t - 1)
  }

  lemma {:induction false} DistanceIsWeight(rate: Rate, p: seq<Bit>, q: seq<Bit>, t: nat)
    ensures KeptDistance(rate, p, q, t) == KeptWeight(rate, Difference(p, q), t)
  {
    hide KeptOnes, CodeBit, Difference;
    if t > 0 {
      DistanceIsWeight(rate, p, q, t - 1);
      Linearity(p, q, t - 1, 0);
      Linearity(p, q, t - 1, 1);
    }
  }

  function FreeDistance(rate: Rate): nat { if rate.Half? then 5 else 3 }

  /** The least transmitted weight still to come before state s can reach 0 from step t on. */
  function Potential(rate: Rate, s: State, t: nat): nat {
    match s
    case 0 => 0
    case 1 => if rate.Half? || t % 3 == 0 then 2 else 1
    case 2 => if rate.Half? then 3 else 2
    case _ => if rate.Half? then 3 else if t % 3 == 1 then 1 else 2
  }

  /** No branch lowers the potential by more than the weight it transmits; leaving 0 secures d_free. */
  lemma PotentialStep(rate: Rate, s: State, b: Bit, t: nat)
    ensures Potential(rate, s, t) <= KeptOnes(rate, t, Out(s, b, 0), Out(s, b, 1)) + Potential(rate, Next(s, b), t + 1)
    ensures s == 0 && b == 1 ==>
              FreeDistance(rate) <= KeptOnes(rate, t, Out(s, b, 0), Out(s, b, 1)) + Potential(rate, Next(s, b), t + 1)
  {
    PhaseStep(t);
  }

  lemma PhaseStep(t: nat)
    ensures (t + 1) % 3 == if t % 3 == 2 then 0 else t % 3 + 1
  {
  }

  predicate ZeroBelow(d: seq<Bit>, t: nat) { forall i :: 0 <= i < t ==> Tap(d, i) == 0 }

  lemma {:induction false} WeightSoFar(rate: Rate, d: seq<Bit>, t: nat)
    ensures if ZeroBelow(d, t) then StateAt(d, t) == 0
            else FreeDistance(rate) <= KeptWeight(rate, d, t) + Potential(rate, StateAt(d, t), t)
  {
    hide Out, Next, KeptOnes, Potential, FreeDistance;
    if t > 0 {
      WeightSoFar(rate, d, t - 1);
      var s, b := StateAt(d, t - 1), Tap(d, t - 1);
      StateStep(d, t - 1);
      PotentialStep(rate, s, b, t - 1);
      if ZeroBelow(d, t) {
        assert Tap(d, t - 1) == 0 == Tap(d, t - 2);
      } else if ZeroBelow(d, t - 1) {
        assert b == 1;
      }
    }
  }

  /** Two different flushed payloads differ in at least 5 coded bits, 3 of them when punctured,
      at whichever phase of the pattern they diverge. */
  lemma CodewordsFarApart(rate: Rate, p: seq<Bit>, q: seq<Bit>, n: nat, i: nat)
    requires StateAt(p, n) == StateAt(q, n) == 0
    requires i < n && Tap(p, i) != Tap(q, i)
    ensures KeptDistance(rate, p, q, n) >= FreeDistance(rate)
  {
    hide Tap, Difference, KeptWeight, KeptDistance;
    var d := Difference(p, q);
    DifferenceTap(p, q, i);
    DifferenceTap(p, q, n - 1);
    DifferenceTap(p, q, n - 2);
    assert StateAt(d, n) == 0;
    DistanceIsWeight(rate, p, q, n);
    WeightSoFar(rate, d, n);
    assert !ZeroBelow(d, n);
  }
}
