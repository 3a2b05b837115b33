/** The K=3, generators (7,5) octal trellis of gr_autopilot/coding.py, built from its
    generator polynomials, and the closed form every other module uses. */
module Trellis {

  type Bit = b: int | b == 0 || b == 1
  type State = s: int | 0 <= s < 4

  const GENERATORS: seq<nat> := [7, 5]

  /** Bitwise and on unbounded naturals. */
  function And(x: nat, y: nat): nat {
    if x == 0 || y == 0 then 0 else 2 * And(x / 2, y / 2) + (x % 2) * (y % 2)
  }

  /** The number of one bits, modulo two. */
  function Parity(x: nat): Bit {
    if x == 0 then 0 else (x % 2 + Parity(x / 2)) % 2
  }

  /** The shift register [b_t, b_{t-1}, b_{t-2}] seen by the generators. */
  function Window(s: State, b: Bit): nat { 4 * b + s }

  function Xor(a: Bit, b: Bit): Bit { if a == b then 0 else 1 }

  /** The newer and the older bit of the two-bit memory. */
  function High(s: State): Bit { if s >= 2 then 1 else 0 }
  function Low(s: State): Bit { if s == 1 || s == 3 then 1 else 0 }

  /** Shifting one input bit into the memory. */
  function Next(s: State, b: Bit): State { 2 * b + High(s) }

  /** Output of generator g: 111 taps all three register bits, 101 skips the middle one. */
  function Out(s: State, b: Bit, g: Bit): Bit {
    if g == 0 then Xor(Xor(b, High(s)), Low(s)) else Xor(b, Low(s))
  }

  lemma MaskedWindow(x: nat)
    requires x < 8
    ensures And(x, 7) == x && And(x, 5) == 4 * (x / 4) + x % 2
  {
    assert And(x / 4, 1) == x / 4;
    assert And(x / 2, 3) == x / 2;
    assert And(x / 2, 2) == 2 * (x / 4);
  }

  lemma ParityOfWindow(x: nat)
    requires x < 8
    ensures Parity(x) == Xor(Xor(x / 4, x / 2 % 2), x % 2)
  {
    assert Parity(x / 4) == x / 4;
    assert Parity(x / 2) == (x / 2 % 2 + x / 4) % 2;
  }

  lemma WindowBits(s: State, b: Bit)
    ensures Window(s, b) / 4 == b && Window(s, b) / 2 % 2 == High(s) && Window(s, b) % 2 == Low(s)
    ensures s / 2 == High(s)
  {
  }

  /** The tables filled from the polynomials are the closed forms. */
  lemma GeneratorsMeanTaps(s: State, b: Bit)
    ensures Parity(And(Window(s, b), GENERATORS[0])) == Out(s, b, 0)
    ensures Parity(And(Window(s, b), GENERATORS[1])) == Out(s, b, 1)
  {
    hide And, Parity;
    WindowBits(s, b);
    MaskedWindow(Window(s, b));
    ParityOfWindow(Window(s, b));
    ParityOfWindow(4 * b + Low(s));
  }

  method BuildTrellis() returns (nxt: array2<State>, out: array3<Bit>)
    ensures nxt.Length0 == 4 && nxt.Length1 == 2
    ensures out.Length0 == 4 && out.Length1 == 2 && out.Length2 == 2
    ensures forall s: State, b: Bit :: nxt[s, b] == Next(s, b)
    ensures forall s: State, b: Bit, g: Bit :: out[s, b, g] == Out(s, b, g)
  {
    hide And, Parity, Out, Next;
    nxt := new State[4, 2]((i, j) => 0);
    out := new Bit[4, 2, 2]((i, j, k) => 0);
    for s := 0 to 4
      invariant forall s': State, b: Bit :: s' < s ==> nxt[s', b] == Next(s', b)
      invariant forall s': State, b: Bit, g: Bit :: s' < s ==> out[s', b, g] == Out(s', b, g)
    {
      for b := 0 to 2
        invariant forall s': State, b': Bit :: s' < s || (s' == s && b' < b) ==> nxt[s', b'] == Next(s', b')
        invariant forall s': State, b': Bit, g: Bit ::
            s' < s || (s' == s && b' < b) ==> out[s', b', g] == Out(s', b', g)
      {
        var window := 4 * b + s;
        GeneratorsMeanTaps(s, b);
        out[s, b, 0] := Parity(And(window, GENERATORS[0]));
        out[s, b, 1] := Parity(And(window, GENERATORS[1]));
        ShiftIsNext(s, b);
        nxt[s, b] := 2 * b + s / 2;
      }
    }
  }

  lemma ShiftIsNext(s: State, b: Bit)
    ensures 2 * b + s / 2 == Next(s, b)
  {
  }
}
