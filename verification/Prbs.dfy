/** gr_autopilot/scoring/payload.py: the linear-feedback shift register behind the known payload. */
module Prbs {
  import opened Trellis
  import G = Gray

  /** Register length and feedback taps, 1-indexed, of a supported order. */
  datatype Taps = Taps(m: nat, t: nat)

  function TapsOf(order: int): (r: seq<Taps>)
    ensures |r| <= 1 && forall x :: x in r ==> x.m == order && 1 <= x.t < x.m
  {
    if order == 7 then [Taps(7, 6)]
    else if order == 9 then [Taps(9, 5)]
    else if order == 11 then [Taps(11, 9)]
    else if order == 15 then [Taps(15, 14)]
    else if order == 20 then [Taps(20, 3)]
    else if order == 23 then [Taps(23, 18)]
    else []
  }

  ghost predicate Supported(x: Taps) { TapsOf(x.m) == [x] }

  /** Bit j of the register: (state >> j) & 1. */
  function BitAt(s: nat, j: nat): Bit { G.High(s, j) % 2 }

  function Feedback(x: Taps, s: nat): Bit
    requires x.m >= 1 && x.t >= 1
  {
    Xor(BitAt(s, x.m - 1), BitAt(s, x.t - 1))
  }

  /** ((state << 1) | feedback) masked to m bits. */
  function Clock(x: Taps, s: nat): nat
    requires x.m >= 1 && x.t >= 1
  {
    G.Low(2 * s + Feedback(x, s), x.m)
  }

  /** The masked seed, or 1 where that would be the lock-up state. */
  function Start(x: Taps, seed: int): nat {
    if seed % G.Pow2(x.m) == 0 then 1 else seed % G.Pow2(x.m)
  }

  function Register(x: Taps, seed: int, i: nat): nat
    requires x.m >= 1 && x.t >= 1
  {
    if i == 0 then Start(x, seed) else Clock(x, Register(x, seed, i - 1))
  }

  /** Payload bit i: the most significant register bit after i clocks. */
  function Output(x: Taps, seed: int, i: nat): Bit
    requires x.m >= 1 && x.t >= 1
  {
    BitAt(Register(x, seed, i), x.m - 1)
  }

  function Payload(x: Taps, seed: int, n: nat): (bits: seq<Bit>)
    requires x.m >= 1 && x.t >= 1
    ensures |bits| == n
  {
    seq(n, i requires 0 <= i => Output(x, seed, i))
  }

  datatype Result = Ok(bits: seq<Bit>) | UnsupportedOrder | NegativeLength

  method Generate(order: int, nBits: int, seed: int) returns (r: Result)
    ensures TapsOf(order) == [] ==> r == UnsupportedOrder
    ensures TapsOf(order) != [] && nBits < 0 ==> r == NegativeLength
    ensures TapsOf(order) != [] && nBits >= 0 ==> r == Ok(Payload(TapsOf(order)[0], seed, nBits))
  {
    hide G.High, G.Low, TapsOf, G.Pow2, BitAt;
    if TapsOf(order) == [] { return UnsupportedOrder; }
    if nBits < 0 { return NegativeLength; }
    var x := TapsOf(order)[0];
    var state := Start(x, seed);
    var out := new Bit[nBits](i => 0);
    for i := 0 to nBits
      invariant state == Register(x, seed, i)
      invariant forall k :: 0 <= k < i ==> out[k] == Output(x, seed, k)
    {
      out[i] := BitAt(state, x.m - 1);
      var feedback: Bit := 0;
      feedback := Xor(feedback, BitAt(state, x.m - 1));
      feedback := Xor(feedback, BitAt(state, x.t - 1));
      state := G.Low(2 * state + feedback, x.m);
    }
    return Ok(out[..]);
  }

  // ---- the register ------------------------------------------------------------------

  lemma {:induction false} LowBit(s: nat, k: nat, j: nat)
    requires j < k
    ensures BitAt(G.Low(s, k), j) == BitAt(s, j)
  {
    if j > 0 { LowBit(s / 2, k - 1, j - 1); }
  }

  lemma {:induction false} LowInRange(s: nat, k: nat)
    ensures G.Low(s, k) < G.Pow2(k)
  {
    if k > 0 { LowInRange(s / 2, k - 1); }
  }

  /** Clocking keeps the low m-1 bits one place higher and puts the feedback at the bottom. */
  lemma ClockShifts(x: Taps, s: nat)
    requires 1 <= x.t < x.m
    ensures Clock(x, s) == 2 * G.Low(s, x.m - 1) + Feedback(x, s)
  {
    hide Feedback;
  }

  lemma TopBit(x: Taps, s: nat)
    requires x.m >= 1 && s < G.Pow2(x.m)
    ensures G.High(s, x.m - 1) == BitAt(s, x.m - 1)
  {
    G.HalvesInRange(s, x.m - 1, 1);
    assert G.Pow2(1) == 2;
  }

  /** No two register states are clocked into the same one. */
  lemma ClockIsInjective(x: Taps, a: nat, b: nat)
    requires 1 <= x.t < x.m && a < G.Pow2(x.m) && b < G.Pow2(x.m) && Clock(x, a) == Clock(x, b)
    ensures a == b
  {
    hide G.Low, G.High, G.Pow2, Clock, BitAt;
    ClockShifts(x, a);
    ClockShifts(x, b);
    LowBit(a, x.m - 1, x.t - 1);
    LowBit(b, x.m - 1, x.t - 1);
    TopBit(x, a);
    TopBit(x, b);
    G.HalvesDetermine(a, b, x.m - 1);
  }

  lemma {:induction false} LowOfZero(k: nat)
    ensures G.Low(0, k) == 0
    ensures BitAt(0, k) == 0
  {
    if k > 0 { LowOfZero(k - 1); }
  }

  /** The register never locks up: it stays in range and never becomes zero. */
  lemma {:induction false} RegisterNeverZero(x: Taps, seed: int, i: nat)
    requires 1 <= x.t < x.m
    ensures 0 < Register(x, seed, i) < G.Pow2(x.m)
  {
    hide G.Low, G.High, Clock, BitAt;
    if i == 0 {
      assert G.Pow2(x.m) >= 2;
    } else {
      RegisterNeverZero(x, seed, i - 1);
      var s := Register(x, seed, i - 1);
      ClockOfZero(x);
      ClockInRange(x, s);
      if Clock(x, s) == 0 { ClockIsInjective(x, s, 0); }
    }
  }

  lemma ClockOfZero(x: Taps)
    requires 1 <= x.t < x.m
    ensures Clock(x, 0) == 0
  {
    LowOfZero(x.m);
    LowOfZero(x.m - 1);
    LowOfZero(x.t - 1);
  }

  lemma ClockInRange(x: Taps, s: nat)
    requires 1 <= x.t < x.m
    ensures Clock(x, s) < G.Pow2(x.m)
  {
    LowInRange(2 * s + Feedback(x, s), x.m);
  }

  lemma ClockBits(x: Taps, s: nat, j: nat)
    requires 1 <= x.t < x.m && j < x.m
    ensures BitAt(Clock(x, s), j) == if j == 0 then Feedback(x, s) else BitAt(s, j - 1)
  {
    hide Feedback;
    LowBit(2 * s + Feedback(x, s), x.m, j);
  }

  /** Register bit j is the payload bit m-1-j clocks later. */
  lemma {:induction false} RegisterHoldsTheFuture(x: Taps, seed: int, i: nat, j: nat)
    requires 1 <= x.t < x.m && j < x.m
    ensures BitAt(Register(x, seed, i), j) == Output(x, seed, i + (x.m - 1 - j))
    decreases x.m - j
  {
    hide G.Low, G.High, Clock, BitAt;
    if j < x.m - 1 {
      RegisterHoldsTheFuture(x, seed, i + 1, j + 1);
      ClockBits(x, Register(x, seed, i), j + 1);
    }
  }

  /** The payload obeys the recurrence of its feedback polynomial. */
  lemma PayloadRecurrence(x: Taps, seed: int, i: nat)
    requires 1 <= x.t < x.m
    ensures Output(x, seed, i + x.m) == Xor(Output(x, seed, i), Output(x, seed, i + x.m - x.t))
  {
    hide G.Low, G.High, Clock, BitAt;
    RegisterHoldsTheFuture(x, seed, i + 1, 0);
    ClockBits(x, Register(x, seed, i), 0);
    RegisterHoldsTheFuture(x, seed, i, x.t - 1);
    assert Register(x, seed, i + 1) == Clock(x, Register(x, seed, i));
  }

  lemma {:induction false} SomeBitIsOne(s: nat, m: nat) returns (j: nat)
    requires 0 < s < G.Pow2(m)
    ensures j < m && BitAt(s, j) == 1
  {
    if s % 2 == 1 {
      j := 0;
    } else {
      j := SomeBitIsOne(s / 2, m - 1);
      j := j + 1;
    }
  }

  /** Every window of m payload bits holds a one. */
  lemma WindowsAreNotZero(x: Taps, seed: int, i: nat)
    requires 1 <= x.t < x.m
    ensures exists k: nat :: i <= k < i + x.m && Output(x, seed, k) == 1
  {
    hide Output, BitAt, Register;
    RegisterNeverZero(x, seed, i);
    var j := SomeBitIsOne(Register(x, seed, i), x.m);
    RegisterHoldsTheFuture(x, seed, i, j);
    assert Output(x, seed, i + (x.m - 1 - j)) == 1;
  }

  /** A shorter payload is a prefix of a longer one. */
  lemma ShorterIsPrefix(x: Taps, seed: int, n: nat, m: nat)
    requires x.m >= 1 && x.t >= 1 && n <= m
    ensures Payload(x, seed, n) == Payload(x, seed, m)[..n]
  {
  }

  // ---- periodicity -------------------------------------------------------------------

  /** Two equal registers i clocks on were equal at the start. */
  lemma {:induction false} RunBack(x: Taps, seed: int, i: nat, p: nat)
    requires 1 <= x.t < x.m && Register(x, seed, i) == Register(x, seed, i + p)
    ensures Register(x, seed, 0) == Register(x, seed, p)
  {
    hide Clock;
    if i > 0 {
      RegisterNeverZero(x, seed, i - 1);
      RegisterNeverZero(x, seed, i + p - 1);
      ClockIsInjective(x, Register(x, seed, i - 1), Register(x, seed, i + p - 1));
      RunBack(x, seed, i - 1, p);
    }
  }

  function Below(n: nat): (s: set<nat>)
    ensures |s| == n && forall k: nat :: k in s <==> 1 <= k <= n
  {
    if n == 0 then {} else
      assert n !in Below(n - 1);
      Below(n - 1) + {n}
  }
}
