/** gr_autopilot/modulation.py: Gray labelling, for every axis width. */
module Gray {
  import opened Trellis

  function Pow2(k: nat): nat
    ensures Pow2(k) >= 1
  {
    if k == 0 then 1 else 2 * Pow2(k - 1)
  }

  /** Bitwise exclusive or of unbounded naturals. */
  function XorNat(a: nat, b: nat): nat {
    if a == 0 && b == 0 then 0 else 2 * XorNat(a / 2, b / 2) + Xor(a % 2, b % 2)
  }

  /** n xor (n >> 1). */
  function Code(n: nat): nat { XorNat(n, n / 2) }

  /** The level number whose label is g. */
  function Level(g: nat): nat {
    if g == 0 then 0 else 2 * Level(g / 2) + Xor(g % 2, Level(g / 2) % 2)
  }

  /** In how many bits two labels differ. */
  function Hamming(a: nat, b: nat): nat {
    if a == 0 && b == 0 then 0 else Hamming(a / 2, b / 2) + Xor(a % 2, b % 2)
  }

  lemma CodeStep(n: nat)
    ensures Code(n) / 2 == Code(n / 2) && Code(n) % 2 == Xor(n % 2, n / 2 % 2)
  {
  }

  lemma {:induction false} LevelOfCode(n: nat)
    ensures Level(Code(n)) == n
  {
    if n > 0 {
      LevelOfCode(n / 2);
      CodeStep(n);
      hide Code;
      assert Code(n) == 0 ==> n == 0 by { if Code(n) == 0 { assert Level(Code(n / 2)) == 0; } }
    }
  }

  lemma LevelStep(g: nat)
    ensures Level(g) / 2 == Level(g / 2) && Level(g) % 2 == Xor(g % 2, Level(g / 2) % 2)
  {
  }

  lemma {:induction false} CodeOfLevel(g: nat)
    ensures Code(Level(g)) == g
  {
    if g > 0 {
      hide Code, Level;
      CodeOfLevel(g / 2);
      CodeStep(Level(g));
      LevelStep(g);
    }
  }

  lemma {:induction false} CodeInRange(n: nat, k: nat)
    requires n < Pow2(k)
    ensures Code(n) < Pow2(k)
  {
    if k > 0 {
      CodeInRange(n / 2, k - 1);
      CodeStep(n);
      hide Code;
    }
  }

  lemma {:induction false} LevelInRange(g: nat, k: nat)
    requires g < Pow2(k)
    ensures Level(g) < Pow2(k)
  {
    if k > 0 { LevelInRange(g / 2, k - 1); }
  }

  /** The labels of the 2^k levels are a bijection of the k-bit numbers, with Level its inverse. */
  lemma CodeIsABijection(n: nat, g: nat, k: nat)
    requires n < Pow2(k) && g < Pow2(k)
    ensures Code(n) < Pow2(k) && Level(g) < Pow2(k)
    ensures Code(n) == g <==> n == Level(g)
  {
    hide Code, Level;
    CodeInRange(n, k);
    LevelInRange(g, k);
    LevelOfCode(n);
    CodeOfLevel(g);
  }

  lemma {:induction false} HammingSame(a: nat)
    ensures Hamming(a, a) == 0
  {
    if a > 0 { HammingSame(a / 2); }
  }

  lemma HammingStep(a: nat, b: nat)
    ensures Hamming(a, b) == Hamming(a / 2, b / 2) + Xor(a % 2, b % 2)
  {
  }

  lemma NextHalf(n: nat)
    ensures n % 2 == 0 ==> (n + 1) / 2 == n / 2 && (n + 1) % 2 == 1
    ensures n % 2 == 1 ==> (n + 1) / 2 == n / 2 + 1 && (n + 1) % 2 == 0
  {
  }

  /** The last bits of two neighbouring codes differ exactly when the lower one is even. */
  lemma LastBits(n: nat)
    ensures Xor(Code(n) % 2, Code(n + 1) % 2) == if n % 2 == 0 then 1 else 0
  {
    CodeStep(n);
    CodeStep(n + 1);
    hide Code;
    NextHalf(n);
  }

  /** Neighbouring levels carry labels that differ in exactly one bit. */
  lemma {:induction false} NeighboursDifferInOneBit(n: nat)
    ensures Hamming(Code(n), Code(n + 1)) == 1
  {
    hide Code, Hamming, Xor;
    CodeStep(n);
    CodeStep(n + 1);
    HammingStep(Code(n), Code(n + 1));
    LastBits(n);
    NextHalf(n);
    if n % 2 == 0 {
      HammingSame(Code(n / 2));
    } else {
      NeighboursDifferInOneBit(n / 2);
    }
  }

  /** So do the last label and the first, so the labels run round a circle of 2^k points. */
  lemma {:induction false} CircleCloses(k: nat)
    requires k >= 1
    ensures Hamming(Code(Pow2(k) - 1), Code(0)) == 1
  {
    hide Code, Hamming, Pow2;
    FirstCodes();
    if k > 1 {
      var n := Pow2(k) - 1;
      AllOnes(k);
      CodeStep(n);
      HammingStep(Code(n), 0);
      CircleCloses(k - 1);
    }
  }

  lemma FirstCodes()
    ensures Code(0) == 0 && Hamming(0, 0) == 0
    ensures Pow2(1) == 2 && Code(1) == 1 && Hamming(1, 0) == 1
  {
    assert Pow2(0) == 1;
    assert XorNat(0, 0) == 0;
  }

  lemma AllOnes(k: nat)
    requires k >= 2
    ensures (Pow2(k) - 1) / 2 == Pow2(k - 1) - 1
    ensures (Pow2(k) - 1) % 2 == 1 && (Pow2(k - 1) - 1) % 2 == 1
  {
    hide Pow2;
    Pow2Step(k);
    Pow2Step(k - 1);
    BelowDouble(Pow2(k - 1));
    BelowDouble(Pow2(k - 2));
  }

  lemma Pow2Step(k: nat)
    requires k >= 1
    ensures Pow2(k) == 2 * Pow2(k - 1)
  {
  }

  lemma BelowDouble(p: nat)
    requires p >= 1
    ensures (2 * p - 1) / 2 == p - 1 && (2 * p - 1) % 2 == 1
  {
  }

  // ---- the two halves of a symbol index --------------------------------------------

  /** x >> k. */
  function High(x: nat, k: nat): nat { if k == 0 then x else High(x / 2, k - 1) }

  /** x & (2^k - 1). */
  function Low(x: nat, k: nat): nat { if k == 0 then 0 else 2 * Low(x / 2, k - 1) + x % 2 }

  lemma {:induction false} HalvesDetermine(x: nat, y: nat, k: nat)
    requires High(x, k) == High(y, k) && Low(x, k) == Low(y, k)
    ensures x == y
  {
    if k > 0 { HalvesDetermine(x / 2, y / 2, k - 1); }
  }

  lemma {:induction false} HalvesInRange(x: nat, k: nat, m: nat)
    requires x < Pow2(k + m)
    ensures High(x, k) < Pow2(m) && Low(x, k) < Pow2(k)
  {
    if k > 0 { HalvesInRange(x / 2, k - 1, m); }
  }

  /** (a << k) | b. */
  function Joined(k: nat, a: nat, b: nat): nat { Pow2(k) * a + b }

  lemma JoinedHalf(k: nat, a: nat, b: nat)
    requires k > 0
    ensures Joined(k, a, b) / 2 == Joined(k - 1, a, b / 2) && Joined(k, a, b) % 2 == b % 2
  {
    var p := Pow2(k - 1);
    assert Pow2(k) * a == 2 * (p * a);
  }

  lemma {:induction false} HalvesOfJoined(k: nat, a: nat, b: nat)
    requires b < Pow2(k)
    ensures High(Joined(k, a, b), k) == a && Low(Joined(k, a, b), k) == b
  {
    if k > 0 {
      JoinedHalf(k, a, b);
      assert b / 2 < Pow2(k - 1);
      hide Joined;
      HalvesOfJoined(k - 1, a, b / 2);
    }
  }

  lemma {:induction false} Pow2OfSum(k: nat, m: nat)
    ensures Pow2(k + m) == Pow2(k) * Pow2(m)
  {
    if k > 0 {
      Pow2OfSum(k - 1, m);
      assert 2 * Pow2(k - 1) * Pow2(m) == 2 * (Pow2(k - 1) * Pow2(m));
    }
  }

  lemma JoinedInRange(k: nat, a: nat, b: nat)
    requires a < Pow2(k) && b < Pow2(k)
    ensures Joined(k, a, b) < Pow2(2 * k)
  {
    hide Pow2;
    Pow2OfSum(k, k);
    RowsInSquare(Pow2(k), a, b);
  }

  lemma RowsInSquare(m: nat, a: nat, b: nat)
    requires a < m && b < m
    ensures m * a + b < m * m
  {
    var d: nat := m - a - 1;
    RowsSplit(m, a, d);
  }

  lemma RowsSplit(m: nat, a: nat, d: nat)
    requires m == a + 1 + d
    ensures m * m >= m * a + m
  {
    assert m * (a + 1 + d) == m * a + m + m * d;
  }

  lemma LowStep(x: nat, k: nat)
    requires k > 0
    ensures Low(x, k) / 2 == Low(x / 2, k - 1) && Low(x, k) % 2 == x % 2
  {
  }

  lemma {:induction false} HammingSplits(x: nat, y: nat, k: nat)
    ensures Hamming(x, y) == Hamming(High(x, k), High(y, k)) + Hamming(Low(x, k), Low(y, k))
  {
    if k > 0 {
      HammingSplits(x / 2, y / 2, k - 1);
      HammingStep(x, y);
      HammingStep(Low(x, k), Low(y, k));
      LowStep(x, k);
      LowStep(y, k);
      hide Hamming, Low, Xor;
    } else {
      HammingSame(0);
    }
  }

  // ---- index to bits ---------------------------------------------------------------

  /** The n low bits of x, most significant first. */
  function BitsOf(x: nat, n: nat): (bits: seq<Bit>)
    ensures |bits| == n
  {
    if n == 0 then [] else BitsOf(x / 2, n - 1) + [x % 2]
  }

  /** The number a bit group spells, most significant first. */
  function IndexOf(bits: seq<Bit>): nat {
    if bits == [] then 0 else 2 * IndexOf(bits[..|bits| - 1]) + bits[|bits| - 1]
  }

  lemma {:induction false} IndexInRange(bits: seq<Bit>)
    ensures IndexOf(bits) < Pow2(|bits|)
  {
    if bits != [] { IndexInRange(bits[..|bits| - 1]); }
  }

  lemma {:induction false} BitsOfIndex(bits: seq<Bit>)
    ensures BitsOf(IndexOf(bits), |bits|) == bits
  {
    if bits != [] {
      BitsOfIndex(bits[..|bits| - 1]);
      assert bits == bits[..|bits| - 1] + [bits[|bits| - 1]];
    }
  }

  /** The first bit of a group counts most. */
  lemma {:induction false} FirstBitCountsMost(b: Bit, rest: seq<Bit>)
    ensures IndexOf([b] + rest) == b * Pow2(|rest|) + IndexOf(rest)
  {
    var all := [b] + rest;
    if rest == [] {
      assert all == [b] && all[..0] == [];
    } else {
      assert all[..|all| - 1] == [b] + rest[..|rest| - 1];
      FirstBitCountsMost(b, rest[..|rest| - 1]);
      assert 2 * (b * Pow2(|rest| - 1)) == b * Pow2(|rest|);
    }
  }
}
