/** Polynomials over two elements, as 64-bit masks, acting on bit sequences: how far ahead a sequence that obeys a
    three-term recurrence is a combination of its next few bits. */
module LinearRecurrence {
  import opened Trellis

  type Sequence = nat -> Bit

  type Poly = bv64

  const TOP: Poly := 0x8000_0000_0000_0000

  /** The places of a mask. */
  const ALL: nat := 64

  function Lsb(p: Poly): Bit { if p & 1 == 1 then 1 else 0 }
  function Half(p: Poly): Poly { p >> 1 }
  function Twice(p: Poly): Poly { p << 1 }
  function Total(p: Poly, a: Poly, b: Poly, c: Poly): Poly { p ^ a ^ b ^ c }

  function Times(a: Bit, b: Bit): Bit { if a == 1 then b else 0 }
  function Sum(p: Bit, a: Bit, b: Bit, c: Bit): Bit { Xor(Xor(p, a), Xor(b, c)) }

  lemma OfZero()
    ensures Half(0) == 0 && Lsb(0) == 0
  {
  }

  lemma OfTotal(p: Poly, a: Poly, b: Poly, c: Poly)
    ensures Half(Total(p, a, b, c)) == Total(Half(p), Half(a), Half(b), Half(c))
    ensures Lsb(Total(p, a, b, c)) == Sum(Lsb(p), Lsb(a), Lsb(b), Lsb(c))
  {
  }

  lemma OfTwice(p: Poly)
    requires p < TOP
    ensures Half(Twice(p)) == p && Lsb(Twice(p)) == 0
  {
  }

  lemma Regroup(bit: (Bit, Bit, Bit, Bit), x: Bit, p: Bit, a: Bit, b: Bit, c: Bit)
    ensures Xor(Times(Sum(bit.0, bit.1, bit.2, bit.3), x), Sum(p, a, b, c))
         == Sum(Xor(Times(bit.0, x), p), Xor(Times(bit.1, x), a), Xor(Times(bit.2, x), b), Xor(Times(bit.3, x), c))
  {
  }

  // ---- acting on a sequence ----------------------------------------------------------------------

  /** The sum of the bits that the n lowest places of the mask select from position i on. */
  function Act(out: Sequence, p: Poly, i: nat, n: nat): Bit
    decreases n
  {
    if n == 0 then 0 else Xor(Times(Lsb(p), out(i)), Act(out, Half(p), i + 1, n - 1))
  }

  function Later(out: Sequence, i: nat, n: nat): Bit { out(i + n) }

  /** out[i+m] = out[i] + out[i+s]. */
  ghost predicate Obeys(out: Sequence, m: nat, s: nat) {
    forall i: nat :: Later(out, i, m) == Xor(out(i), Later(out, i, s))
  }

  /** The bit n ahead is what p selects: x^n and p act alike. */
  ghost predicate Ahead(out: Sequence, n: nat, p: Poly) {
    forall i: nat :: Later(out, i, n) == Act(out, p, i, ALL)
  }

  lemma {:induction false} ActZero(out: Sequence, i: nat, n: nat)
    ensures Act(out, 0, i, n) == 0
    decreases n
  {
    OfZero();
    hide Half, Lsb;
    if n > 0 { ActZero(out, i + 1, n - 1); }
  }

  lemma {:induction false} ActTotal(out: Sequence, p: Poly, a: Poly, b: Poly, c: Poly, i: nat, n: nat)
    ensures Act(out, Total(p, a, b, c), i, n)
         == Sum(Act(out, p, i, n), Act(out, a, i, n), Act(out, b, i, n), Act(out, c, i, n))
    decreases n
  {
    hide Half, Lsb, Total;
    if n > 0 {
      OfTotal(p, a, b, c);
      ActTotal(out, Half(p), Half(a), Half(b), Half(c), i + 1, n - 1);
      Regroup((Lsb(p), Lsb(a), Lsb(b), Lsb(c)), out(i),
              Act(out, Half(p), i + 1, n - 1), Act(out, Half(a), i + 1, n - 1),
              Act(out, Half(b), i + 1, n - 1), Act(out, Half(c), i + 1, n - 1));
      hide Xor, Times, Sum;
    }
  }

  // ---- shifts --------------------------------------------------------------------------------------

  function Halves(p: Poly, n: nat): Poly
    decreases n
  {
    if n == 0 then p else Halves(p >> 1, n - 1)
  }

  function Up(p: Poly, k: nat): Poly
    decreases k
  {
    if k == 0 then p else Up(p << 1, k - 1)
  }

  /** Shifting up k places loses nothing. */
  predicate NoLoss(p: Poly, k: nat)
    decreases k
  {
    k == 0 || (p < TOP && NoLoss(p << 1, k - 1))
  }

  lemma {:induction false} HalvesOfHalves(p: Poly, a: nat, b: nat)
    ensures Halves(p, a + b) == Halves(Halves(p, a), b)
    decreases a
  {
    if a > 0 { HalvesOfHalves(p >> 1, a - 1, b); }
  }

  lemma {:induction false} UpOfUp(p: Poly, a: nat, b: nat)
    ensures Up(p, a + b) == Up(Up(p, a), b)
    ensures NoLoss(p, a) && NoLoss(Up(p, a), b) ==> NoLoss(p, a + b)
    decreases a
  {
    if a > 0 { UpOfUp(p << 1, a - 1, b); }
  }

  /** The mask has nothing beyond its n lowest places. */
  predicate Within(p: Poly, n: nat) { Halves(p, n) == 0 }

  lemma HalfMonotone(p: Poly, bound: Poly)
    requires p <= bound
    ensures Half(p) <= Half(bound)
  {
  }

  lemma WithinHalf(p: Poly, n: nat)
    requires n > 0
    ensures Within(p, n) <==> Within(Half(p), n - 1)
  {
  }

  lemma WithinNone(p: Poly, bound: Poly)
    requires p <= bound && Within(bound, 0)
    ensures Within(p, 0)
  {
  }

  lemma {:induction false} WithinBound(p: Poly, bound: Poly, n: nat)
    requires p <= bound && Within(bound, n)
    ensures Within(p, n)
    decreases n
  {
    hide Within, Half;
    if n > 0 {
      HalfMonotone(p, bound);
      WithinHalf(p, n);
      WithinHalf(bound, n);
      WithinBound(Half(p), Half(bound), n - 1);
    } else {
      WithinNone(p, bound);
    }
  }

  lemma WithinMore(p: Poly, q: Poly, n: nat)
    requires Halves(p, 8) == q && Within(q, n)
    ensures Within(p, n + 8)
  {
    HalvesOfHalves(p, 8, n);
  }

  lemma OnesWithin()
    ensures Within(0xFFFF_FFFF_FFFF_FFFF, ALL)
  {
    WithinMore(0xFF, 0, 0);
    WithinMore(0xFFFF, 0xFF, 8);
    WithinMore(0xFF_FFFF, 0xFFFF, 16);
    WithinMore(0xFFFF_FFFF, 0xFF_FFFF, 24);
    WithinMore(0xFF_FFFF_FFFF, 0xFFFF_FFFF, 32);
    WithinMore(0xFFFF_FFFF_FFFF, 0xFF_FFFF_FFFF, 40);
    WithinMore(0xFF_FFFF_FFFF_FFFF, 0xFFFF_FFFF_FFFF, 48);
    WithinMore(0xFFFF_FFFF_FFFF_FFFF, 0xFF_FFFF_FFFF_FFFF, 56);
  }

  lemma AllWithin(p: Poly)
    ensures Within(p, ALL)
  {
    hide Within;
    OnesWithin();
    WithinBound(p, 0xFFFF_FFFF_FFFF_FFFF, ALL);
  }

  lemma {:induction false} ActMore(out: Sequence, p: Poly, i: nat, n: nat, k: nat)
    requires Within(p, n) && n <= k
    ensures Act(out, p, i, k) == Act(out, p, i, n)
    decreases n
  {
    hide Lsb;
    if n > 0 {
      assert Halves(p, n) == Halves(Half(p), n - 1);
      ActMore(out, Half(p), i + 1, n - 1, k - 1);
    } else {
      ActZero(out, i, k);
    }
  }

  lemma {:induction false} UpShifts(out: Sequence, p: Poly, i: nat, n: nat, k: nat)
    requires NoLoss(p, k)
    ensures Act(out, Up(p, k), i, n + k) == Act(out, p, i + k, n)
    decreases k
  {
    if k > 0 {
      OfTwice(p);
      assert NoLoss(p, k) == (p < TOP && NoLoss(Twice(p), k - 1)) && Up(p, k) == Up(Twice(p), k - 1);
      hide Half, Lsb, Twice, Up, NoLoss;
      UpShifts(out, Twice(p), i, n + 1, k - 1);
      assert Act(out, Twice(p), i + (k - 1), n + 1) == Act(out, p, i + k, n);
      hide Act;
    }
  }

  /** A mask shifted up k places acts like the mask itself k further on. */
  lemma ShiftedUp(out: Sequence, p: Poly, i: nat, k: nat)
    requires NoLoss(p, k)
    ensures Act(out, Up(p, k), i, ALL) == Act(out, p, i + k, ALL)
  {
    hide Act, Up, NoLoss, Halves, Within;
    UpShifts(out, p, i, ALL, k);
    AllWithin(Up(p, k));
    ActMore(out, Up(p, k), i, ALL, ALL + k);
  }

  // ---- squaring ------------------------------------------------------------------------------------

  /** Every bit moves to twice its place. */
  function Spread(p: Poly): Poly {
    var a := (p | (p << 16)) & 0x0000_FFFF_0000_FFFF;
    var b := (a | (a << 8)) & 0x00FF_00FF_00FF_00FF;
    var c := (b | (b << 4)) & 0x0F0F_0F0F_0F0F_0F0F;
    var d := (c | (c << 2)) & 0x3333_3333_3333_3333;
    (d | (d << 1)) & 0x5555_5555_5555_5555
  }

  lemma OfSpread(p: Poly)
    requires p < 0x1_0000_0000
    ensures Lsb(Spread(p)) == Lsb(p) && Lsb(Half(Spread(p))) == 0
    ensures Half(Half(Spread(p))) == Spread(Half(p)) && Half(p) < 0x1_0000_0000
  {
  }

  /** The sum over the n lowest places e of p of what the l lowest of q select from i + e on. */
  function Product(out: Sequence, p: Poly, q: Poly, i: nat, n: nat, l: nat): Bit
    decreases n
  {
    if n == 0 then 0 else Xor(Times(Lsb(p), Act(out, q, i, l)), Product(out, Half(p), q, i + 1, n - 1, l))
  }

  lemma Rearranged(a: Bit, b: Bit, x: Bit, y: Bit, z: Bit, w: Bit)
    ensures Xor(Times(a, Xor(Times(b, x), y)), Xor(Times(b, z), w))
         == Xor(Times(b, Xor(Times(a, x), z)), Xor(Times(a, y), w))
  {
  }

  /** The product unfolds in its second factor as well. */
  lemma {:induction false} ProductOther(out: Sequence, p: Poly, q: Poly, i: nat, n: nat, l: nat)
    requires l > 0
    ensures Product(out, p, q, i, n, l)
         == Xor(Times(Lsb(q), Act(out, p, i, n)), Product(out, p, Half(q), i + 1, n, l - 1))
    decreases n
  {
    hide Half, Lsb;
    if n > 0 {
      ProductOther(out, Half(p), q, i + 1, n - 1, l);
      Rearranged(Lsb(p), Lsb(q), out(i), Act(out, Half(q), i + 1, l - 1), Act(out, Half(p), i + 1, n - 1),
                 Product(out, Half(p), Half(q), i + 2, n - 1, l - 1));
      hide Xor, Times;
    }
  }

  /** In characteristic two the square of a sum is the sum of the squares. */
  lemma {:induction false} SquareSpreads(out: Sequence, p: Poly, i: nat, n: nat)
    requires p < 0x1_0000_0000
    ensures Product(out, p, p, i, n, n) == Act(out, Spread(p), i, 2 * n)
    decreases n
  {
    hide Spread, Half, Lsb;
    if n > 0 {
      OfSpread(p);
      SquareSpreads(out, Half(p), i + 2, n - 1);
      ProductOther(out, Half(p), p, i + 1, n - 1, n);
      Cancelled(Lsb(p), out(i), Act(out, Half(p), i + 1, n - 1), Product(out, Half(p), Half(p), i + 2, n - 1, n - 1));
      TwoSteps(out, Spread(p), i, 2 * n);
      hide Act, Xor, Times;
    }
  }

  lemma TwoSteps(out: Sequence, p: Poly, i: nat, n: nat)
    requires n >= 2 && Lsb(Half(p)) == 0
    ensures Act(out, p, i, n) == Xor(Times(Lsb(p), out(i)), Act(out, Half(Half(p)), i + 2, n - 2))
  {
    hide Half, Lsb;
    assert Act(out, Half(p), i + 1, n - 1) == Xor(Times(0, out(i + 1)), Act(out, Half(Half(p)), i + 2, n - 2));
  }

  lemma Cancelled(a: Bit, x: Bit, y: Bit, w: Bit)
    ensures Xor(Times(a, Xor(Times(a, x), y)), Xor(Times(a, y), w)) == Xor(Times(a, x), w)
  {
  }

  lemma {:induction false} ActAhead(out: Sequence, n: nat, p: Poly, q: Poly, i: nat, l: nat)
    requires Ahead(out, n, p)
    ensures Act(out, q, i + n, l) == Product(out, q, p, i, l, ALL)
    decreases l
  {
    hide Half, Lsb, Xor, Times;
    assert Later(out, i, n) == Act(out, p, i, ALL);
    hide Ahead;
    if l > 0 { ActAhead(out, n, p, Half(q), i + 1, l - 1); }
  }

  lemma AheadTwice(out: Sequence, n: nat, p: Poly)
    requires Ahead(out, n, p) && p < 0x1_0000_0000
    ensures Ahead(out, 2 * n, Spread(p))
  {
    hide Act, Product, Spread, Within;
    forall i: nat ensures Later(out, i, 2 * n) == Act(out, Spread(p), i, ALL) {
      assert Later(out, i + n, n) == Act(out, p, i + n, ALL);
      ActAhead(out, n, p, p, i, ALL);
      SquareSpreads(out, p, i, ALL);
      AllWithin(Spread(p));
      ActMore(out, Spread(p), i, ALL, 2 * ALL);
    }
  }

  lemma AheadNext(out: Sequence, n: nat, p: Poly)
    requires Ahead(out, n, p) && p < TOP
    ensures Ahead(out, n + 1, Twice(p))
  {
    assert NoLoss(p, 1) && Up(p, 1) == Twice(p) by {
      assert NoLoss(p << 1, 0) && Up(p << 1, 0) == p << 1;
    }
    var next := n + 1;
    hide Act, Twice, Up, NoLoss;
    forall i: nat ensures Later(out, i, next) == Act(out, Twice(p), i, ALL) {
      assert Later(out, i + 1, n) == Act(out, p, i + 1, ALL);
      ShiftedUp(out, p, i, 1);
    }
  }

  // ---- reducing by the recurrence --------------------------------------------------------------------

  lemma ObeysAt(out: Sequence, m: nat, s: nat, i: nat)
    requires Obeys(out, m, s)
    ensures out(i + m) == Xor(out(i), out(i + s))
  {
    assert Later(out, i, m) == Xor(out(i), Later(out, i, s));
  }

  lemma SumOfSteps(bit: Bit, a: Bit, b: Bit, c: Bit, x: Bit, y: Bit, z: Bit)
    requires a == Xor(b, c) && x == Xor(y, z)
    ensures Xor(Times(bit, a), x) == Xor(Xor(Times(bit, b), y), Xor(Times(bit, c), z))
  {
  }

  lemma {:induction false} ActObeys(out: Sequence, m: nat, s: nat, p: Poly, i: nat, n: nat)
    requires Obeys(out, m, s)
    ensures Act(out, p, i + m, n) == Xor(Act(out, p, i, n), Act(out, p, i + s, n))
    decreases n
  {
    hide Half, Lsb, Obeys;
    if n > 0 {
      ObeysAt(out, m, s, i);
      ActObeys(out, m, s, Half(p), i + 1, n - 1);
      var a, b, c, q := i + m, i, i + s, Half(p);
      SumOfSteps(Lsb(p), out(a), out(b), out(c),
                 Act(out, q, a + 1, n - 1), Act(out, q, b + 1, n - 1), Act(out, q, c + 1, n - 1));
      hide Xor, Times;
    }
  }

  lemma Cancels(a: Bit, b: Bit, c: Bit)
    ensures Sum(a, Xor(b, c), b, c) == a
  {
  }

  lemma ExchangedActs(out: Sequence, m: nat, s: nat, p: Poly, hi: Poly, i: nat)
    requires Obeys(out, m, s) && NoLoss(hi, m) && NoLoss(hi, s)
    ensures Act(out, Total(p, Up(hi, m), hi, Up(hi, s)), i, ALL) == Act(out, p, i, ALL)
  {
    hide Act, Total, Obeys, NoLoss, Xor, Up, Sum;
    Cancels(Act(out, p, i, ALL), Act(out, hi, i, ALL), Act(out, hi, i + s, ALL));
    ShiftedUp(out, hi, i, m);
    ShiftedUp(out, hi, i, s);
    ActObeys(out, m, s, hi, i, ALL);
    ActTotal(out, p, Up(hi, m), hi, Up(hi, s), i, ALL);
  }

  /** Any multiple hi * x^m may be exchanged for hi + hi * x^s. */
  lemma Exchanged(out: Sequence, m: nat, s: nat, d: nat, p: Poly, hi: Poly)
    requires Obeys(out, m, s) && Ahead(out, d, p) && NoLoss(hi, m) && NoLoss(hi, s)
    ensures Ahead(out, d, Total(p, Up(hi, m), hi, Up(hi, s)))
  {
    var q := Total(p, Up(hi, m), hi, Up(hi, s));
    hide Act, Obeys, NoLoss, Total, Up;
    forall i: nat ensures Later(out, i, d) == Act(out, q, i, ALL) {
      assert Later(out, i, d) == Act(out, p, i, ALL);
      ExchangedActs(out, m, s, p, hi, i);
    }
  }
}
