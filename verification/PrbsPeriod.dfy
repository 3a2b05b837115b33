/** gr_autopilot/scoring/payload.py: the period of the payload is exactly 2^order - 1, whatever the seed. */
module PrbsPeriod {
  import opened Basics
  import opened Trellis
  import opened Prbs
  import G = Gray
  import D = Divisors
  import L = LinearRecurrence
  import P = PowersOfX

  /** How many registers there are other than zero. */
  function Cycle(x: Taps): nat { G.Pow2(x.m) - 1 }

  ghost function Bits(x: Taps, seed: int): L.Sequence
    requires 1 <= x.t < x.m
  {
    (i: nat) => Output(x, seed, i)
  }

  /** The register is back where it started after p clocks. */
  ghost predicate Returns(x: Taps, seed: int, p: nat)
    requires x.m >= 1 && x.t >= 1
  {
    Register(x, seed, p) == Register(x, seed, 0)
  }

  lemma BitsObeyAt(x: Taps, seed: int, i: nat)
    requires 1 <= x.t < x.m
    ensures L.Later(Bits(x, seed), i, x.m) == Xor(Output(x, seed, i), L.Later(Bits(x, seed), i, x.m - x.t))
    ensures Bits(x, seed)(i) == Output(x, seed, i)
  {
    hide Output, Xor;
    PayloadRecurrence(x, seed, i);
  }

  lemma BitsObey(x: Taps, seed: int)
    requires 1 <= x.t < x.m
    ensures L.Obeys(Bits(x, seed), x.m, x.m - x.t)
  {
    var out := Bits(x, seed);
    hide Output, Xor, Bits;
    forall i: nat ensures L.Later(out, i, x.m) == Xor(out(i), L.Later(out, i, x.m - x.t)) {
      BitsObeyAt(x, seed, i);
    }
  }

  // ---- registers and the bits to come ----------------------------------------------------------

  lemma {:induction false} SameBits(m: nat, a: nat, b: nat)
    requires a < G.Pow2(m) && b < G.Pow2(m) && forall j: nat :: j < m ==> BitAt(a, j) == BitAt(b, j)
    ensures a == b
  {
    if m > 0 {
      assert BitAt(a, 0) == BitAt(b, 0);
      forall j: nat | j < m - 1 ensures BitAt(a / 2, j) == BitAt(b / 2, j) {
        assert BitAt(a, j + 1) == BitAt(b, j + 1);
      }
      SameBits(m - 1, a / 2, b / 2);
    }
  }

  lemma SameWindow(x: Taps, seed: int, i: nat, k: nat)
    requires 1 <= x.t < x.m
    requires forall j: nat :: j < x.m ==> L.Later(Bits(x, seed), i, j) == L.Later(Bits(x, seed), k, j)
    ensures Register(x, seed, i) == Register(x, seed, k)
  {
    hide Output, BitAt, Register, G.Pow2;
    RegisterNeverZero(x, seed, i);
    RegisterNeverZero(x, seed, k);
    forall j: nat | j < x.m ensures BitAt(Register(x, seed, i), j) == BitAt(Register(x, seed, k), j) {
      RegisterHoldsTheFuture(x, seed, i, j);
      RegisterHoldsTheFuture(x, seed, k, j);
      assert L.Later(Bits(x, seed), i, x.m - 1 - j) == L.Later(Bits(x, seed), k, x.m - 1 - j);
    }
    SameBits(x.m, Register(x, seed, i), Register(x, seed, k));
  }

  lemma AheadReturns(x: Taps, seed: int, n: nat)
    requires 1 <= x.t < x.m && L.Ahead(Bits(x, seed), n, 1)
    ensures Returns(x, seed, n)
  {
    hide Output, Register;
    var out := Bits(x, seed);
    forall j: nat | j < x.m ensures L.Later(out, n, j) == L.Later(out, 0, j) {
      assert L.Later(out, j, n) == L.Act(out, 1, j, L.ALL);
      P.ActOne(out, j);
    }
    SameWindow(x, seed, n, 0);
  }

  /** The payload begins with its seed, most significant bit first; a seed whose low m bits are zero counts as 1. */
  lemma PayloadSpellsTheSeed(x: Taps, seed: int, i: nat)
    requires 1 <= x.t < x.m && i < x.m
    ensures var low := seed % G.Pow2(x.m);
            Output(x, seed, i) == BitAt(if low == 0 then 1 else low, x.m - 1 - i)
  {
    hide Output, BitAt, G.Pow2, Clock;
    RegisterHoldsTheFuture(x, seed, 0, x.m - 1 - i);
  }

  /** Two seeds in range give the same payload only if they are the same. */
  lemma SeedsTellPayloadsApart(x: Taps, a: nat, b: nat)
    requires 1 <= x.t < x.m && 0 < a < G.Pow2(x.m) && 0 < b < G.Pow2(x.m)
    ensures (forall i: nat :: i < x.m ==> Output(x, a, i) == Output(x, b, i)) <==> a == b
  {
    hide Output, BitAt, G.Pow2;
    if forall i: nat :: i < x.m ==> Output(x, a, i) == Output(x, b, i) {
      forall j: nat | j < x.m ensures BitAt(a, j) == BitAt(b, j) {
        assert Output(x, a, x.m - 1 - j) == Output(x, b, x.m - 1 - j);
        PayloadSpellsTheSeed(x, a, x.m - 1 - j);
        PayloadSpellsTheSeed(x, b, x.m - 1 - j);
        SmallRemainder(a, G.Pow2(x.m));
        SmallRemainder(b, G.Pow2(x.m));
      }
      SameBits(x.m, a, b);
    }
  }

  lemma SmallRemainder(a: nat, n: nat)
    requires a < n
    ensures a % n == a
  {
  }

  // ---- an exponent that does not return --------------------------------------------------------

  lemma {:induction false} BitOfOne(j: nat)
    ensures BitAt(1, j) == if j == 0 then 1 else 0
  {
    if j > 0 { LowOfZero(j - 1); }
  }

  lemma SmallMod(n: nat)
    requires n > 1
    ensures 1 % n == 1
  {
  }

  lemma StartOfOne(x: Taps)
    requires x.m >= 1
    ensures Start(x, 1) == 1
  {
    var n := G.Pow2(x.m);
    assert n == 2 * G.Pow2(x.m - 1);
    SmallMod(n);
    hide G.Pow2;
  }

  /** From seed 1 the first one comes last in the first window. */
  lemma FirstWindow(x: Taps, i: nat)
    requires 1 <= x.t < x.m && i < x.m
    ensures Output(x, 1, i) == if i == x.m - 1 then 1 else 0
  {
    hide Output, BitAt, Start, Clock;
    RegisterHoldsTheFuture(x, 1, 0, x.m - 1 - i);
    StartOfOne(x);
    BitOfOne(x.m - 1 - i);
  }

  /** The highest place of a mask. */
  lemma {:induction false} Top(p: L.Poly, n: nat) returns (d: nat)
    requires p != 0 && L.Within(p, n)
    ensures d < n && L.Halves(p, d) == 1
    decreases n
  {
    if p >> 1 == 0 {
      d := 0;
    } else {
      d := Top(p >> 1, n - 1);
      d := d + 1;
    }
  }

  lemma {:induction false} ActsAtTop(out: L.Sequence, p: L.Poly, d: nat, i: nat, n: nat)
    requires d < n && L.Halves(p, d) == 1 && out(i + d) == 1
    requires forall j: nat :: i <= j < i + d ==> out(j) == 0
    ensures L.Act(out, p, i, n) == 1
    decreases d
  {
    if d > 0 {
      assert L.Halves(p, d) == L.Halves(L.Half(p), d - 1);
      hide L.Half, L.Lsb;
      ActsAtTop(out, L.Half(p), d - 1, i + 1, n - 1);
    } else {
      assert L.Half(p) == 0 && L.Lsb(p) == 1;
      hide L.Half, L.Lsb;
      L.ActZero(out, i + 1, n - 1);
    }
  }

  function Difference(p: L.Poly): L.Poly { p ^ 1 }

  lemma DifferenceActs(out: L.Sequence, p: L.Poly, i: nat)
    requires L.Act(out, p, i, L.ALL) == out(i)
    ensures L.Act(out, Difference(p), i, L.ALL) == 0
  {
    assert Difference(p) == L.Total(p, 1, 0, 0);
    hide Difference, L.Total, L.Act;
    L.ActTotal(out, p, 1, 0, 0, i, L.ALL);
    P.ActOne(out, i);
    L.ActZero(out, i, L.ALL);
  }

  /** On the first window of seed 1 a mask acts as its highest place. */
  lemma ActsOnFirstWindow(x: Taps, p: L.Poly, d: nat)
    requires 1 <= x.t < x.m <= L.ALL && d < x.m && L.Halves(p, d) == 1
    ensures L.Act(Bits(x, 1), p, x.m - 1 - d, L.ALL) == 1
  {
    hide L.Halves, L.Act, Output;
    var out, i := Bits(x, 1), x.m - 1 - d;
    forall j: nat | i <= j < x.m ensures out(j) == if j == i + d then 1 else 0 { FirstWindow(x, j); }
    ActsAtTop(out, p, d, i, L.ALL);
  }

  lemma ReturnedBit(x: Taps, e: nat, d: nat)
    requires 1 <= x.t < x.m && d < x.m && Returns(x, 1, e)
    ensures L.Later(Bits(x, 1), x.m - 1 - d, e) == Bits(x, 1)(x.m - 1 - d)
  {
    hide Register, BitAt, Output;
    RegisterHoldsTheFuture(x, 1, 0, d);
    RegisterHoldsTheFuture(x, 1, e, d);
  }

  lemma TopWithin(g: L.Poly, bound: L.Poly, m: nat) returns (d: nat)
    requires g != 0 && g <= bound && L.Within(bound, m)
    ensures d < m && L.Halves(g, d) == 1
  {
    hide L.Within, L.Halves;
    L.WithinBound(g, bound, m);
    d := Top(g, m);
  }

  /** A power p of x other than 1, with g == p + 1, tells the register it leads to from the first. */
  lemma DoesNotReturn(x: Taps, e: nat, p: L.Poly, g: L.Poly, bound: L.Poly)
    requires 1 <= x.t < x.m <= L.ALL && L.Ahead(Bits(x, 1), e, p) && g == Difference(p)
    requires g != 0 && g <= bound && L.Within(bound, x.m)
    ensures !Returns(x, 1, e)
  {
    hide L.Halves, L.Within, L.Ahead, Returns, Bits, Difference, L.Act, L.Later;
    if Returns(x, 1, e) {
      var d := TopWithin(g, bound, x.m);
      DoesNotReturnTo(x, e, p, g, d);
    }
  }

  lemma DoesNotReturnTo(x: Taps, e: nat, p: L.Poly, g: L.Poly, d: nat)
    requires 1 <= x.t < x.m <= L.ALL && L.Ahead(Bits(x, 1), e, p) && g == Difference(p)
    requires d < x.m && L.Halves(g, d) == 1
    ensures !Returns(x, 1, e)
  {
    hide L.Halves, L.Ahead, Returns, Bits, Difference, L.Act, L.Later;
    if Returns(x, 1, e) {
      var out, i := Bits(x, 1), x.m - 1 - d;
      AheadAt(out, e, p, i);
      ReturnedBit(x, e, d);
      DifferenceActs(out, p, i);
      ActsOnFirstWindow(x, g, d);
    }
  }

  lemma AheadAt(out: L.Sequence, n: nat, p: L.Poly, i: nat)
    requires L.Ahead(out, n, p)
    ensures L.Later(out, i, n) == L.Act(out, p, i, L.ALL)
  {
  }

  // ---- periods of one seed -----------------------------------------------------------------------

  lemma {:induction false} GoesOn(x: Taps, seed: int, seed': int, i: nat, k: nat, n: nat)
    requires 1 <= x.t < x.m && Register(x, seed, i) == Register(x, seed', k)
    ensures Register(x, seed, i + n) == Register(x, seed', k + n)
    decreases n
  {
    hide Clock;
    if n > 0 { GoesOn(x, seed, seed', i, k, n - 1); }
  }

  lemma ReturnsDifference(x: Taps, seed: int, a: nat, b: nat)
    requires 1 <= x.t < x.m && Returns(x, seed, a) && Returns(x, seed, a + b)
    ensures Returns(x, seed, b)
  {
    hide Register;
    GoesOn(x, seed, seed, a, 0, b);
  }

  lemma ReturnsSum(x: Taps, seed: int, a: nat, b: nat)
    requires 1 <= x.t < x.m && Returns(x, seed, a) && Returns(x, seed, b)
    ensures Returns(x, seed, a + b)
  {
    hide Register;
    GoesOn(x, seed, seed, a, 0, b);
  }

  lemma {:induction false} ReturnsTimes(x: Taps, seed: int, k: nat, a: nat)
    requires 1 <= x.t < x.m && Returns(x, seed, a)
    ensures Returns(x, seed, D.Times(k, a))
    decreases k
  {
    if k > 0 {
      D.Distributes(1, k - 1, a);
      hide Returns, D.Times;
      ReturnsTimes(x, seed, k - 1, a);
      ReturnsSum(x, seed, a, D.Times(k - 1, a));
    }
  }

  /** Two returns come from a common one. */
  lemma {:induction false} CommonReturn(x: Taps, seed: int, a: nat, b: nat) returns (g: nat)
    requires 1 <= x.t < x.m && Returns(x, seed, a) && Returns(x, seed, b)
    ensures Returns(x, seed, g) && D.Divides(g, a) && D.Divides(g, b)
    decreases a + b
  {
    hide Returns, D.Divides;
    if a == 0 {
      g := b;
      D.DividesItself(b);
    } else if b == 0 {
      g := a;
      D.DividesItself(a);
    } else if a <= b {
      ReturnsDifference(x, seed, a, b - a);
      g := CommonReturn(x, seed, a, b - a);
      D.DividesSum(g, a, b - a);
    } else {
      ReturnsDifference(x, seed, b, a - b);
      g := CommonReturn(x, seed, a - b, b);
      D.DividesSum(g, b, a - b);
    }
  }

  // ---- the six orders ------------------------------------------------------------------------------

  /** 2^m - 1 in prime factors. */
  function Factors(m: nat): seq<nat> {
    if m == 7 then [127]
    else if m == 9 then [7, 73]
    else if m == 11 then [23, 89]
    else if m == 15 then [7, 31, 151]
    else if m == 20 then [3, 5, 5, 11, 31, 41]
    else [47, 178481]
  }

  lemma Pow2Values()
    ensures G.Pow2(7) == 128 && G.Pow2(9) == 512 && G.Pow2(11) == 2048
    ensures G.Pow2(15) == 32768 && G.Pow2(20) == 1048576 && G.Pow2(23) == 8388608
  {
    assert G.Pow2(15) == 256 * G.Pow2(7);
    assert G.Pow2(20) == 32 * G.Pow2(15);
  }

  lemma ProductCons(p: nat, qs: seq<nat>, n: nat, all: seq<nat>, product: nat)
    requires all == [p] + qs && D.Product(qs) == n && D.Times(p, n) == product
    ensures D.Product(all) == product
  {
    assert all[1..] == qs;
  }

  lemma FactorsOf20()
    ensures D.Product([3, 5, 5, 11, 31, 41]) == 1048575
  {
    assert D.Product([]) == 1;
    hide D.Product;
    ProductCons(41, [], 1, [41], 41);
    ProductCons(31, [41], 41, [31, 41], 1271);
    ProductCons(11, [31, 41], 1271, [11, 31, 41], 13981);
    ProductCons(5, [11, 31, 41], 13981, [5, 11, 31, 41], 69905);
    ProductCons(5, [5, 11, 31, 41], 69905, [5, 5, 11, 31, 41], 349525);
    ProductCons(3, [5, 5, 11, 31, 41], 349525, [3, 5, 5, 11, 31, 41], 1048575);
  }

  lemma FactorsMultiply(m: nat)
    requires m in {7, 9, 11, 15, 20, 23}
    ensures D.Product(Factors(m)) == G.Pow2(m) - 1
  {
    Pow2Values();
    assert D.Product([]) == 1;
    hide G.Pow2, D.Product;
    if m == 7 {
      ProductCons(127, [], 1, [127], 127);
    } else if m == 9 {
      ProductCons(73, [], 1, [73], 73);
      ProductCons(7, [73], 73, [7, 73], 511);
    } else if m == 11 {
      ProductCons(89, [], 1, [89], 89);
      ProductCons(23, [89], 89, [23, 89], 2047);
    } else if m == 15 {
      ProductCons(151, [], 1, [151], 151);
      ProductCons(31, [151], 151, [31, 151], 4681);
      ProductCons(7, [31, 151], 4681, [7, 31, 151], 32767);
    } else if m == 20 {
      FactorsOf20();
    } else {
      ProductCons(178481, [], 1, [178481], 178481);
      ProductCons(47, [178481], 178481, [47, 178481], 8388607);
    }
  }

  lemma Tried(a: nat, b: nat, c: nat, k: nat)
    requires D.Untouched(178481, a, b) && b > 0 && D.Trial(k, 178481, b) && c == b + 10 * k
    ensures D.Untouched(178481, a, c)
  {
    D.TrialMeans(k, 178481, b);
  }

  lemma Tried82()
    ensures D.Untouched(178481, 2, 82)
  {
    assert D.Untouched(178481, 2, 2);
    hide D.Untouched;
    Tried(2, 2, 82, 8);
  }

  lemma Tried162()
    ensures D.Untouched(178481, 2, 162)
  {
    Tried82();
    hide D.Untouched;
    Tried(2, 82, 162, 8);
  }

  lemma Tried242()
    ensures D.Untouched(178481, 2, 242)
  {
    Tried162();
    hide D.Untouched;
    Tried(2, 162, 242, 8);
  }

  lemma Tried322()
    ensures D.Untouched(178481, 2, 322)
  {
    Tried242();
    hide D.Untouched;
    Tried(2, 242, 322, 8);
  }

  lemma Tried402()
    ensures D.Untouched(178481, 2, 402)
  {
    Tried322();
    hide D.Untouched;
    Tried(2, 322, 402, 8);
  }

  lemma Tried432()
    ensures D.Untouched(178481, 2, 432)
  {
    Tried402();
    hide D.Untouched;
    Tried(2, 402, 432, 3);
  }

  lemma LargePrime()
    ensures D.Prime(178481)
  {
    Tried432();
    hide D.Untouched, D.Prime;
    D.TrialPrime(178481, 432);
  }

  lemma FactorsArePrime(m: nat, q: nat)
    requires q in Factors(m)
    ensures D.Prime(q)
  {
    hide D.Prime;
    if q == 178481 {
      LargePrime();
    } else if q == 151 {
      D.TrialMeans(2, 151, 2);
      D.TrialPrime(151, 22);
    } else {
      D.TrialOf(q);
    }
  }

  lemma Within7()
    ensures L.Within(0x7f, 7)
  {
  }

  lemma Cofactor7(q: nat, c: nat)
    requires q in Factors(7) && D.Times(q, c) == 127
    ensures !Returns(Taps(7, 6), 1, c)
  {
    var x := Taps(7, 6);
    var out := Bits(x, 1);
    BitsObey(x, 1);
    Within7();
    hide L.Obeys, L.Ahead, L.Within, Bits, Returns;
    assert c == 1;
    P.FirstPower(out);
    DoesNotReturn(x, 1, 0x2, 0x3, 0x7f);
  }

  lemma Within9()
    ensures L.Within(0x1ff, 9)
  {
  }

  lemma Cofactor9(q: nat, c: nat)
    requires q in Factors(9) && D.Times(q, c) == 511
    ensures !Returns(Taps(9, 5), 1, c)
  {
    var x := Taps(9, 5);
    var out := Bits(x, 1);
    BitsObey(x, 1);
    Within9();
    hide L.Obeys, L.Ahead, L.Within, Bits, Returns;
    if q == 7 {
      assert c == 73;
      P.Order9Over7(out);
      DoesNotReturn(x, 73, 0x150, 0x151, 0x1ff);
    } else {
      assert c == 7;
      P.Order9Over73(out);
      DoesNotReturn(x, 7, 0x80, 0x81, 0x1ff);
    }
  }

  lemma Within11()
    ensures L.Within(0x7ff, 11)
  {
  }

  lemma Cofactor11(q: nat, c: nat)
    requires q in Factors(11) && D.Times(q, c) == 2047
    ensures !Returns(Taps(11, 9), 1, c)
  {
    var x := Taps(11, 9);
    var out := Bits(x, 1);
    BitsObey(x, 1);
    Within11();
    hide L.Obeys, L.Ahead, L.Within, Bits, Returns;
    if q == 23 {
      assert c == 89;
      P.Order11Over23(out);
      DoesNotReturn(x, 89, 0x142, 0x143, 0x7ff);
    } else {
      assert c == 23;
      P.Order11Over89(out);
      DoesNotReturn(x, 23, 0x22, 0x23, 0x7ff);
    }
  }

  lemma Within15()
    ensures L.Within(0x7fff, 15)
  {
    L.WithinMore(0x7FFF, 0x7F, 7);
  }

  lemma Cofactor15(q: nat, c: nat)
    requires q in Factors(15) && D.Times(q, c) == 32767
    ensures !Returns(Taps(15, 14), 1, c)
  {
    var x := Taps(15, 14);
    var out := Bits(x, 1);
    BitsObey(x, 1);
    Within15();
    hide L.Obeys, L.Ahead, L.Within, Bits, Returns;
    if q == 7 {
      assert c == 4681;
      P.Order15Over7(out);
      DoesNotReturn(x, 4681, 0x1632, 0x1633, 0x7fff);
    } else if q == 31 {
      assert c == 1057;
      P.Order15Over31(out);
      DoesNotReturn(x, 1057, 0x270, 0x271, 0x7fff);
    } else {
      assert c == 217;
      P.Order15Over151(out);
      DoesNotReturn(x, 217, 0x2a7f, 0x2a7e, 0x7fff);
    }
  }

  lemma Within20()
    ensures L.Within(0xfffff, 20)
  {
    L.WithinMore(0xFFF, 0xF, 4);
    L.WithinMore(0xF_FFFF, 0xFFF, 12);
  }

  lemma Cofactor20(q: nat, c: nat)
    requires q in Factors(20) && D.Times(q, c) == 1048575
    ensures !Returns(Taps(20, 3), 1, c)
  {
    var x := Taps(20, 3);
    var out := Bits(x, 1);
    BitsObey(x, 1);
    Within20();
    hide L.Obeys, L.Ahead, L.Within, Bits, Returns;
    if q == 3 {
      assert c == 349525;
      P.Order20Over3(out);
      DoesNotReturn(x, 349525, 0x629ae, 0x629af, 0xfffff);
    } else if q == 5 {
      assert c == 209715;
      P.Order20Over5(out);
      DoesNotReturn(x, 209715, 0xba16e, 0xba16f, 0xfffff);
    } else if q == 11 {
      assert c == 95325;
      P.Order20Over11(out);
      DoesNotReturn(x, 95325, 0x4675f, 0x4675e, 0xfffff);
    } else if q == 31 {
      assert c == 33825;
      P.Order20Over31(out);
      DoesNotReturn(x, 33825, 0xb646b, 0xb646a, 0xfffff);
    } else {
      assert c == 25575;
      P.Order20Over41(out);
      DoesNotReturn(x, 25575, 0x3e1a5, 0x3e1a4, 0xfffff);
    }
  }

  lemma Within23()
    ensures L.Within(0x7fffff, 23)
  {
    L.WithinMore(0x7FFF, 0x7F, 7);
    L.WithinMore(0x7F_FFFF, 0x7FFF, 15);
  }

  lemma Cofactor23(q: nat, c: nat)
    requires q in Factors(23) && D.Times(q, c) == 8388607
    ensures !Returns(Taps(23, 18), 1, c)
  {
    var x := Taps(23, 18);
    var out := Bits(x, 1);
    BitsObey(x, 1);
    Within23();
    hide L.Obeys, L.Ahead, L.Within, Bits, Returns;
    if q == 47 {
      assert c == 178481;
      P.Order23Over47(out);
      DoesNotReturn(x, 178481, 0x7ed6fa, 0x7ed6fb, 0x7fffff);
    } else {
      assert c == 47;
      P.Order23Over178481(out);
      DoesNotReturn(x, 47, 0x802, 0x803, 0x7fffff);
    }
  }

  lemma FullTurn(x: Taps, seed: int)
    requires Supported(x)
    ensures Returns(x, seed, Cycle(x))
  {
    var out := Bits(x, seed);
    BitsObey(x, seed);
    Pow2Values();
    hide L.Obeys, L.Ahead, Bits, Returns, G.Pow2;
    match x.m
    case 7 => P.Order7(out); AheadReturns(x, seed, 127);
    case 9 => P.Order9(out); AheadReturns(x, seed, 511);
    case 11 => P.Order11(out); AheadReturns(x, seed, 2047);
    case 15 => P.Order15(out); AheadReturns(x, seed, 32767);
    case 20 => P.Order20(out); AheadReturns(x, seed, 1048575);
    case _ => P.Order23(out); AheadReturns(x, seed, 8388607);
  }

  lemma NoShorterTurn(x: Taps, q: nat, c: nat)
    requires Supported(x) && q in Factors(x.m) && D.Times(q, c) == Cycle(x)
    ensures !Returns(x, 1, c)
  {
    Pow2Values();
    hide Returns, G.Pow2, Factors, D.Times;
    match x.m
    case 7 => Cofactor7(q, c);
    case 9 => Cofactor9(q, c);
    case 11 => Cofactor11(q, c);
    case 15 => Cofactor15(q, c);
    case 20 => Cofactor20(q, c);
    case _ => Cofactor23(q, c);
  }

  // ---- the period ------------------------------------------------------------------------------------

  /** Seed 1 returns after the multiples of 2^m - 1 only. */
  lemma PeriodOfOne(x: Taps, p: nat)
    requires Supported(x) && Returns(x, 1, p)
    ensures D.Divides(Cycle(x), p)
  {
    FullTurn(x, 1);
    FactorsMultiply(x.m);
    forall q | q in Factors(x.m) ensures D.Prime(q) { FactorsArePrime(x.m, q); }
    hide Returns, Factors, D.Prime, D.Product, D.Times;
    var g := CommonReturn(x, 1, Cycle(x), p);
    if g != Cycle(x) {
      var q, c := D.ProperDivisor(g, Factors(x.m));
      NoShorterTurn(x, q, c);
      var k: nat :| D.Times(k, g) == c;
      ReturnsTimes(x, 1, k, g);
    }
  }

  /** The registers of the first n clocks. */
  ghost function Visits(x: Taps, seed: int, n: nat): set<nat>
    requires x.m >= 1 && x.t >= 1
  {
    if n == 0 then {} else Visits(x, seed, n - 1) + {Register(x, seed, n - 1)}
  }

  ghost predicate Distinct(x: Taps, seed: int, n: nat)
    requires x.m >= 1 && x.t >= 1
  {
    forall i: nat, k: nat :: i < k < n ==> Register(x, seed, i) != Register(x, seed, k)
  }

  lemma {:induction false} VisitedAt(x: Taps, seed: int, n: nat, s: nat) returns (k: nat)
    requires x.m >= 1 && x.t >= 1 && s in Visits(x, seed, n)
    ensures k < n && Register(x, seed, k) == s
  {
    hide Register;
    if s == Register(x, seed, n - 1) { k := n - 1; } else { k := VisitedAt(x, seed, n - 1, s); }
  }

  lemma {:induction false} VisitsInRange(x: Taps, seed: int, n: nat)
    requires Supported(x)
    ensures Visits(x, seed, n) <= Below(Cycle(x))
  {
    hide Register, Below, G.Pow2;
    if n > 0 {
      VisitsInRange(x, seed, n - 1);
      RegisterNeverZero(x, seed, n - 1);
    }
  }

  lemma NewVisit(x: Taps, seed: int, n: nat)
    requires Supported(x) && Distinct(x, seed, n) && n > 0
    ensures Register(x, seed, n - 1) !in Visits(x, seed, n - 1)
  {
    hide Register;
    if Register(x, seed, n - 1) in Visits(x, seed, n - 1) {
      var k := VisitedAt(x, seed, n - 1, Register(x, seed, n - 1));
      assert false;
    }
  }

  lemma {:induction false} VisitsCount(x: Taps, seed: int, n: nat)
    requires Supported(x) && Distinct(x, seed, n)
    ensures |Visits(x, seed, n)| == n
  {
    hide Register;
    if n > 0 {
      VisitsCount(x, seed, n - 1);
      NewVisit(x, seed, n);
    }
  }

  lemma NoneTwice(x: Taps, seed: int)
    requires Supported(x) && forall p: nat :: Returns(x, seed, p) ==> D.Divides(Cycle(x), p)
    ensures Distinct(x, seed, Cycle(x))
  {
    hide Register, Cycle;
    forall i: nat, k: nat | i < k < Cycle(x) ensures Register(x, seed, i) != Register(x, seed, k) {
      if Register(x, seed, i) == Register(x, seed, k) {
        RunBack(x, seed, i, k - i);
        assert Returns(x, seed, k - i);
        D.DividesOnlyLarger(Cycle(x), k - i);
      }
    }
  }

  lemma AllVisited(x: Taps, seed: int)
    requires Supported(x) && Distinct(x, seed, Cycle(x))
    ensures Visits(x, seed, Cycle(x)) == Below(Cycle(x))
  {
    var n := Cycle(x);
    hide Distinct, Visits, G.Pow2;
    VisitsCount(x, seed, n);
    VisitsInRange(x, seed, n);
    if Visits(x, seed, n) != Below(n) { SmallerSet(Visits(x, seed, n), Below(n)); }
  }

  /** The register takes every value but zero. */
  lemma EveryRegister(x: Taps, s: nat) returns (k: nat)
    requires Supported(x) && 0 < s < G.Pow2(x.m)
    ensures k < Cycle(x) && Register(x, 1, k) == s
  {
    hide Register, Visits, Returns, G.Pow2;
    forall p: nat | Returns(x, 1, p) ensures D.Divides(Cycle(x), p) { PeriodOfOne(x, p); }
    NoneTwice(x, 1);
    AllVisited(x, 1);
    assert s in Below(Cycle(x));
    k := VisitedAt(x, 1, Cycle(x), s);
  }

  /** From any seed the register is back after p clocks exactly when p is a multiple of 2^m - 1. */
  lemma RegisterPeriod(x: Taps, seed: int, p: nat)
    requires Supported(x)
    ensures Register(x, seed, p) == Register(x, seed, 0) <==> D.Divides(Cycle(x), p)
  {
    hide Register, D.Divides, Cycle;
    RegisterNeverZero(x, seed, 0);
    if D.Divides(Cycle(x), p) {
      FullTurn(x, seed);
      var k := D.Multiple(Cycle(x), p);
      ReturnsTimes(x, seed, k, Cycle(x));
    }
    if Register(x, seed, p) == Register(x, seed, 0) {
      var k := EveryRegister(x, Register(x, seed, 0));
      GoesOn(x, seed, 1, 0, k, p);
      RunBack(x, 1, k, p);
      PeriodOfOne(x, p);
    }
  }

  /** The payload repeats p bits later exactly when p is a multiple of 2^m - 1. */
  lemma PayloadPeriod(x: Taps, seed: int, p: nat)
    requires Supported(x)
    ensures (forall i: nat :: L.Later(Bits(x, seed), i, p) == Output(x, seed, i)) <==> p % Cycle(x) == 0
  {
    hide Register, BitAt;
    var out := Bits(x, seed);
    RegisterPeriod(x, seed, p);
    Pow2Values();
    D.DividesIffMod(Cycle(x), p);
    hide G.Pow2, D.Divides, Cycle;
    if p % Cycle(x) == 0 {
      forall i: nat ensures L.Later(out, i, p) == Output(x, seed, i) { GoesOn(x, seed, seed, p, 0, i); }
    }
    if forall i: nat :: L.Later(out, i, p) == Output(x, seed, i) {
      forall j: nat | j < x.m ensures L.Later(out, p, j) == L.Later(out, 0, j) {
        assert L.Later(out, j, p) == Output(x, seed, j);
      }
      SameWindow(x, seed, p, 0);
    }
  }

  // ---- balance -----------------------------------------------------------------------------------------

  function Ones(bits: seq<Bit>): nat { if bits == [] then 0 else Ones(bits[..|bits| - 1]) + bits[|bits| - 1] }

  /** The registers of the first n clocks that put out a one. */
  ghost function Sounding(x: Taps, seed: int, n: nat): set<nat>
    requires x.m >= 1 && x.t >= 1
  {
    set s | s in Visits(x, seed, n) && BitAt(s, x.m - 1) == 1
  }

  lemma OnesGrow(x: Taps, seed: int, n: nat)
    requires x.m >= 1 && x.t >= 1 && n > 0
    ensures Ones(Payload(x, seed, n)) == Ones(Payload(x, seed, n - 1)) + Output(x, seed, n - 1)
  {
    hide Output;
    assert Payload(x, seed, n)[..n - 1] == Payload(x, seed, n - 1);
  }

  lemma SoundingGrows(x: Taps, seed: int, n: nat)
    requires x.m >= 1 && x.t >= 1 && n > 0
    ensures Sounding(x, seed, n)
         == Sounding(x, seed, n - 1) + if Output(x, seed, n - 1) == 1 then {Register(x, seed, n - 1)} else {}
  {
    hide Register, BitAt;
  }

  lemma {:induction false} OnesAreSounding(x: Taps, seed: int, n: nat)
    requires Supported(x) && Distinct(x, seed, n)
    ensures |Sounding(x, seed, n)| == Ones(Payload(x, seed, n))
  {
    hide Register, Output, Payload;
    if n > 0 {
      OnesAreSounding(x, seed, n - 1);
      NewVisit(x, seed, n);
      OnesGrow(x, seed, n);
      SoundingGrows(x, seed, n);
      hide Visits;
    }
  }

  lemma {:induction false} HighIsZero(s: nat, k: nat)
    ensures G.High(s, k) == 0 <==> s < G.Pow2(k)
  {
    if k > 0 { HighIsZero(s / 2, k - 1); }
  }

  lemma TopBitIff(x: Taps, s: nat)
    requires x.m >= 1 && s < G.Pow2(x.m)
    ensures BitAt(s, x.m - 1) == 1 <==> s >= G.Pow2(x.m - 1)
  {
    hide BitAt, G.High, G.Pow2;
    TopBit(x, s);
    HighIsZero(s, x.m - 1);
  }

  lemma UpperHalf(upper: set<nat>, half: nat)
    requires half >= 1 && forall s: nat :: s in upper <==> half <= s <= 2 * half - 1
    ensures |upper| == half
  {
    assert Below(2 * half - 1) == upper + Below(half - 1);
    assert upper !! Below(half - 1);
  }

  lemma UpperHalfSounds(x: Taps, seed: int, s: nat)
    requires Supported(x) && Visits(x, seed, Cycle(x)) == Below(Cycle(x))
    ensures s in Sounding(x, seed, Cycle(x)) <==> G.Pow2(x.m - 1) <= s <= 2 * G.Pow2(x.m - 1) - 1
  {
    var n, half := Cycle(x), G.Pow2(x.m - 1);
    assert n == 2 * half - 1 && G.Pow2(x.m) == n + 1;
    hide Cycle, G.Pow2, Visits, BitAt;
    if s <= n { TopBitIff(x, s); }
  }

  /** From any seed one full period holds 2^(m-1) ones, one more than it holds zeros. */
  lemma PayloadIsBalanced(x: Taps, seed: int)
    requires Supported(x)
    ensures Ones(Payload(x, seed, Cycle(x))) == G.Pow2(x.m - 1)
    ensures Cycle(x) == 2 * G.Pow2(x.m - 1) - 1
  {
    var n, half := Cycle(x), G.Pow2(x.m - 1);
    assert n == 2 * half - 1;
    hide Register, G.Pow2, D.Divides, Visits, Sounding, Distinct, Payload, Cycle;
    forall p: nat | Returns(x, seed, p) ensures D.Divides(n, p) { RegisterPeriod(x, seed, p); }
    hide Returns;
    NoneTwice(x, seed);
    AllVisited(x, seed);
    OnesAreSounding(x, seed, n);
    forall s: nat ensures s in Sounding(x, seed, n) <==> half <= s <= 2 * half - 1 { UpperHalfSounds(x, seed, s); }
    UpperHalf(Sounding(x, seed, n), half);
  }
}
