/** Powers of x modulo x^m + x^(m-t) + 1, by repeated squaring in plain word operations. */
module PowersOfX {
  import opened LinearRecurrence

  function Raised(r: Poly, e: Poly): Poly { if r & 1 == 1 then Twice(e) else e }

  /** The quotient of f, of fewer than 2m places, for a t of at least m/8: dividing by 1 + x^-t is multiplying by
      (1 + x^-t)(1 + x^-2t)(1 + x^-4t). */
  function Quotient(m: Poly, t: Poly, f: Poly): Poly
    requires t <= m < 64
  {
    var h := f >> m;
    var h1 := h ^ (h >> t);
    var h2 := h1 ^ ((h1 >> t) >> t);
    h2 ^ ((((h2 >> t) >> t) >> t) >> t)
  }

  function Remainder(m: Poly, t: Poly, f: Poly, q: Poly): Poly
    requires t <= m < 64
  {
    f ^ (q << m) ^ q ^ (q << (m - t))
  }

  /** Squares k times, and multiplies by x after those squarings whose bit of r is set, lowest bit first. A power
      beyond the 32 places that squaring can take ends in 0. */
  function Powers(k: nat, m: Poly, t: Poly, r: Poly, p: Poly): Poly
    requires t <= m < 64
    decreases k, 2
  {
    if k == 0 then p
    else if p >= 0x1_0000_0000 then 0
    else
      Divided(k, m, t, r >> 1,
              var a := (p | (p << 16)) & 0x0000_FFFF_0000_FFFF;
              var b := (a | (a << 8)) & 0x00FF_00FF_00FF_00FF;
              var c := (b | (b << 4)) & 0x0F0F_0F0F_0F0F_0F0F;
              var d := (c | (c << 2)) & 0x3333_3333_3333_3333;
              var e := (d | (d << 1)) & 0x5555_5555_5555_5555;
              if r & 1 == 1 then e << 1 else e)
  }

  function Divided(k: nat, m: Poly, t: Poly, r: Poly, f: Poly): Poly
    requires t <= m < 64 && k > 0
    decreases k, 1
  {
    Reduced(k, m, t, r, f,
            var h := f >> m;
            var h1 := h ^ (h >> t);
            var h2 := h1 ^ ((h1 >> t) >> t);
            h2 ^ ((((h2 >> t) >> t) >> t) >> t))
  }

  function Reduced(k: nat, m: Poly, t: Poly, r: Poly, f: Poly, q: Poly): Poly
    requires t <= m < 64 && k > 0
    decreases k, 0
  {
    Powers(k - 1, m, t, r, f ^ (q << m) ^ q ^ (q << (m - t)))
  }

  /** The exponent those steps reach from n. */
  function Exponent(k: nat, r: Poly, n: nat): nat
    decreases k
  {
    if k == 0 then n else Exponent(k - 1, r >> 1, if r & 1 == 1 then 2 * n + 1 else 2 * n)
  }

  function Next(m: Poly, t: Poly, r: Poly, p: Poly): Poly
    requires t <= m < 64
  {
    var f := Raised(r, Spread(p));
    Remainder(m, t, f, Quotient(m, t, f))
  }

  lemma PowersDivides(k: nat, m: Poly, t: Poly, r: Poly, p: Poly)
    requires t <= m < 64 && k > 0 && p < 0x1_0000_0000
    ensures Powers(k, m, t, r, p) == Divided(k, m, t, Half(r), Raised(r, Spread(p)))
  {
    hide Divided;
  }

  lemma DividedReduces(k: nat, m: Poly, t: Poly, r: Poly, f: Poly)
    requires t <= m < 64 && k > 0
    ensures Divided(k, m, t, r, f) == Reduced(k, m, t, r, f, Quotient(m, t, f))
  {
    hide Reduced;
  }

  lemma ReducedGoesOn(k: nat, m: Poly, t: Poly, r: Poly, f: Poly, q: Poly)
    requires t <= m < 64 && k > 0
    ensures Reduced(k, m, t, r, f, q) == Powers(k - 1, m, t, r, Remainder(m, t, f, q))
  {
    hide Powers;
  }

  lemma PowersUnfold(k: nat, m: Poly, t: Poly, r: Poly, p: Poly)
    requires t <= m < 64 && k > 0 && p < 0x1_0000_0000
    ensures Powers(k, m, t, r, p) == Powers(k - 1, m, t, Half(r), Next(m, t, r, p))
  {
    hide Powers, Divided, Reduced, Raised, Spread, Quotient, Remainder, Half;
    var f := Raised(r, Spread(p));
    PowersDivides(k, m, t, r, p);
    DividedReduces(k, m, t, Half(r), f);
    ReducedGoesOn(k, m, t, Half(r), f, Quotient(m, t, f));
  }

  // ---- what the powers say about a sequence --------------------------------------------------------

  ghost predicate Lifted(p: Poly, n: nat, q: Poly) { NoLoss(p, n) && Up(p, n) == q }

  function Shifted(p: Poly, k: Poly): Poly
    requires k < 64
  {
    p << k
  }

  lemma RemainderUnfold(m: Poly, t: Poly, f: Poly, q: Poly)
    requires t <= m < 64
    ensures Remainder(m, t, f, q) == Total(f, q << m, q, q << (m - t))
  {
  }

  lemma RemainderIsTotal(m: Poly, t: Poly, f: Poly, q: Poly)
    requires t <= m < 64
    ensures Remainder(m, t, f, q) == Total(f, Shifted(q, m), q, Shifted(q, m - t))
  {
    hide Total, Remainder;
    RemainderUnfold(m, t, f, q);
  }

  /** Quotients may be shifted up by the places and by the gap of the recurrence as words are. */
  ghost predicate Lifts(m: Poly, t: Poly, places: nat, gap: nat) {
    && t <= m < 64
    && forall f: Poly ::
         && Lifted(Quotient(m, t, f), places, Shifted(Quotient(m, t, f), m))
         && Lifted(Quotient(m, t, f), gap, Shifted(Quotient(m, t, f), m - t))
  }

  lemma RemainderAhead(out: Sequence, places: nat, gap: nat, m: Poly, t: Poly, n: nat, f: Poly)
    requires Obeys(out, places, gap) && Lifts(m, t, places, gap) && Ahead(out, n, f)
    ensures Ahead(out, n, Remainder(m, t, f, Quotient(m, t, f)))
  {
    hide Obeys, Ahead, NoLoss, Up, Quotient, Remainder, Total, Shifted;
    var q := Quotient(m, t, f);
    RemainderIsTotal(m, t, f, q);
    Exchanged(out, places, gap, n, f, q);
  }

  lemma SpreadBelowTop(p: Poly)
    ensures Spread(p) < TOP
  {
  }

  function Step(r: Poly, n: nat): nat { if r & 1 == 1 then 2 * n + 1 else 2 * n }

  lemma RaisedAhead(out: Sequence, r: Poly, n: nat, p: Poly)
    requires Ahead(out, n, p) && p < 0x1_0000_0000
    ensures Ahead(out, Step(r, n), Raised(r, Spread(p)))
  {
    hide Ahead, Spread, Twice;
    AheadTwice(out, n, p);
    SpreadBelowTop(p);
    if r & 1 == 1 { AheadNext(out, 2 * n, Spread(p)); }
  }

  lemma NextAhead(out: Sequence, places: nat, gap: nat, m: Poly, t: Poly, r: Poly, n: nat, p: Poly)
    requires Obeys(out, places, gap) && Lifts(m, t, places, gap) && Ahead(out, n, p) && p < 0x1_0000_0000
    ensures Ahead(out, Step(r, n), Next(m, t, r, p))
  {
    assert t <= m < 64;
    hide Obeys, Ahead, Lifts, Spread, Raised, Remainder, Quotient, Step;
    RaisedAhead(out, r, n, p);
    RemainderAhead(out, places, gap, m, t, Step(r, n), Raised(r, Spread(p)));
  }

  /** The powers computed are the powers: they act like going that far ahead. */
  lemma {:induction false} PowersAhead(out: Sequence, places: nat, gap: nat, m: Poly, t: Poly, k: nat, r: Poly, n: nat,
                                       p: Poly)
    requires Obeys(out, places, gap) && Lifts(m, t, places, gap) && Ahead(out, n, p) && Powers(k, m, t, r, p) != 0
    ensures Ahead(out, Exponent(k, r, n), Powers(k, m, t, r, p))
    decreases k
  {
    assert t <= m < 64;
    hide Obeys, Ahead, Lifts, Divided;
    if k > 0 {
      assert p < 0x1_0000_0000;
      assert Exponent(k, r, n) == Exponent(k - 1, Half(r), Step(r, n));
      hide Powers, Exponent, Next, Half, Step;
      PowersUnfold(k, m, t, r, p);
      NextAhead(out, places, gap, m, t, r, n, p);
      PowersAhead(out, places, gap, m, t, k - 1, Half(r), Step(r, n), Next(m, t, r, p));
    }
  }

  // ---- the six orders ------------------------------------------------------------------------------

  lemma LiftedFurther(p: Poly, a: nat, q: Poly, b: nat, r: Poly)
    requires Lifted(p, a, q) && Lifted(q, b, r)
    ensures Lifted(p, a + b, r)
  {
    hide Up, NoLoss;
    UpOfUp(p, a, b);
  }

  lemma Lift1(p: Poly)
    requires p < 0x8000_0000_0000_0000
    ensures Lifted(p, 1, p << 1)
  {
  }

  lemma Lift2(p: Poly)
    requires p < 0x4000_0000_0000_0000
    ensures Lifted(p, 2, p << 2)
  {
  }

  lemma Lift4(p: Poly)
    requires p < 0x1000_0000_0000_0000
    ensures Lifted(p, 4, p << 4)
  {
  }

  lemma Lift5(p: Poly)
    requires p < 0x0800_0000_0000_0000
    ensures Lifted(p, 5, p << 5)
  {
  }

  lemma Lift7(p: Poly)
    requires p < 0x0200_0000_0000_0000
    ensures Lifted(p, 7, p << 7)
  {
  }

  lemma Lift9(p: Poly)
    requires p < 0x0080_0000_0000_0000
    ensures Lifted(p, 9, p << 9)
  {
  }

  lemma Lift11(p: Poly)
    requires p < 0x0020_0000_0000_0000
    ensures Lifted(p, 11, p << 11)
  {
  }

  lemma Lift15(p: Poly)
    requires p < 0x0002_0000_0000_0000
    ensures Lifted(p, 15, p << 15)
  {
    assert p < 0x0020_0000_0000_0000 && p << 11 < 0x1000_0000_0000_0000;
    assert (p << 11) << 4 == p << 15;
    hide Lifted;
    Lift11(p);
    Lift4(p << 11);
    LiftedFurther(p, 11, p << 11, 4, (p << 11) << 4);
  }

  lemma Lift17(p: Poly)
    requires p < 0x8000_0000_0000
    ensures Lifted(p, 17, p << 17)
  {
    assert p < 0x0002_0000_0000_0000 && p << 15 < 0x4000_0000_0000_0000;
    assert (p << 15) << 2 == p << 17;
    hide Lifted;
    Lift15(p);
    Lift2(p << 15);
    LiftedFurther(p, 15, p << 15, 2, (p << 15) << 2);
  }

  lemma Lift20(p: Poly)
    requires p < 0x1000_0000_0000
    ensures Lifted(p, 20, p << 20)
  {
    assert p < 0x0002_0000_0000_0000 && p << 15 < 0x0800_0000_0000_0000;
    assert (p << 15) << 5 == p << 20;
    hide Lifted;
    Lift15(p);
    Lift5(p << 15);
    LiftedFurther(p, 15, p << 15, 5, (p << 15) << 5);
  }

  lemma Lift23(p: Poly)
    requires p < 0x200_0000_0000
    ensures Lifted(p, 23, p << 23)
  {
    assert p < 0x8000_0000_0000 && p << 17 < 0x0400_0000_0000_0000;
    assert ((p << 17) << 5) << 1 == p << 23;
    hide Lifted;
    Lift17(p);
    Lift5(p << 17);
    LiftedFurther(p, 17, p << 17, 5, (p << 17) << 5);
    Lift1((p << 17) << 5);
    LiftedFurther(p, 22, (p << 17) << 5, 1, ((p << 17) << 5) << 1);
  }

  lemma Quotient7(f: Poly)
    ensures Quotient(7, 6, f) < 0x0200_0000_0000_0000
  {
  }

  lemma LiftsBelow7(q: Poly)
    requires q < 0x0200_0000_0000_0000
    ensures Lifted(q, 7, Shifted(q, 7)) && Lifted(q, 1, Shifted(q, 1))
  {
    assert Shifted(q, 7) == q << 7 && Shifted(q, 1) == q << 1;
    hide Lifted, Shifted;
    Lift7(q);
    Lift1(q);
  }

  lemma Lifts7()
    ensures Lifts(7, 6, 7, 1)
  {
    hide Quotient, Lifted, Shifted;
    forall f: Poly
      ensures Lifted(Quotient(7, 6, f), 7, Shifted(Quotient(7, 6, f), 7))
      ensures Lifted(Quotient(7, 6, f), 1, Shifted(Quotient(7, 6, f), 1))
    {
      Quotient7(f);
      LiftsBelow7(Quotient(7, 6, f));
    }
  }

  lemma Quotient9(f: Poly)
    ensures Quotient(9, 5, f) < 0x0080_0000_0000_0000
  {
  }

  lemma LiftsBelow9(q: Poly)
    requires q < 0x0080_0000_0000_0000
    ensures Lifted(q, 9, Shifted(q, 9)) && Lifted(q, 4, Shifted(q, 4))
  {
    assert Shifted(q, 9) == q << 9 && Shifted(q, 4) == q << 4;
    hide Lifted, Shifted;
    Lift9(q);
    Lift4(q);
  }

  lemma Lifts9()
    ensures Lifts(9, 5, 9, 4)
  {
    hide Quotient, Lifted, Shifted;
    forall f: Poly
      ensures Lifted(Quotient(9, 5, f), 9, Shifted(Quotient(9, 5, f), 9))
      ensures Lifted(Quotient(9, 5, f), 4, Shifted(Quotient(9, 5, f), 4))
    {
      Quotient9(f);
      LiftsBelow9(Quotient(9, 5, f));
    }
  }

  lemma Quotient11(f: Poly)
    ensures Quotient(11, 9, f) < 0x0020_0000_0000_0000
  {
  }

  lemma LiftsBelow11(q: Poly)
    requires q < 0x0020_0000_0000_0000
    ensures Lifted(q, 11, Shifted(q, 11)) && Lifted(q, 2, Shifted(q, 2))
  {
    assert Shifted(q, 11) == q << 11 && Shifted(q, 2) == q << 2;
    hide Lifted, Shifted;
    Lift11(q);
    Lift2(q);
  }

  lemma Lifts11()
    ensures Lifts(11, 9, 11, 2)
  {
    hide Quotient, Lifted, Shifted;
    forall f: Poly
      ensures Lifted(Quotient(11, 9, f), 11, Shifted(Quotient(11, 9, f), 11))
      ensures Lifted(Quotient(11, 9, f), 2, Shifted(Quotient(11, 9, f), 2))
    {
      Quotient11(f);
      LiftsBelow11(Quotient(11, 9, f));
    }
  }

  lemma Quotient15(f: Poly)
    ensures Quotient(15, 14, f) < 0x0002_0000_0000_0000
  {
  }

  lemma LiftsBelow15(q: Poly)
    requires q < 0x0002_0000_0000_0000
    ensures Lifted(q, 15, Shifted(q, 15)) && Lifted(q, 1, Shifted(q, 1))
  {
    assert Shifted(q, 15) == q << 15 && Shifted(q, 1) == q << 1;
    hide Lifted, Shifted;
    Lift15(q);
    Lift1(q);
  }

  lemma Lifts15()
    ensures Lifts(15, 14, 15, 1)
  {
    hide Quotient, Lifted, Shifted;
    forall f: Poly
      ensures Lifted(Quotient(15, 14, f), 15, Shifted(Quotient(15, 14, f), 15))
      ensures Lifted(Quotient(15, 14, f), 1, Shifted(Quotient(15, 14, f), 1))
    {
      Quotient15(f);
      LiftsBelow15(Quotient(15, 14, f));
    }
  }

  lemma Quotient20(f: Poly)
    ensures Quotient(20, 3, f) < 0x1000_0000_0000
  {
  }

  lemma LiftsBelow20(q: Poly)
    requires q < 0x1000_0000_0000
    ensures Lifted(q, 20, Shifted(q, 20)) && Lifted(q, 17, Shifted(q, 17))
  {
    assert Shifted(q, 20) == q << 20 && Shifted(q, 17) == q << 17;
    hide Lifted, Shifted;
    Lift20(q);
    Lift17(q);
  }

  lemma Lifts20()
    ensures Lifts(20, 3, 20, 17)
  {
    hide Quotient, Lifted, Shifted;
    forall f: Poly
      ensures Lifted(Quotient(20, 3, f), 20, Shifted(Quotient(20, 3, f), 20))
      ensures Lifted(Quotient(20, 3, f), 17, Shifted(Quotient(20, 3, f), 17))
    {
      Quotient20(f);
      LiftsBelow20(Quotient(20, 3, f));
    }
  }

  lemma Quotient23(f: Poly)
    ensures Quotient(23, 18, f) < 0x200_0000_0000
  {
  }

  lemma LiftsBelow23(q: Poly)
    requires q < 0x200_0000_0000
    ensures Lifted(q, 23, Shifted(q, 23)) && Lifted(q, 5, Shifted(q, 5))
  {
    assert Shifted(q, 23) == q << 23 && Shifted(q, 5) == q << 5;
    hide Lifted, Shifted;
    Lift23(q);
    Lift5(q);
  }

  lemma Lifts23()
    ensures Lifts(23, 18, 23, 5)
  {
    hide Quotient, Lifted, Shifted;
    forall f: Poly
      ensures Lifted(Quotient(23, 18, f), 23, Shifted(Quotient(23, 18, f), 23))
      ensures Lifted(Quotient(23, 18, f), 5, Shifted(Quotient(23, 18, f), 5))
    {
      Quotient23(f);
      LiftsBelow23(Quotient(23, 18, f));
    }
  }

  // ---- the powers that matter ------------------------------------------------------------------------
  // x^n for n = 2^m - 1 and for that divided by each of its prime factors, at most four squarings a step.

  lemma FirstPower(out: Sequence)
    ensures Ahead(out, 1, 2)
  {
    hide Act;
    forall i: nat ensures Later(out, i, 0) == Act(out, 1, i, ALL) { ActOne(out, i); }
    hide Ahead;
    AheadNext(out, 0, 1);
  }

  lemma ActOne(out: Sequence, i: nat)
    ensures Act(out, 1, i, ALL) == out(i)
  {
    ActZero(out, i + 1, ALL - 1);
    assert Half(1) == 0 && Lsb(1) == 1;
  }

  lemma Steps(out: Sequence, places: nat, gap: nat, m: Poly, t: Poly, k: nat, r: Poly, n: nat, p: Poly)
    requires Obeys(out, places, gap) && Lifts(m, t, places, gap) && Ahead(out, n, p)
    requires t <= m < 64 && Powers(k, m, t, r, p) != 0
    ensures Ahead(out, Exponent(k, r, n), Powers(k, m, t, r, p))
  {
    hide Obeys, Lifts, Ahead, Powers, Exponent;
    PowersAhead(out, places, gap, m, t, k, r, n, p);
  }

  lemma Order7(out: Sequence)
    requires Obeys(out, 7, 1)
    ensures Ahead(out, 127, 0x1)
  {
    hide Obeys, Ahead, Lifts;
    Lifts7();
    FirstPower(out);
    assert Ahead(out, 31, 0xb) by { Steps(out, 7, 1, 7, 6, 4, 15, 1, 0x2); }
    assert Ahead(out, 127, 0x1) by { Steps(out, 7, 1, 7, 6, 2, 3, 31, 0xb); }
  }

  lemma Order9(out: Sequence)
    requires Obeys(out, 9, 4)
    ensures Ahead(out, 511, 0x1)
  {
    hide Obeys, Ahead, Lifts;
    Lifts9();
    FirstPower(out);
    assert Ahead(out, 31, 0x15c) by { Steps(out, 9, 4, 9, 5, 4, 15, 1, 0x2); }
    assert Ahead(out, 511, 0x1) by { Steps(out, 9, 4, 9, 5, 4, 15, 31, 0x15c); }
  }

  lemma Order9Over7(out: Sequence)
    requires Obeys(out, 9, 4)
    ensures Ahead(out, 73, 0x150)
  {
    hide Obeys, Ahead, Lifts;
    Lifts9();
    FirstPower(out);
    assert Ahead(out, 18, 0x101) by { Steps(out, 9, 4, 9, 5, 4, 4, 1, 0x2); }
    assert Ahead(out, 73, 0x150) by { Steps(out, 9, 4, 9, 5, 2, 2, 18, 0x101); }
  }

  lemma Order9Over73(out: Sequence)
    requires Obeys(out, 9, 4)
    ensures Ahead(out, 7, 0x80)
  {
    hide Obeys, Ahead, Lifts;
    Lifts9();
    FirstPower(out);
    assert Ahead(out, 7, 0x80) by { Steps(out, 9, 4, 9, 5, 2, 3, 1, 0x2); }
  }

  lemma Order11(out: Sequence)
    requires Obeys(out, 11, 2)
    ensures Ahead(out, 2047, 0x1)
  {
    hide Obeys, Ahead, Lifts;
    Lifts11();
    FirstPower(out);
    assert Ahead(out, 31, 0x214) by { Steps(out, 11, 2, 11, 9, 4, 15, 1, 0x2); }
    assert Ahead(out, 511, 0x2fd) by { Steps(out, 11, 2, 11, 9, 4, 15, 31, 0x214); }
    assert Ahead(out, 2047, 0x1) by { Steps(out, 11, 2, 11, 9, 2, 3, 511, 0x2fd); }
  }

  lemma Order11Over23(out: Sequence)
    requires Obeys(out, 11, 2)
    ensures Ahead(out, 89, 0x142)
  {
    hide Obeys, Ahead, Lifts;
    Lifts11();
    FirstPower(out);
    assert Ahead(out, 22, 0x11) by { Steps(out, 11, 2, 11, 9, 4, 6, 1, 0x2); }
    assert Ahead(out, 89, 0x142) by { Steps(out, 11, 2, 11, 9, 2, 2, 22, 0x11); }
  }

  lemma Order11Over89(out: Sequence)
    requires Obeys(out, 11, 2)
    ensures Ahead(out, 23, 0x22)
  {
    hide Obeys, Ahead, Lifts;
    Lifts11();
    FirstPower(out);
    assert Ahead(out, 23, 0x22) by { Steps(out, 11, 2, 11, 9, 4, 14, 1, 0x2); }
  }

  lemma Order15(out: Sequence)
    requires Obeys(out, 15, 1)
    ensures Ahead(out, 32767, 0x1)
  {
    hide Obeys, Ahead, Lifts;
    Lifts15();
    FirstPower(out);
    assert Ahead(out, 31, 0xa) by { Steps(out, 15, 1, 15, 14, 4, 15, 1, 0x2); }
    assert Ahead(out, 511, 0x82) by { Steps(out, 15, 1, 15, 14, 4, 15, 31, 0xa); }
    assert Ahead(out, 8191, 0x89) by { Steps(out, 15, 1, 15, 14, 4, 15, 511, 0x82); }
    assert Ahead(out, 32767, 0x1) by { Steps(out, 15, 1, 15, 14, 2, 3, 8191, 0x89); }
  }

  lemma Order15Over7(out: Sequence)
    requires Obeys(out, 15, 1)
    ensures Ahead(out, 4681, 0x1632)
  {
    hide Obeys, Ahead, Lifts;
    Lifts15();
    FirstPower(out);
    assert Ahead(out, 18, 0x18) by { Steps(out, 15, 1, 15, 14, 4, 4, 1, 0x2); }
    assert Ahead(out, 292, 0x1680) by { Steps(out, 15, 1, 15, 14, 4, 2, 18, 0x18); }
    assert Ahead(out, 4681, 0x1632) by { Steps(out, 15, 1, 15, 14, 4, 9, 292, 0x1680); }
  }

  lemma Order15Over31(out: Sequence)
    requires Obeys(out, 15, 1)
    ensures Ahead(out, 1057, 0x270)
  {
    hide Obeys, Ahead, Lifts;
    Lifts15();
    FirstPower(out);
    assert Ahead(out, 16, 0x6) by { Steps(out, 15, 1, 15, 14, 4, 0, 1, 0x2); }
    assert Ahead(out, 264, 0x1200) by { Steps(out, 15, 1, 15, 14, 4, 1, 16, 0x6); }
    assert Ahead(out, 1057, 0x270) by { Steps(out, 15, 1, 15, 14, 2, 2, 264, 0x1200); }
  }

  lemma Order15Over151(out: Sequence)
    requires Obeys(out, 15, 1)
    ensures Ahead(out, 217, 0x2a7f)
  {
    hide Obeys, Ahead, Lifts;
    Lifts15();
    FirstPower(out);
    assert Ahead(out, 27, 0x3000) by { Steps(out, 15, 1, 15, 14, 4, 13, 1, 0x2); }
    assert Ahead(out, 217, 0x2a7f) by { Steps(out, 15, 1, 15, 14, 3, 4, 27, 0x3000); }
  }

  lemma Order20(out: Sequence)
    requires Obeys(out, 20, 17)
    ensures Ahead(out, 1048575, 0x1)
  {
    hide Obeys, Ahead, Lifts;
    Lifts20();
    FirstPower(out);
    assert Ahead(out, 31, 0x80924) by { Steps(out, 20, 17, 20, 3, 4, 15, 1, 0x2); }
    assert Ahead(out, 511, 0x8eb96) by { Steps(out, 20, 17, 20, 3, 4, 15, 31, 0x80924); }
    assert Ahead(out, 8191, 0xb97d0) by { Steps(out, 20, 17, 20, 3, 4, 15, 511, 0x8eb96); }
    assert Ahead(out, 131071, 0x24902) by { Steps(out, 20, 17, 20, 3, 4, 15, 8191, 0xb97d0); }
    assert Ahead(out, 1048575, 0x1) by { Steps(out, 20, 17, 20, 3, 3, 7, 131071, 0x24902); }
  }

  lemma Order20Over3(out: Sequence)
    requires Obeys(out, 20, 17)
    ensures Ahead(out, 349525, 0x629ae)
  {
    hide Obeys, Ahead, Lifts;
    Lifts20();
    FirstPower(out);
    assert Ahead(out, 21, 0x40002) by { Steps(out, 20, 17, 20, 3, 4, 10, 1, 0x2); }
    assert Ahead(out, 341, 0x39f0b) by { Steps(out, 20, 17, 20, 3, 4, 10, 21, 0x40002); }
    assert Ahead(out, 5461, 0x15843) by { Steps(out, 20, 17, 20, 3, 4, 10, 341, 0x39f0b); }
    assert Ahead(out, 87381, 0x81474) by { Steps(out, 20, 17, 20, 3, 4, 10, 5461, 0x15843); }
    assert Ahead(out, 349525, 0x629ae) by { Steps(out, 20, 17, 20, 3, 2, 2, 87381, 0x81474); }
  }

  lemma Order20Over5(out: Sequence)
    requires Obeys(out, 20, 17)
    ensures Ahead(out, 209715, 0xba16e)
  {
    hide Obeys, Ahead, Lifts;
    Lifts20();
    FirstPower(out);
    assert Ahead(out, 25, 0x80024) by { Steps(out, 20, 17, 20, 3, 4, 9, 1, 0x2); }
    assert Ahead(out, 409, 0xd1388) by { Steps(out, 20, 17, 20, 3, 4, 9, 25, 0x80024); }
    assert Ahead(out, 6553, 0x6c91d) by { Steps(out, 20, 17, 20, 3, 4, 9, 409, 0xd1388); }
    assert Ahead(out, 104857, 0x9cbf3) by { Steps(out, 20, 17, 20, 3, 4, 9, 6553, 0x6c91d); }
    assert Ahead(out, 209715, 0xba16e) by { Steps(out, 20, 17, 20, 3, 1, 1, 104857, 0x9cbf3); }
  }

  lemma Order20Over11(out: Sequence)
    requires Obeys(out, 20, 17)
    ensures Ahead(out, 95325, 0x4675f)
  {
    hide Obeys, Ahead, Lifts;
    Lifts20();
    FirstPower(out);
    assert Ahead(out, 23, 0x20009) by { Steps(out, 20, 17, 20, 3, 4, 14, 1, 0x2); }
    assert Ahead(out, 372, 0x53e37) by { Steps(out, 20, 17, 20, 3, 4, 2, 23, 0x20009); }
    assert Ahead(out, 5957, 0x736c2) by { Steps(out, 20, 17, 20, 3, 4, 10, 372, 0x53e37); }
    assert Ahead(out, 95325, 0x4675f) by { Steps(out, 20, 17, 20, 3, 4, 11, 5957, 0x736c2); }
  }

  lemma Order20Over31(out: Sequence)
    requires Obeys(out, 20, 17)
    ensures Ahead(out, 33825, 0xb646b)
  {
    hide Obeys, Ahead, Lifts;
    Lifts20();
    FirstPower(out);
    assert Ahead(out, 16, 0x10000) by { Steps(out, 20, 17, 20, 3, 4, 0, 1, 0x2); }
    assert Ahead(out, 264, 0x7aa96) by { Steps(out, 20, 17, 20, 3, 4, 1, 16, 0x10000); }
    assert Ahead(out, 4228, 0xbd9b5) by { Steps(out, 20, 17, 20, 3, 4, 2, 264, 0x7aa96); }
    assert Ahead(out, 33825, 0xb646b) by { Steps(out, 20, 17, 20, 3, 3, 4, 4228, 0xbd9b5); }
  }

  lemma Order20Over41(out: Sequence)
    requires Obeys(out, 20, 17)
    ensures Ahead(out, 25575, 0x3e1a5)
  {
    hide Obeys, Ahead, Lifts;
    Lifts20();
    FirstPower(out);
    assert Ahead(out, 24, 0x40012) by { Steps(out, 20, 17, 20, 3, 4, 1, 1, 0x2); }
    assert Ahead(out, 399, 0xfe744) by { Steps(out, 20, 17, 20, 3, 4, 15, 24, 0x40012); }
    assert Ahead(out, 6393, 0x9dc1e) by { Steps(out, 20, 17, 20, 3, 4, 9, 399, 0xfe744); }
    assert Ahead(out, 25575, 0x3e1a5) by { Steps(out, 20, 17, 20, 3, 2, 3, 6393, 0x9dc1e); }
  }

  lemma Order23(out: Sequence)
    requires Obeys(out, 23, 5)
    ensures Ahead(out, 8388607, 0x1)
  {
    hide Obeys, Ahead, Lifts;
    Lifts23();
    FirstPower(out);
    assert Ahead(out, 31, 0x2100) by { Steps(out, 23, 5, 23, 18, 4, 15, 1, 0x2); }
    assert Ahead(out, 511, 0x331420) by { Steps(out, 23, 5, 23, 18, 4, 15, 31, 0x2100); }
    assert Ahead(out, 8191, 0x35eec0) by { Steps(out, 23, 5, 23, 18, 4, 15, 511, 0x331420); }
    assert Ahead(out, 131071, 0x4d3c5) by { Steps(out, 23, 5, 23, 18, 4, 15, 8191, 0x35eec0); }
    assert Ahead(out, 2097151, 0x1028) by { Steps(out, 23, 5, 23, 18, 4, 15, 131071, 0x4d3c5); }
    assert Ahead(out, 8388607, 0x1) by { Steps(out, 23, 5, 23, 18, 2, 3, 2097151, 0x1028); }
  }

  lemma Order23Over47(out: Sequence)
    requires Obeys(out, 23, 5)
    ensures Ahead(out, 178481, 0x7ed6fa)
  {
    hide Obeys, Ahead, Lifts;
    Lifts23();
    FirstPower(out);
    assert Ahead(out, 21, 0x200000) by { Steps(out, 23, 5, 23, 18, 4, 10, 1, 0x2); }
    assert Ahead(out, 348, 0x4614b) by { Steps(out, 23, 5, 23, 18, 4, 3, 21, 0x200000); }
    assert Ahead(out, 5577, 0x14d07d) by { Steps(out, 23, 5, 23, 18, 4, 9, 348, 0x4614b); }
    assert Ahead(out, 89240, 0x775c2f) by { Steps(out, 23, 5, 23, 18, 4, 1, 5577, 0x14d07d); }
    assert Ahead(out, 178481, 0x7ed6fa) by { Steps(out, 23, 5, 23, 18, 1, 1, 89240, 0x775c2f); }
  }

  lemma Order23Over178481(out: Sequence)
    requires Obeys(out, 23, 5)
    ensures Ahead(out, 47, 0x802)
  {
    hide Obeys, Ahead, Lifts;
    Lifts23();
    FirstPower(out);
    assert Ahead(out, 23, 0x21) by { Steps(out, 23, 5, 23, 18, 4, 14, 1, 0x2); }
    assert Ahead(out, 47, 0x802) by { Steps(out, 23, 5, 23, 18, 1, 1, 23, 0x21); }
  }
}
