/** Complex baseband samples with exact real parts. */
module Complex {
  import opened Basics

  datatype C = C(re: real, im: real)

  const ZERO: C := C(0.0, 0.0)
  const UNIT: C := C(1.0, 0.0)

  function Add(a: C, b: C): C { C(a.re + b.re, a.im + b.im) }
  function Sub(a: C, b: C): C { C(a.re - b.re, a.im - b.im) }
  function Mul(a: C, b: C): C { C(a.re * b.re - a.im * b.im, a.re * b.im + a.im * b.re) }
  function Conj(a: C): C { C(a.re, -a.im) }
  function Abs2(a: C): real { a.re * a.re + a.im * a.im }

  lemma MulAssociates(a: C, b: C, c: C)
    ensures Mul(Mul(a, b), c) == Mul(a, Mul(b, c))
  {
    Distribute(a.re, b.re * c.re, b.im * c.im);
    Distribute(a.im, b.re * c.im, b.im * c.re);
  }

  lemma Distribute(x: real, y: real, z: real)
    ensures x * (y + z) == x * y + x * z
    ensures x * (y - z) == x * y - x * z
  {
  }

  lemma MulCommutes(a: C, b: C)
    ensures Mul(a, b) == Mul(b, a)
  {
  }

  lemma MulOverAdd(a: C, b: C, c: C)
    ensures Mul(a, Add(b, c)) == Add(Mul(a, b), Mul(a, c))
  {
  }

  lemma ConjOfMul(a: C, b: C)
    ensures Conj(Mul(a, b)) == Mul(Conj(a), Conj(b))
  {
  }

  lemma ConjTimesSelf(a: C)
    ensures Mul(Conj(a), a) == C(Abs2(a), 0.0)
  {
  }

  lemma MulReal(a: C, x: real)
    ensures Mul(a, C(x, 0.0)) == C(a.re * x, a.im * x)
    ensures Mul(a, UNIT) == a
  {
  }

  lemma Abs2OfMul(a: C, b: C)
    ensures Abs2(Mul(a, b)) == Abs2(a) * Abs2(b)
  {
    hide Abs2, Mul;
    Abs2IsMultiplicative(a, b);
  }

  lemma Abs2IsMultiplicative(a: C, b: C)
    ensures Abs2(Mul(a, b)) == Product(Abs2(a), Abs2(b))
  {
    var p, q, r, s := a.re, a.im, b.re, b.im;
    MulParts(a, b);
    Abs2Parts(a);
    Abs2Parts(b);
    Abs2Parts(Mul(a, b));
    hide Product, Abs2, Mul;
    Reorder(p, r, q, s);
    Reorder(p, r, p, r);
    Reorder(q, s, q, s);
    Reorder(p, s, p, s);
    Reorder(q, r, q, r);
    Combine(Product(p, r), Product(q, s), Product(p, s), Product(q, r),
            Product(p, p), Product(q, q), Product(r, r), Product(s, s));
  }

  lemma MulParts(a: C, b: C)
    ensures Mul(a, b) == C(Product(a.re, b.re) - Product(a.im, b.im), Product(a.re, b.im) + Product(a.im, b.re))
  {
  }

  lemma Abs2Parts(a: C)
    ensures Abs2(a) == Product(a.re, a.re) + Product(a.im, a.im)
  {
  }

  lemma Reorder(x: real, y: real, z: real, w: real)
    ensures Product(Product(x, y), Product(z, w)) == Product(Product(x, z), Product(y, w))
         == Product(Product(x, w), Product(z, y))
  {
    Shuffle(x, y, z, w);
    Shuffle(x, z, y, w);
  }

  /** The products of the parts stand for themselves, so that only sums are left to expand. */
  lemma Combine(pr: real, qs: real, ps: real, qr: real, p2: real, q2: real, r2: real, s2: real)
    requires Product(pr, pr) == Product(p2, r2) && Product(qs, qs) == Product(q2, s2)
    requires Product(ps, ps) == Product(p2, s2) && Product(qr, qr) == Product(q2, r2)
    requires Product(pr, qs) == Product(ps, qr)
    ensures Product(pr - qs, pr - qs) + Product(ps + qr, ps + qr) == Product(p2 + q2, r2 + s2)
  {
    Expand(pr, qs);
    Expand2(ps, qr);
    Distribute(p2 + q2, r2, s2);
    Distribute(r2, p2, q2);
    Distribute(s2, p2, q2);
  }

  lemma Expand(x: real, y: real)
    ensures (x - y) * (x - y) == x * x - 2.0 * (x * y) + y * y
  {
  }

  lemma Expand2(x: real, y: real)
    ensures (x + y) * (x + y) == x * x + 2.0 * (x * y) + y * y
  {
  }

  lemma Shuffle(p: real, q: real, r: real, s: real)
    ensures (p * r) * (q * s) == (p * s) * (q * r)
  {
  }

  function Pow(u: C, n: nat): C { if n == 0 then UNIT else Mul(Pow(u, n - 1), u) }

  lemma {:induction false} PowAdds(u: C, m: nat, n: nat)
    ensures Pow(u, m + n) == Mul(Pow(u, m), Pow(u, n))
  {
    hide Mul;
    if n == 0 {
      MulReal(Pow(u, m), 1.0);
    } else {
      PowAdds(u, m, n - 1);
      MulAssociates(Pow(u, m), Pow(u, n - 1), u);
    }
  }

  lemma {:induction false} PowOnCircle(u: C, n: nat)
    requires Abs2(u) == 1.0
    ensures Abs2(Pow(u, n)) == 1.0
  {
    hide Mul, Abs2;
    if n == 0 {
      assert Abs2(UNIT) == 1.0 by { AbsOfUnit(); }
    } else {
      PowOnCircle(u, n - 1);
      Abs2OfMul(Pow(u, n - 1), u);
    }
  }

  lemma AbsOfUnit()
    ensures Abs2(UNIT) == 1.0
  {
  }
}
