/** Divisors of a product of primes. */
module Divisors {
  function Times(a: nat, b: nat): nat { a * b }

  ghost predicate Divides(d: nat, n: nat) { exists k: nat :: Times(k, d) == n }

  ghost predicate Prime(q: nat) { q >= 2 && forall d: nat :: Divides(d, q) ==> d == 1 || d == q }

  function Product(qs: seq<nat>): nat { if qs == [] then 1 else Times(qs[0], Product(qs[1..])) }

  lemma Distributes(a: nat, b: nat, c: nat)
    ensures Times(a + b, c) == Times(a, c) + Times(b, c)
    ensures Times(a, b) == Times(b, a)
    ensures Times(Times(a, b), c) == Times(a, Times(b, c))
  {
    assert (a + b) * c == a * c + b * c;
    assert (a * b) * c == a * (b * c);
  }

  lemma DividesTimes(d: nat, n: nat, c: nat)
    requires Divides(d, n)
    ensures Divides(d, Times(c, n))
  {
    var k: nat :| Times(k, d) == n;
    Distributes(c, k, d);
    hide Times;
    assert Times(Times(c, k), d) == Times(c, n);
  }

  lemma DividesSum(d: nat, a: nat, b: nat)
    requires Divides(d, a) && Divides(d, b)
    ensures Divides(d, a + b)
  {
    var k: nat :| Times(k, d) == a;
    var l: nat :| Times(l, d) == b;
    Distributes(k, l, d);
    hide Times;
    assert Times(k + l, d) == a + b;
  }

  lemma DividesDifference(d: nat, a: nat, b: nat)
    requires Divides(d, a) && Divides(d, a + b)
    ensures Divides(d, b)
  {
    var k: nat :| Times(k, d) == a;
    var l: nat :| Times(l, d) == a + b;
    if l >= k {
      Distributes(k, l - k, d);
      hide Times;
      assert Times(l - k, d) == b;
    } else {
      Distributes(l, k - l, d);
      hide Times;
      assert Times(0, d) == b;
    }
  }

  lemma DividesOnlyLarger(d: nat, n: nat)
    requires Divides(d, n) && 0 < n
    ensures 0 < d <= n
  {
    var k: nat :| Times(k, d) == n;
    assert k > 0 && d > 0;
    assert k * d >= d;
  }

  lemma DividesItself(d: nat)
    ensures Divides(d, d) && Divides(d, 0)
  {
    assert Times(1, d) == d && Times(0, d) == 0;
  }

  /** Euclid's lemma. */
  lemma {:induction false} PrimeDividesFactor(q: nat, a: nat, b: nat)
    requires Prime(q) && Divides(q, Times(a, b)) && !Divides(q, a)
    ensures Divides(q, b)
    decreases a
  {
    DividesItself(q);
    if a >= q {
      Distributes(q, a - q, b);
      DividesItself(q);
      DividesTimes(q, q, b);
      if Divides(q, a - q) { DividesSum(q, q, a - q); }
      hide Times;
      DividesDifference(q, Times(q, b), Times(a - q, b));
      PrimeDividesFactor(q, a - q, b);
    } else if a > 1 {
      var c, r := q / a, q % a;
      SmallerFactor(q, a, b, c, r);
      PrimeDividesFactor(q, r, b);
    } else {
      assert Times(1, b) == b;
    }
  }

  /** With q == c*a + r, a multiple of q among those of a is one among those of r. */
  lemma SmallerFactor(q: nat, a: nat, b: nat, c: nat, r: nat)
    requires Prime(q) && Divides(q, Times(a, b)) && 1 < a < q && q == c * a + r && r < a
    ensures Divides(q, Times(r, b)) && !Divides(q, r)
  {
    assert Times(c, a) == q ==> Divides(a, q);
    if Divides(q, r) { DividesOnlyLarger(q, r); }
    Distributes(Times(c, a), r, b);
    Distributes(c, a, b);
    Distributes(b, q, 0);
    DividesItself(q);
    assert q == Times(c, a) + r;
    hide Times;
    DividesTimes(q, q, b);
    DividesTimes(q, Times(a, b), c);
    DividesDifference(q, Times(c, Times(a, b)), Times(r, b));
  }

  /** A divisor other than 1 of a product of primes is a multiple of one of them. */
  lemma {:induction false} SomePrimeDivides(k: nat, qs: seq<nat>) returns (i: nat)
    requires (forall q :: q in qs ==> Prime(q)) && Divides(k, Product(qs)) && k != 1
    ensures i < |qs| && Divides(qs[i], k)
  {
    var t: nat :| Times(t, k) == Product(qs);
    if qs == [] {
      assert false;
    } else if Divides(qs[0], k) {
      i := 0;
    } else {
      var q, rest := qs[0], Product(qs[1..]);
      Distributes(q, rest, 0);
      Distributes(t, k, 0);
      assert Times(rest, q) == Times(k, t);
      PrimeDividesFactor(q, k, t);
      var s: nat :| Times(s, q) == t;
      Cancel(q, s, k, rest);
      assert Times(s, k) == rest;
      i := SomePrimeDivides(k, qs[1..]);
      i := i + 1;
    }
  }

  lemma Cancel(q: nat, s: nat, k: nat, rest: nat)
    requires q > 0 && Times(Times(s, q), k) == Times(q, rest)
    ensures Times(s, k) == rest
  {
    assert q * (s * k) == q * rest;
  }

  /** A proper divisor of a product of primes divides it with one of them left out. */
  lemma ProperDivisor(d: nat, qs: seq<nat>) returns (q: nat, cofactor: nat)
    requires (forall q :: q in qs ==> Prime(q)) && Divides(d, Product(qs)) && d != Product(qs)
    ensures q in qs && Times(q, cofactor) == Product(qs) && Divides(d, cofactor)
  {
    var n := Product(qs);
    var k: nat :| Times(k, d) == n;
    assert Times(1, d) == d;
    Distributes(k, d, 0);
    assert Times(d, k) == n;
    var i := SomePrimeDivides(k, qs);
    q := qs[i];
    var l: nat :| Times(l, q) == k;
    cofactor := Times(l, d);
    Distributes(l, q, d);
    Distributes(q, l, d);
    hide Times;
    assert Divides(d, cofactor);
  }

  // ---- trial division --------------------------------------------------------------------------------

  /** None of the 10k numbers from a on is a divisor of q other than q. */
  predicate Trial(k: nat, q: nat, a: nat)
    requires a > 0
    decreases k
  {
    k == 0
    || (&& (q % a != 0 || q == a)
        && (q % (a + 1) != 0 || q == a + 1)
        && (q % (a + 2) != 0 || q == a + 2)
        && (q % (a + 3) != 0 || q == a + 3)
        && (q % (a + 4) != 0 || q == a + 4)
        && (q % (a + 5) != 0 || q == a + 5)
        && (q % (a + 6) != 0 || q == a + 6)
        && (q % (a + 7) != 0 || q == a + 7)
        && (q % (a + 8) != 0 || q == a + 8)
        && (q % (a + 9) != 0 || q == a + 9)
        && Trial(k - 1, q, a + 10))
  }

  ghost predicate Untouched(q: nat, a: nat, b: nat) { forall d: nat :: a <= d < b && Divides(d, q) ==> d == q }

  lemma Quotients(k: nat, c: nat, d: nat, r: nat)
    requires Times(k, d) == Times(c, d) + r && r < d
    ensures r == 0
  {
    if k > c {
      Distributes(k - c, c, d);
      LargerTimes(1, k - c, d, d);
    } else {
      Distributes(c - k, k, d);
    }
  }

  lemma LargerTimes(a: nat, b: nat, c: nat, d: nat)
    requires a <= b && c <= d
    ensures Times(a, c) <= Times(b, d)
  {
    assert a * c <= b * c;
    assert b * c <= b * d;
  }

  lemma Multiple(d: nat, n: nat) returns (k: nat)
    requires Divides(d, n)
    ensures Times(k, d) == n
  {
    k :| Times(k, d) == n;
  }

  lemma DividesIffMod(d: nat, n: nat)
    requires d > 0
    ensures Divides(d, n) <==> n % d == 0
  {
    if Divides(d, n) { DividesMod(d, n); }
    assert Times(n / d, d) + n % d == n;
  }

  lemma DividesMod(d: nat, q: nat)
    requires Divides(d, q) && d > 0
    ensures q % d == 0
  {
    var k: nat :| Times(k, d) == q;
    assert Times(q / d, d) + q % d == q;
    hide Times;
    Quotients(k, q / d, d, q % d);
  }

  lemma {:induction false} TrialMeans(k: nat, q: nat, a: nat)
    requires a > 0 && Trial(k, q, a)
    ensures Untouched(q, a, a + 10 * k)
    decreases k
  {
    if k > 0 {
      TrialMeans(k - 1, q, a + 10);
      forall d: nat | a <= d < a + 10 * k && Divides(d, q) ensures d == q {
        DividesMod(d, q);
      }
    }
  }

  lemma OnlyOne(k: nat, d: nat)
    requires Times(k, d) == k && k > 0
    ensures d == 1
  {
    if d > 1 { LargerTimes(k, k, 2, d); }
  }

  /** A number without divisors up to its root is prime. */
  lemma TrialPrime(q: nat, b: nat)
    requires 2 <= q < Times(b, b) && Untouched(q, 2, b)
    ensures Prime(q)
  {
    forall d: nat | Divides(d, q) ensures d == 1 || d == q {
      DividesOnlyLarger(d, q);
      var k: nat :| Times(k, d) == q;
      Distributes(d, k, 0);
      assert Times(d, k) == q;
      assert Divides(k, q);
      DividesOnlyLarger(k, q);
      if d >= b && k >= b { LargerTimes(b, k, b, d); }
      if k == q { OnlyOne(k, d); }
      hide Times;
    }
  }

  lemma TrialOf(q: nat)
    requires 2 <= q < 144 && Trial(1, q, 2)
    ensures Prime(q)
  {
    TrialMeans(1, q, 2);
    TrialPrime(q, 12);
  }
}
