/** gr_autopilot/link/interference_sim.py: sharing a payload among the dwells of a hopped link. */
module HopAllocation {
  import opened Basics
  import opened Trellis
  import opened ConvCode
  import Coding
  import Link = CodedLink
  import Prbs
  import SoftLink
  import Backend = HoppingBackend

  function Sum(a: seq<int>): int { if a == [] then 0 else Sum(a[..|a| - 1]) + a[|a| - 1] }

  /** The rounded share of one weight. */
  function ShareOf(w: real, n: nat): int { RoundHalfEven(Product(w, n as real)) }

  function Rounded(weights: seq<real>, n: nat): (a: seq<int>)
    ensures |a| == |weights|
  {
    seq(|weights|, i requires 0 <= i < |weights| => ShareOf(weights[i], n))
  }

  /** The first of the largest weights. */
  function ArgMax(weights: seq<real>, n: nat): (m: nat)
    requires 0 < n <= |weights|
    ensures m < n && forall i :: 0 <= i < n ==> weights[i] <= weights[m]
    ensures forall i :: 0 <= i < m ==> weights[i] < weights[m]
  {
    if n == 1 then 0 else
      var m := ArgMax(weights, n - 1);
      if weights[m] < weights[n - 1] then n - 1 else m
  }

  lemma {:induction false} SumUpdate(a: seq<int>, k: nat, x: int)
    requires k < |a|
    ensures Sum(a[k := x]) == Sum(a) - a[k] + x
  {
    var n := |a| - 1;
    if k < n {
      assert a[k := x][..n] == a[..n][k := x];
      SumUpdate(a[..n], k, x);
    } else {
      assert a[k := x][..n] == a[..n];
    }
  }

  /** Each dwell gets its rounded share; what rounding left over goes to the largest dwell. */
  function Allocation(weights: seq<real>, n: nat): (alloc: seq<int>)
    requires weights != []
    ensures |alloc| == |weights|
  {
    var a, m := Rounded(weights, n), ArgMax(weights, |weights|);
    a[m := a[m] + (n - Sum(a))]
  }

  method Allocate(weights: seq<real>, n: nat) returns (alloc: seq<int>)
    requires weights != []
    ensures alloc == Allocation(weights, n) && Sum(alloc) == n
  {
    hide Rounded, ArgMax;
    alloc := Rounded(weights, n);
    var m := ArgMax(weights, |weights|);
    SumUpdate(alloc, m, alloc[m] + (n - Sum(alloc)));
    alloc := alloc[m := alloc[m] + (n - Sum(alloc))];
  }

  lemma AllocationIsComplete(weights: seq<real>, n: nat)
    requires weights != []
    ensures Sum(Allocation(weights, n)) == n
  {
    hide Rounded, ArgMax;
    var a, m := Rounded(weights, n), ArgMax(weights, |weights|);
    SumUpdate(a, m, a[m] + (n - Sum(a)));
  }

  // ---- a fixed jammer: k equal dwells ------------------------------------------------------

  /** The share of every dwell but the first, which takes what is left. */
  function Share(n: nat, k: nat): int
    requires k >= 1
  {
    ShareOf(1.0 / k as real, n)
  }

  function First(n: nat, k: nat): int
    requires k >= 1
  {
    n - (k - 1) * Share(n, k)
  }

  function Equal(n: nat, k: nat): (a: seq<int>)
    requires k >= 1
    ensures |a| == k
  {
    seq(k, i => if i == 0 then First(n, k) else Share(n, k))
  }

  lemma {:induction false} SumOfShares(a: seq<int>, x: int)
    requires forall i :: 0 < i < |a| ==> a[i] == x
    ensures a != [] ==> Sum(a) == a[0] + (|a| - 1) * x
  {
    if |a| > 1 {
      SumOfShares(a[..|a| - 1], x);
      assert (|a| - 2) * x + x == (|a| - 1) * x;
    }
  }

  function EqualWeights(k: nat): (w: seq<real>)
    requires k >= 1
    ensures |w| == k
  {
    seq(k, i => 1.0 / k as real)
  }

  lemma {:induction false} EqualArgMax(k: nat, n: nat)
    requires 0 < n <= k
    ensures ArgMax(EqualWeights(k), n) == 0
  {
    if n > 1 { EqualArgMax(k, n - 1); }
  }

  lemma FractionOf(n: nat, k: nat)
    requires k >= 1
    ensures Product(Product(1.0 / k as real, n as real), k as real) == n as real
  {
    var w, kr, nr := 1.0 / k as real, k as real, n as real;
    assert w * kr == 1.0;
    assert (w * nr) * kr == (w * kr) * nr by { Swap(w, nr, kr); }
  }

  lemma Swap(a: real, b: real, c: real)
    ensures (a * b) * c == (a * c) * b
  {
  }

  /** What the allocation of k equal weights is: the first dwell absorbs all the rounding. */
  lemma EqualAllocation(n: nat, k: nat)
    requires k >= 1
    ensures Allocation(EqualWeights(k), n) == Equal(n, k)
  {
    hide Allocation, EqualWeights, Share, ShareOf;
    var a := Allocation(EqualWeights(k), n);
    AllocationIsComplete(EqualWeights(k), n);
    forall i | 0 < i < k ensures a[i] == Share(n, k) {
      EqualArgMax(k, k);
      AllocatedElsewhere(EqualWeights(k), n, i);
      EqualShare(n, k, i);
    }
    SumOfShares(a, Share(n, k));
    assert a[0] == First(n, k);
    assert forall i :: 0 <= i < k ==> a[i] == Equal(n, k)[i];
  }

  lemma AllocatedElsewhere(weights: seq<real>, n: nat, i: nat)
    requires i < |weights| && i != ArgMax(weights, |weights|)
    ensures Allocation(weights, n)[i] == ShareOf(weights[i], n)
  {
    hide ShareOf, ArgMax;
  }

  lemma EqualShare(n: nat, k: nat, i: nat)
    requires i < k
    ensures ShareOf(EqualWeights(k)[i], n) == Share(n, k)
  {
    hide ShareOf;
  }

  lemma ShareBounds(n: nat, k: nat)
    requires k >= 1
    ensures 2 * (k * Share(n, k)) <= 2 * n + k
  {
    var x, s := Product(1.0 / k as real, n as real), Share(n, k);
    FractionOf(n, k);
    assert s as real <= x + 0.5;
    hide Product, Share;
    Conclude(n, k, x, s);
  }

  lemma Conclude(n: nat, k: nat, x: real, s: int)
    requires k >= 1 && Product(x, k as real) == n as real && s as real <= x + 0.5
    ensures 2 * (k * s) <= 2 * n + k
  {
    hide Product;
    TimesBound(x, s, k as real);
    RealTimes(k, s);
    ToIntegers(k * s, Product(k as real, s as real), Product(x, k as real), n, k);
  }

  lemma ToIntegers(ks: int, r: real, y: real, n: nat, k: nat)
    requires ks as real == r && y == n as real && 2.0 * r <= 2.0 * y + k as real
    ensures 2 * ks <= 2 * n + k
  {
  }

  lemma RealTimes(k: nat, s: int)
    ensures (k * s) as real == Product(k as real, s as real)
  {
  }

  lemma TimesBound(x: real, s: int, k: real)
    requires k >= 1.0 && s as real <= x + 0.5
    ensures 2.0 * Product(k, s as real) <= 2.0 * Product(x, k) + k
  {
    Ordered(k, s as real, x + 0.5);
    assert k * (x + 0.5) == x * k + 0.5 * k;
  }

  lemma Ordered(k: real, x: real, y: real)
    requires k >= 0.0 && x <= y
    ensures k * x <= k * y
  {
    assert k * (y - x) >= 0.0;
  }

  lemma Monotone(a: nat, x: int, y: int)
    requires x <= y
    ensures a * x <= a * y
  {
    assert a * (y - x) >= 0;
  }

  lemma CancelLeft(k: nat, x: int, y: int)
    requires k >= 1 && k * x <= k * y
    ensures x <= y
  {
    assert k * (y + 1) == k * y + k;
    if x > y { Monotone(k, y + 1, x); }
  }

  /** Enough bits for every dwell: at least half of k squared less k. */
  lemma EnoughForAll(n: nat, k: nat)
    requires k >= 1 && 2 * n >= k * (k - 1)
    ensures First(n, k) >= 0
  {
    ShareBounds(n, k);
    hide Share;
    var s := Share(n, k);
    var t, ks := (k - 1) * s, k * s;
    Monotone(k - 1, 2 * ks, 2 * n + k);
    assert (k - 1) * (2 * ks) == 2 * (k * t) by { Reorder(k, s); }
    assert (k - 1) * (2 * n + k) == 2 * (k * n) - 2 * n + k * (k - 1) by { Spread(k, n); }
    CancelLeft(k, t, n);
  }

  lemma Reorder(k: int, s: int)
    ensures (k - 1) * (2 * (k * s)) == 2 * (k * ((k - 1) * s))
  {
  }

  lemma Spread(k: int, n: int)
    ensures (k - 1) * (2 * n + k) == 2 * (k * n) - 2 * n + k * (k - 1)
  {
  }

  // ---- grading -----------------------------------------------------------------------------

  /** Bits a dwell of nb allotted bits grades: none without an allotment; without coding the whole symbols;
      with coding the info bits that its whole symbols are given, at least two. */
  function Graded(nb: int, bps: nat, coding: Option<Rate>): nat
    requires bps >= 1
  {
    if nb <= 0 then 0
    else if coding.None? then nb / bps * bps
    else Coding.PayloadSize(coding.value, nb / bps * bps)
  }

  function GradedTotal(alloc: seq<int>, bps: nat, coding: Option<Rate>): nat
    requires bps >= 1
  {
    if alloc == [] then 0
    else GradedTotal(alloc[..|alloc| - 1], bps, coding) + Graded(alloc[|alloc| - 1], bps, coding)
  }

  /** The parameters of a trial that all dwells share, and each dwell's channel. */
  datatype Setup = Setup(table: Link.Table, coding: Option<string>, soft: bool, order: Prbs.Taps, seed: int,
                         channels: nat -> Link.Channel)
  {
    ghost predicate Valid() { table.Valid() && Prbs.Supported(order) }

    /** The coding, if any, is one that the link knows. */
    predicate Known() { coding.Some? ==> Coding.RateOf(coding.value).Ok? }

    function Rate(): Option<Rate> {
      if coding.None? then None else match Coding.RateOf(coding.value) case Ok(r) => Some(r) case _ => None
    }
  }

  /** The trial of dwell i on its own channel; the seed moves on with the dwell. */
  function Dwell(x: Setup, nb: nat, i: nat): (g: Coding.Result<Link.Graded>)
    requires x.Valid()
    ensures g.Ok? <==> x.Known()
  {
    Link.RunLink(x.table, x.coding, x.soft, nb, x.order, x.seed + i, x.channels(i))
  }

  /** What a dwell is graded on has the length the books give it. */
  lemma GradedIsTheTrial(x: Setup, nb: nat, i: nat)
    requires x.Valid() && x.Known() && nb > 0
    ensures |Dwell(x, nb, i).value.txBits| == Graded(nb, x.table.bps, x.Rate())
  {
    hide Prbs.Payload, Coding.PayloadSize, Coding.RateOf;
  }

  /** The transmitted and received bits of the first n dwells that carry any. */
  function Hopped(x: Setup, alloc: seq<int>, n: nat): (seq<Bit>, seq<Bit>)
    requires x.Valid() && x.Known() && n <= |alloc|
  {
    if n == 0 then ([], [])
    else
      var before := Hopped(x, alloc, n - 1);
      if alloc[n - 1] <= 0 then before
      else
        var r := Dwell(x, alloc[n - 1], n - 1).value;
        (before.0 + r.txBits, before.1 + r.rxBits)
  }

  /** The dwell loop: a dwell without bits is skipped, the others are graded and concatenated. An unknown coding
      and nothing at all to concatenate are errors. */
  method RunHopped(x: Setup, weights: seq<real>, nPayloadBits: nat) returns (ok: bool, tx: seq<Bit>, rx: seq<Bit>)
    requires x.Valid() && weights != []
    ensures ok <==> nPayloadBits > 0 && x.Known()
    ensures ok ==> (tx, rx) == Hopped(x, Allocation(weights, nPayloadBits), |weights|)
  {
    hide Allocation, Dwell;
    var alloc := Allocate(weights, nPayloadBits);
    ok, tx, rx := false, [], [];
    SomeDwellIff(weights, nPayloadBits);
    for i := 0 to |alloc|
      invariant ok <==> exists j :: 0 <= j < i && alloc[j] > 0
      invariant ok ==> x.Known()
      invariant x.Known() ==> (tx, rx) == Hopped(x, alloc, i)
    {
      if alloc[i] > 0 {
        var r := Dwell(x, alloc[i], i);
        if !r.Ok? { return false, [], []; }
        ok, tx, rx := true, tx + r.value.txBits, rx + r.value.rxBits;
      }
    }
  }

  lemma {:induction false} NoPositivePart(a: seq<int>)
    requires forall j :: 0 <= j < |a| ==> a[j] <= 0
    ensures Sum(a) <= 0
  {
    if a != [] { NoPositivePart(a[..|a| - 1]); }
  }

  lemma {:induction false} SumOfZeros(a: seq<int>)
    requires forall j :: 0 <= j < |a| ==> a[j] == 0
    ensures Sum(a) == 0
  {
    if a != [] { SumOfZeros(a[..|a| - 1]); }
  }

  lemma NoShareOfNothing(w: real)
    ensures ShareOf(w, 0) == 0
  {
    assert w * 0.0 == 0.0;
  }

  /** Some dwell carries bits exactly when there are any to share. */
  lemma SomeDwellIff(weights: seq<real>, n: nat)
    requires weights != []
    ensures (exists j :: 0 <= j < |weights| && Allocation(weights, n)[j] > 0) <==> n > 0
  {
    hide ArgMax, ShareOf, Sum;
    var a := Allocation(weights, n);
    if n > 0 {
      AllocationIsComplete(weights, n);
      if forall j :: 0 <= j < |a| ==> a[j] <= 0 { NoPositivePart(a); }
    } else {
      forall w: real ensures ShareOf(w, 0) == 0 { NoShareOfNothing(w); }
      SumOfZeros(Rounded(weights, 0));
    }
  }

  /** The hopped link is graded on exactly the bits the books count. */
  lemma {:induction false} HoppedBitsCounted(x: Setup, alloc: seq<int>, n: nat)
    requires x.Valid() && x.Known() && n <= |alloc|
    ensures |Hopped(x, alloc, n).0| == GradedTotal(alloc[..n], x.table.bps, x.Rate())
  {
    hide Graded, Dwell;
    if n > 0 {
      HoppedBitsCounted(x, alloc, n - 1);
      assert alloc[..n][..n - 1] == alloc[..n - 1];
      if alloc[n - 1] > 0 {
        GradedIsTheTrial(x, alloc[n - 1], n - 1);
      } else {
        NothingGraded(alloc[n - 1], x.table.bps, x.Rate());
      }
    }
  }

  /** Where dwell i's transmitted and received bits begin in the aggregates. */
  function Starts(x: Setup, alloc: seq<int>, i: nat): (nat, nat)
    requires x.Valid() && x.Known() && i <= |alloc|
  {
    (|Hopped(x, alloc, i).0|, |Hopped(x, alloc, i).1|)
  }

  predicate Starting(a: seq<Bit>, b: seq<Bit>) { |a| <= |b| && b[..|a|] == a }

  lemma {:induction false} HoppedGrows(x: Setup, alloc: seq<int>, m: nat, n: nat)
    requires x.Valid() && x.Known() && m <= n <= |alloc|
    ensures Starting(Hopped(x, alloc, m).0, Hopped(x, alloc, n).0)
    ensures Starting(Hopped(x, alloc, m).1, Hopped(x, alloc, n).1)
    decreases n
  {
    hide Dwell;
    if m < n { HoppedGrows(x, alloc, m, n - 1); }
  }

  lemma CutAfter(a: seq<Bit>, b: seq<Bit>, whole: seq<Bit>)
    requires Starting(a + b, whole)
    ensures |a| + |b| <= |whole| && whole[|a|..|a| + |b|] == b
  {
    assert whole[..|a| + |b|] == a + b;
  }

  /** Cutting the two aggregates at the dwells gives back the bits of every dwell's own trial: that of its allotment, on
      its own channel, with the seed moved on by its number. */
  lemma HoppedIsTheTrials(x: Setup, alloc: seq<int>, n: nat, i: nat)
    requires x.Valid() && x.Known() && i < n <= |alloc| && alloc[i] > 0
    ensures var r := Link.RunLink(x.table, x.coding, x.soft, alloc[i], x.order, x.seed + i, x.channels(i));
            var (a, b) := Starts(x, alloc, i);
            && r.Ok? && a + |r.value.txBits| <= |Hopped(x, alloc, n).0|
            && b + |r.value.rxBits| <= |Hopped(x, alloc, n).1|
            && Hopped(x, alloc, n).0[a..a + |r.value.txBits|] == r.value.txBits
            && Hopped(x, alloc, n).1[b..b + |r.value.rxBits|] == r.value.rxBits
  {
    hide Link.RunLink, Hopped, Dwell, Starting, Coding.RateOf;
    var before, r := Hopped(x, alloc, i), Dwell(x, alloc[i], i).value;
    NextHopped(x, alloc, i);
    DwellIs(x, alloc[i], i);
    HoppedGrows(x, alloc, i + 1, n);
    CutAfter(before.0, r.txBits, Hopped(x, alloc, n).0);
    CutAfter(before.1, r.rxBits, Hopped(x, alloc, n).1);
  }

  lemma NextHopped(x: Setup, alloc: seq<int>, i: nat)
    requires x.Valid() && x.Known() && i < |alloc| && alloc[i] > 0
    ensures var before, r := Hopped(x, alloc, i), Dwell(x, alloc[i], i).value;
            Hopped(x, alloc, i + 1) == (before.0 + r.txBits, before.1 + r.rxBits)
  {
    hide Dwell;
  }

  lemma DwellIs(x: Setup, nb: nat, i: nat)
    requires x.Valid()
    ensures Dwell(x, nb, i) == Link.RunLink(x.table, x.coding, x.soft, nb, x.order, x.seed + i, x.channels(i))
    ensures x.Known() ==> Dwell(x, nb, i).Ok?
  {
    hide Link.RunLink;
  }

  /** The bit errors of the first n dwells, each counted on its own. */
  function DwellErrors(x: Setup, alloc: seq<int>, n: nat): nat
    requires x.Valid() && x.Known() && n <= |alloc|
  {
    if n == 0 then 0
    else DwellErrors(x, alloc, n - 1) + (if alloc[n - 1] > 0 then OneDwellErrors(x, alloc[n - 1], n - 1) else 0)
  }

  function OneDwellErrors(x: Setup, nb: nat, i: nat): nat
    requires x.Valid() && x.Known()
  {
    DwellIsAligned(x, nb, i);
    Backend.Errors(Dwell(x, nb, i).value.txBits, Dwell(x, nb, i).value.rxBits)
  }

  lemma DwellIsAligned(x: Setup, nb: nat, i: nat)
    requires x.Valid() && x.Known()
    ensures |Dwell(x, nb, i).value.rxBits| == |Dwell(x, nb, i).value.txBits|
  {
    hide Link.RunLink, Coding.RateOf;
    SoftLink.TrialIsAligned(x.table, x.coding, x.soft, nb, x.order, x.seed + i, x.channels(i));
  }

  /** The errors of the hopped link are the errors of its dwells. */
  lemma {:induction false} HoppedErrorsAddUp(x: Setup, alloc: seq<int>, n: nat)
    requires x.Valid() && x.Known() && n <= |alloc|
    ensures |Hopped(x, alloc, n).0| == |Hopped(x, alloc, n).1|
    ensures Backend.Errors(Hopped(x, alloc, n).0, Hopped(x, alloc, n).1) == DwellErrors(x, alloc, n)
  {
    hide Dwell, Backend.Errors;
    if n == 0 {
      NoErrors();
    } else {
      HoppedErrorsAddUp(x, alloc, n - 1);
      if alloc[n - 1] > 0 {
        DwellIsAligned(x, alloc[n - 1], n - 1);
        var before, r := Hopped(x, alloc, n - 1), Dwell(x, alloc[n - 1], n - 1).value;
        Backend.ErrorsConcat(before.0, before.1, r.txBits, r.rxBits);
      }
    }
  }

  lemma NoErrors()
    ensures Backend.Errors([], []) == 0
  {
  }

  lemma NothingGraded(nb: int, bps: nat, coding: Option<Rate>)
    requires bps >= 1 && nb <= 0
    ensures Graded(nb, bps, coding) == 0
  {
  }

  /** Equal dwells: the first one's bits and k - 1 times those of the others. */
  lemma {:induction false} GradedShares(a: seq<int>, x: int, bps: nat, coding: Option<Rate>)
    requires bps >= 1 && a != [] && forall i :: 0 < i < |a| ==> a[i] == x
    ensures GradedTotal(a, bps, coding) == Graded(a[0], bps, coding) + (|a| - 1) * Graded(x, bps, coding)
  {
    hide Graded;
    var g := Graded(x, bps, coding);
    if |a| > 1 {
      GradedShares(a[..|a| - 1], x, bps, coding);
      assert (|a| - 2) * g + g == (|a| - 1) * g;
    } else {
      assert a[..0] == [];
    }
  }

  lemma EqualTotal(n: nat, k: nat, bps: nat, coding: Option<Rate>)
    requires k >= 1 && bps >= 1
    ensures GradedTotal(Allocation(EqualWeights(k), n), bps, coding)
         == Graded(First(n, k), bps, coding) + (k - 1) * Graded(Share(n, k), bps, coding)
  {
    hide Allocation, EqualWeights, Share, Graded, First;
    EqualAllocation(n, k);
    GradedShares(Equal(n, k), Share(n, k), bps, coding);
  }

  // ---- without coding ------------------------------------------------------------------------

  /** Fewer bits than a symbol are dropped from a dwell. */
  lemma DwellLoss(nb: int, bps: nat)
    requires bps >= 1 && nb >= 0
    ensures nb - (bps - 1) <= Graded(nb, bps, None) <= nb
  {
    assert nb == bps * (nb / bps) + nb % bps;
  }

  /** Without coding, hopped grading under a fixed jammer keeps the payload's bits, up to less than a symbol a
      dwell, when the first dwell is not allotted a negative share; it grades more than was asked for exactly when
      the whole symbols of the other dwells alone already do. */
  lemma DwellsConserveBits(n: nat, k: nat, bps: nat)
    requires k >= 1 && bps >= 1
    ensures var a := Allocation(EqualWeights(k), n);
            && Sum(a) == n
            && (GradedTotal(a, bps, None) > n <==> (k - 1) * Graded(Share(n, k), bps, None) > n)
            && (n >= (k - 1) * Share(n, k) ==> n - k * (bps - 1) <= GradedTotal(a, bps, None) <= n)
    ensures 2 * n >= k * (k - 1) ==> n >= (k - 1) * Share(n, k)
  {
    AllocationIsComplete(EqualWeights(k), n);
    EqualTotal(n, k, bps, None);
    ShareIsNotNegative(n, k);
    if 2 * n >= k * (k - 1) { EnoughForAll(n, k); }
    hide Share, Graded, Allocation, EqualWeights, Sum, GradedTotal;
    var f, s := First(n, k), Share(n, k);
    DwellLoss(s, bps);
    if f >= 0 { DwellLoss(f, bps); } else { NothingGraded(f, bps, None); }
    SumOfLosses(n, k, bps, f, s, Graded(f, bps, None), Graded(s, bps, None));
  }

  lemma SumOfLosses(n: nat, k: nat, bps: nat, f: int, s: int, gf: nat, gs: nat)
    requires k >= 1 && bps >= 1 && f == n - (k - 1) * s
    requires s - (bps - 1) <= gs <= s && (if f >= 0 then f - (bps - 1) <= gf <= f else gf == 0)
    ensures gf + (k - 1) * gs > n <==> (k - 1) * gs > n
    ensures f >= 0 ==> n - k * (bps - 1) <= gf + (k - 1) * gs <= n
  {
    Monotone(k - 1, gs, s);
    Monotone(k - 1, s - (bps - 1), gs);
    assert (k - 1) * (s - (bps - 1)) == (k - 1) * s - (k - 1) * (bps - 1);
    assert k * (bps - 1) == (k - 1) * (bps - 1) + (bps - 1);
  }

  lemma ShareIsNotNegative(n: nat, k: nat)
    requires k >= 1
    ensures Share(n, k) >= 0
  {
    Ordered(n as real, 0.0, 1.0 / k as real);
  }

  lemma OneBitEach()
    ensures Share(3, 5) == 1
  {
    assert Product(1.0 / 5 as real, 3 as real) == 0.6;
  }

  /** Three bits over five dwells: the first is allotted minus one and skipped, and four bits are graded. */
  lemma NegativeShareOvercounts()
    ensures Allocation(EqualWeights(5), 3) == [-1, 1, 1, 1, 1]
    ensures GradedTotal(Allocation(EqualWeights(5), 3), 1, None) == 4
  {
    EqualTotal(3, 5, 1, None);
    EqualAllocation(3, 5);
    OneBitEach();
    hide Allocation, EqualWeights, Share, GradedTotal;
    assert Equal(3, 5) == [-1, 1, 1, 1, 1];
  }

  // ---- with coding -----------------------------------------------------------------------------

  /** A coded dwell never grades less than two info bits, hence one more than a single bit asked for; from three
      bits on it always grades fewer than asked. */
  lemma CodedDwell(nb: int, bps: nat, rate: Rate)
    requires bps >= 1 && nb >= 1
    ensures var g := Graded(nb, bps, Some(rate));
            g >= 2 && (nb <= 2 ==> g == 2) && (nb >= 3 ==> g < nb)
  {
    var budget := nb / bps * bps;
    assert budget <= nb by { assert nb == bps * (nb / bps) + nb % bps; }
    CodedPayload(rate, budget);
    hide Coding.PayloadSize;
  }

  lemma CodedPayload(rate: Rate, budget: nat)
    ensures var g := Coding.PayloadSize(rate, budget);
            g >= 2 && (budget <= 2 ==> g == 2) && (g == 2 || g < budget)
  {
  }

  /** How n / k compares with h halves. */
  lemma FractionOrder(x: real, n: nat, k: nat, h: nat)
    requires k >= 1 && Product(x, k as real) == n as real
    ensures x < h as real / 2.0 <==> 2 * n < h * k
    ensures x == h as real / 2.0 <==> 2 * n == h * k
  {
    var kr, hr := k as real, h as real;
    assert (h * k) as real == hr * kr;
    assert kr * (2.0 * x - hr) == 2.0 * (x * kr) - hr * kr;
    var d := 2.0 * x - hr;
    if d < 0.0 { StrictlyOrdered(kr, d); }
    if d > 0.0 { StrictlyOrdered(kr, -d); }
  }

  lemma StrictlyOrdered(k: real, d: real)
    requires k >= 1.0 && d < 0.0
    ensures k * d < 0.0
  {
    assert (k - 1.0) * d <= 0.0;
  }

  lemma RoundedFraction(x: real, n: nat, k: nat)
    requires k >= 1 && Product(x, k as real) == n as real && x >= 0.0
    ensures RoundHalfEven(x) == 0 <==> 2 * n <= k
    ensures RoundHalfEven(x) == 1 <==> k < 2 * n < 3 * k
    ensures RoundHalfEven(x) == 2 <==> 3 * k <= 2 * n <= 5 * k
  {
    hide RoundHalfEven, Product;
    FractionOrder(x, n, k, 1);
    FractionOrder(x, n, k, 3);
    FractionOrder(x, n, k, 5);
    SmallRounds(x);
  }

  lemma FractionNotNegative(n: nat, k: nat)
    requires k >= 1
    ensures Product(1.0 / k as real, n as real) >= 0.0
  {
    Ordered(n as real, 0.0, 1.0 / k as real);
  }

  /** Where the share of k equal dwells is 0, 1, 2 or more. */
  lemma SmallShares(n: nat, k: nat)
    requires k >= 1
    ensures Share(n, k) == 0 <==> 2 * n <= k
    ensures Share(n, k) == 1 <==> k < 2 * n < 3 * k
    ensures Share(n, k) == 2 <==> 3 * k <= 2 * n <= 5 * k
  {
    hide RoundHalfEven, Product;
    FractionNotNegative(n, k);
    FractionOf(n, k);
    RoundedFraction(Product(1.0 / k as real, n as real), n, k);
  }

  lemma SmallRounds(x: real)
    requires x >= 0.0
    ensures RoundHalfEven(x) == 0 <==> x <= 0.5
    ensures RoundHalfEven(x) == 1 <==> 0.5 < x < 1.5
    ensures RoundHalfEven(x) == 2 <==> 1.5 <= x <= 2.5
  {
  }

  /** The requests that k coded dwells answer with more bits than were asked for. */
  predicate Overgraded(n: nat, k: nat) {
    n == 1 || (k >= 2 && 2 * n > k && (2 * n < 3 * k || n < 2 * k - 2 || n == 2 * k - 1))
  }

  /** With coding, at either rate and for any symbol width: the total is the first dwell's payload and k - 1 times
      that of the others, and it exceeds the request exactly for the requests above, of at most two bits a dwell. */
  lemma CodedDwellsOvergradeIff(n: nat, k: nat, bps: nat, rate: Rate)
    requires k >= 1 && bps >= 1
    ensures var total := GradedTotal(Allocation(EqualWeights(k), n), bps, Some(rate));
            && total == Graded(First(n, k), bps, Some(rate)) + (k - 1) * Graded(Share(n, k), bps, Some(rate))
            && (total > n <==> Overgraded(n, k))
  {
    EqualTotal(n, k, bps, Some(rate));
    ShareIsNotNegative(n, k);
    SmallShares(n, k);
    ShareBounds(n, k);
    hide Share, Graded, Allocation, EqualWeights, GradedTotal;
    CompareTotals(n, k, First(n, k), Share(n, k),
                  Graded(First(n, k), bps, Some(rate)), Graded(Share(n, k), bps, Some(rate)))
      by {
        var f, s := First(n, k), Share(n, k);
        if f >= 1 { CodedDwell(f, bps, rate); } else { NothingGraded(f, bps, Some(rate)); }
        if s >= 1 { CodedDwell(s, bps, rate); } else { NothingGraded(s, bps, Some(rate)); }
      }
  }

  /** Five coded bits over five dwells: every dwell is allotted one bit and graded on two. */
  lemma OneBitDwellsOvercount(bps: nat, rate: Rate)
    requires bps >= 1
    ensures Allocation(EqualWeights(5), 5) == [1, 1, 1, 1, 1]
    ensures GradedTotal(Allocation(EqualWeights(5), 5), bps, Some(rate)) == 10
  {
    SmallShares(5, 5);
    EqualAllocation(5, 5);
    CodedDwellsOvergradeIff(5, 5, bps, rate);
    CodedDwell(1, bps, rate);
    hide Allocation, EqualWeights, Share, GradedTotal, Graded;
    assert Equal(5, 5) == [1, 1, 1, 1, 1];
  }

  predicate CodedCount(nb: int, g: nat) {
    if nb <= 0 then g == 0 else g >= 2 && (nb <= 2 ==> g == 2) && (nb >= 3 ==> g < nb)
  }

  lemma CompareTotals(n: nat, k: nat, f: int, s: int, gf: nat, gs: nat)
    requires k >= 1 && s >= 0 && f == n - (k - 1) * s && 2 * (k * s) <= 2 * n + k
    requires s == 0 <==> 2 * n <= k
    requires s == 1 <==> k < 2 * n < 3 * k
    requires s == 2 <==> 3 * k <= 2 * n <= 5 * k
    requires CodedCount(f, gf) && CodedCount(s, gs)
    ensures gf + (k - 1) * gs > n <==> Overgraded(n, k)
  {
    assert k * s == (k - 1) * s + s;
    if s == 0 {
      assert (k - 1) * s == 0 && (k - 1) * gs == 0;
    } else if s <= 2 {
      assert (k - 1) * gs == 2 * (k - 1);
      assert (k - 1) * s == if s == 1 then k - 1 else 2 * (k - 1);
    } else {
      Monotone(k - 1, gs, s - 1);
      assert (k - 1) * (s - 1) == (k - 1) * s - (k - 1);
    }
  }

  predicate NoneNegative(alloc: seq<int>) { forall i :: 0 <= i < |alloc| ==> alloc[i] >= 0 }

  /** A follower's two populations, a jammed fraction and the rest, always share the payload without a
      negative part. */
  lemma FollowerSharesAreSound(f: real, n: nat)
    requires 0.0 <= f <= 1.0
    ensures NoneNegative(Allocation([f, 1.0 - f], n)) && Sum(Allocation([f, 1.0 - f], n)) == n
  {
    var w := [f, 1.0 - f];
    var a, m := Allocation(w, n), ArgMax(w, 2);
    AllocationIsComplete(w, n);
    var small := if m == 0 then 1.0 - f else f;
    assert 0.0 <= small <= 0.5;
    HalfRounds(small, n);
    assert a[1 - m] == ShareOf(small, n);
    hide Allocation, ShareOf, ArgMax;
    PairTotals(a, 1, None);
  }

  lemma HalfRounds(w: real, n: nat)
    requires 0.0 <= w <= 0.5
    ensures 0 <= ShareOf(w, n) <= n
  {
    var x := w * n as real;
    Ordered(n as real, 0.0, w);
    Ordered(n as real, w, 0.5);
    assert 0.0 <= x <= 0.5 * n as real;
    if n == 0 { assert x == 0.0; }
  }

  lemma PairTotals(a: seq<int>, bps: nat, coding: Option<Rate>)
    requires |a| == 2 && bps >= 1
    ensures Sum(a) == a[0] + a[1]
    ensures GradedTotal(a, bps, coding) == Graded(a[0], bps, coding) + Graded(a[1], bps, coding)
  {
    hide Graded;
    assert a[..1][..0] == [];
    assert Sum(a[..1]) == a[0];
    assert GradedTotal(a[..1], bps, coding) == Graded(a[0], bps, coding);
  }

  /** A coded follower's two dwells exceed the request only when one of them is a single bit and the other has at
      most two. */
  lemma FollowerOvergradesIff(f: real, n: nat, bps: nat, rate: Rate)
    requires 0.0 <= f <= 1.0 && bps >= 1
    ensures var a := Allocation([f, 1.0 - f], n);
            GradedTotal(a, bps, Some(rate)) > n <==> (a[0] == 1 && a[1] <= 2) || (a[1] == 1 && a[0] <= 2)
  {
    var a := Allocation([f, 1.0 - f], n);
    FollowerSharesAreSound(f, n);
    hide Allocation, Graded;
    PairTotals(a, bps, Some(rate));
    if a[0] >= 1 { CodedDwell(a[0], bps, rate); } else { NothingGraded(a[0], bps, Some(rate)); }
    if a[1] >= 1 { CodedDwell(a[1], bps, rate); } else { NothingGraded(a[1], bps, Some(rate)); }
  }
}
