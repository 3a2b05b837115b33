/** gr_autopilot/link/sync.py: pilot layout and insertion, and removal of a 90-degree slip by
    majority vote of the pilots. */
module Psam {
  import opened Basics
  import opened Complex

  // ---- layout ------------------------------------------------------------------------

  function Blocks(n: nat, spacing: nat): nat
    requires spacing >= 1
  {
    (n + spacing - 1) / spacing
  }

  function Fill<T>(x: T, n: nat): (s: seq<T>)
    ensures |s| == n && forall i :: 0 <= i < n ==> s[i] == x
  {
    seq(n, i => x)
  }

  /** A pilot before each block of at most `spacing` data symbols. */
  function Layout(n: nat, spacing: nat): (mask: seq<bool>)
    requires spacing >= 1
  {
    if n == 0 then []
    else if n <= spacing then [true] + Fill(false, n)
    else [true] + Fill(false, spacing) + Layout(n - spacing, spacing)
  }

  lemma DivStep(a: nat, d: nat)
    requires d >= 1
    ensures (a + d) / d == a / d + 1
  {
    var q, r := a / d, a % d;
    assert a == d * q + r;
    assert a + d == d * (q + 1) + r by { assert d * (q + 1) == d * q + d; }
    DivUnique(a + d, d, q + 1, r);
  }

  lemma DivUnique(a: nat, d: nat, q: nat, r: nat)
    requires d >= 1 && a == d * q + r && r < d
    ensures a / d == q && a % d == r
  {
    var q', r' := a / d, a % d;
    assert a == d * q' + r';
    assert d * (q' - q) == r - r' by { assert d * (q' - q) == d * q' - d * q; }
    if q' > q { Grows(d, q' - q); } else if q' < q { Grows(d, q - q'); }
  }

  lemma Grows(d: int, k: int)
    requires d >= 0 && k >= 1
    ensures d * k >= d && d * (-k) <= -d
  {
  }

  lemma {:induction false} LayoutLength(n: nat, spacing: nat)
    requires spacing >= 1
    ensures |Layout(n, spacing)| == n + Blocks(n, spacing)
  {
    if n == 0 {
      DivUnique(spacing - 1, spacing, 0, spacing - 1);
    } else if n <= spacing {
      DivUnique(n + spacing - 1, spacing, 1, n - 1);
    } else {
      LayoutLength(n - spacing, spacing);
      DivStep(n - 1, spacing);
    }
  }

  /** Pilots sit exactly at the multiples of spacing + 1. */
  lemma {:induction false} PilotsAtMultiples(n: nat, spacing: nat, p: nat)
    requires spacing >= 1 && p < |Layout(n, spacing)|
    ensures Layout(n, spacing)[p] <==> p % (spacing + 1) == 0
  {
    if p < spacing + 1 {
      DivUnique(p, spacing + 1, 0, p);
    } else {
      PilotsAtMultiples(n - spacing, spacing, p - spacing - 1);
      var q := p - (spacing + 1);
      ModStep(q, spacing + 1);
    }
  }

  lemma ModStep(a: nat, d: nat)
    requires d >= 1
    ensures (a + d) % d == a % d
  {
    var q, r := a / d, a % d;
    assert d * (q + 1) == d * q + d;
    DivUnique(a + d, d, q + 1, r);
  }

  datatype LayoutResult = Ok(total: nat, isPilot: seq<bool>) | BadSpacing

  method PsamLayout(nData: nat, spacing: int) returns (r: LayoutResult)
    ensures spacing < 1 ==> r == BadSpacing
    ensures spacing >= 1 ==> r == Ok(nData + Blocks(nData, spacing), Layout(nData, spacing))
  {
    hide Layout, Blocks, Fill;
    if spacing < 1 { return BadSpacing; }
    var nBlocks := Blocks(nData, spacing);
    var total := nData + nBlocks;
    var isPilot := new bool[total](i => false);
    var pos: nat, remaining: nat := 0, nData;
    LayoutLength(nData, spacing);
    for b := 0 to nBlocks
      invariant remaining <= nData && nBlocks - b == Blocks(remaining, spacing)
      invariant pos + |Layout(remaining, spacing)| == total
      invariant isPilot[..pos] + Layout(remaining, spacing) == Layout(nData, spacing)
      invariant forall k :: pos <= k < total ==> !isPilot[k]
    {
      ghost var before := isPilot[..];
      BlockTaken(remaining, spacing);
      var take := if spacing < remaining then spacing else remaining;
      isPilot[pos] := true;
      NextBlock(before, isPilot[..], pos, remaining, spacing);
      assert isPilot[..][..pos + 1 + take] == isPilot[..pos + 1 + take];
      pos := pos + 1 + take;
      remaining := remaining - take;
    }
    NoBlocksLeft(remaining, spacing);
    assert isPilot[..total] == isPilot[..];
    return Ok(total, isPilot[..]);
  }

  lemma BlockWritten(before: seq<bool>, after: seq<bool>, pos: nat, take: nat)
    requires pos + 1 + take <= |before|
    requires after == before[pos := true] && forall k :: pos <= k < |before| ==> !before[k]
    ensures after[..pos + 1 + take] == before[..pos] + ([true] + Fill(false, take))
  {
  }

  /** One pass of the block loop, over what it has written so far. */
  lemma NextBlock(before: seq<bool>, after: seq<bool>, pos: nat, n: nat, spacing: nat)
    requires spacing >= 1 && Blocks(n, spacing) >= 1 && pos + |Layout(n, spacing)| == |before|
    requires pos < |before| ==> after == before[pos := true]
    requires forall k :: pos <= k < |before| ==> !before[k]
    ensures var take := if spacing < n then spacing else n;
            n >= 1 && pos + 1 + take + |Layout(n - take, spacing)| == |after| == |before|
            && after[..pos + 1 + take] + Layout(n - take, spacing) == before[..pos] + Layout(n, spacing)
            && Blocks(n - take, spacing) == Blocks(n, spacing) - 1
            && forall k :: pos + 1 + take <= k < |after| ==> !after[k]
  {
    hide Layout, Blocks, Fill;
    BlockTaken(n, spacing);
    var take := if spacing < n then spacing else n;
    Assembled(before[..pos], [true] + Fill(false, take), Layout(n - take, spacing));
    BlockWritten(before, after, pos, take);
  }

  lemma Assembled<T>(a: seq<T>, b: seq<T>, c: seq<T>)
    ensures a + (b + c) == (a + b) + c
  {
  }

  lemma BlockTaken(n: nat, spacing: nat)
    requires spacing >= 1 && Blocks(n, spacing) >= 1
    ensures var take := if spacing < n then spacing else n;
            n >= 1 && Layout(n, spacing) == [true] + Fill(false, take) + Layout(n - take, spacing)
            && Blocks(n - take, spacing) == Blocks(n, spacing) - 1
            && |Layout(n, spacing)| == 1 + take + |Layout(n - take, spacing)|
  {
    if n == 0 {
      DivUnique(spacing - 1, spacing, 0, spacing - 1);
    } else if n <= spacing {
      DivUnique(n + spacing - 1, spacing, 1, n - 1);
      DivUnique(spacing - 1, spacing, 0, spacing - 1);
    } else {
      DivStep(n - 1, spacing);
    }
  }

  lemma NoBlocksLeft(n: nat, spacing: nat)
    requires spacing >= 1 && Blocks(n, spacing) == 0
    ensures n == 0 && Layout(n, spacing) == []
  {
  }

  // ---- insertion and extraction --------------------------------------------------------

  /** x[~mask]: the entries where the mask is false, in order. */
  function Data<T>(x: seq<T>, mask: seq<bool>): seq<T>
    requires |x| <= |mask|
  {
    if x == [] then []
    else Data(x[..|x| - 1], mask) + (if mask[|x| - 1] then [] else [x[|x| - 1]])
  }

  function Gaps(mask: seq<bool>, n: nat): nat
    requires n <= |mask|
  {
    if n == 0 then 0 else Gaps(mask, n - 1) + (if mask[n - 1] then 0 else 1)
  }

  lemma {:induction false} GapsAppend(a: seq<bool>, b: seq<bool>, n: nat)
    requires n <= |b|
    ensures Gaps(a + b, |a| + n) == Gaps(a, |a|) + Gaps(b, n)
  {
    if n > 0 { GapsAppend(a, b, n - 1); } else { GapsPrefix(a, b, |a|); }
  }

  lemma {:induction false} GapsPrefix(a: seq<bool>, b: seq<bool>, n: nat)
    requires n <= |a|
    ensures Gaps(a + b, n) == Gaps(a, n)
  {
    if n > 0 { GapsPrefix(a, b, n - 1); }
  }

  lemma {:induction false} GapsOfFill(n: nat, m: nat)
    requires n <= m
    ensures Gaps(Fill(false, m), n) == n
  {
    if n > 0 { GapsOfFill(n - 1, m); }
  }

  lemma GapsOfBlock(take: nat)
    ensures Gaps([true] + Fill(false, take), 1 + take) == take
  {
    GapsAppend([true], Fill(false, take), take);
    GapsOfFill(take, take);
    assert Gaps([true], 1) == 0;
  }

  lemma LayoutOf(n: nat, spacing: nat)
    requires spacing >= 1
    ensures n == 0 ==> Layout(n, spacing) == []
    ensures 0 < n <= spacing ==> Layout(n, spacing) == [true] + Fill(false, n)
    ensures n > spacing ==> Layout(n, spacing) == [true] + Fill(false, spacing) + Layout(n - spacing, spacing)
    ensures |[true] + Fill(false, n)| == 1 + n && |[true] + Fill(false, spacing)| == 1 + spacing
  {
  }

  lemma NoGaps()
    ensures Gaps([], 0) == 0
  {
  }

  /** The layout leaves room for exactly the data. */
  lemma {:induction false} LayoutGaps(n: nat, spacing: nat)
    requires spacing >= 1
    ensures Gaps(Layout(n, spacing), |Layout(n, spacing)|) == n
  {
    hide Layout, Gaps, Fill;
    LayoutOf(n, spacing);
    if n == 0 {
      NoGaps();
    } else if n <= spacing {
      GapsOfBlock(n);
    } else {
      GapsOfBlock(spacing);
      LayoutGaps(n - spacing, spacing);
      GapsAppend([true] + Fill(false, spacing), Layout(n - spacing, spacing), |Layout(n - spacing, spacing)|);
    }
  }

  /** frame[mask] = pilot; frame[~mask] = data. */
  function Framed(data: seq<C>, mask: seq<bool>, pilot: C, n: nat): (frame: seq<C>)
    requires n <= |mask| && Gaps(mask, n) <= |data|
    ensures |frame| == n
  {
    if n == 0 then []
    else Framed(data, mask, pilot, n - 1) + [FrameEntry(data, mask, pilot, n)]
  }

  /** What stands at place n - 1. */
  function FrameEntry(data: seq<C>, mask: seq<bool>, pilot: C, n: nat): C
    requires 0 < n <= |mask| && Gaps(mask, n) <= |data|
  {
    if mask[n - 1] then pilot else data[Gaps(mask, n - 1)]
  }

  /** The frame of the data: laid out for its own length, nothing left over. */
  function Frame(data: seq<C>, spacing: nat, pilot: C): (frame: seq<C>)
    requires spacing >= 1
    ensures |frame| == |Layout(|data|, spacing)|
  {
    LayoutGaps(|data|, spacing);
    Framed(data, Layout(|data|, spacing), pilot, |Layout(|data|, spacing)|)
  }

  lemma FrameIsFramed(data: seq<C>, spacing: nat, pilot: C)
    requires spacing >= 1
    ensures var mask := Layout(|data|, spacing);
            Gaps(mask, |mask|) == |data| && Frame(data, spacing, pilot) == Framed(data, mask, pilot, |mask|)
  {
    hide Layout, Gaps;
    LayoutGaps(|data|, spacing);
  }

  method PsamInsert(data: seq<C>, spacing: int, pilot: C) returns (ok: bool, frame: seq<C>, isPilot: seq<bool>)
    ensures ok <==> spacing >= 1
    ensures ok ==> isPilot == Layout(|data|, spacing) && frame == Frame(data, spacing, pilot)
  {
    hide Layout, Blocks, Frame;
    var r := PsamLayout(|data|, spacing);
    if r.BadSpacing? { return false, [], []; }
    isPilot := r.isPilot;
    LayoutLength(|data|, spacing);
    LayoutGaps(|data|, spacing);
    FrameIsFramed(data, spacing, pilot);
    var a := new C[r.total](i => ZERO);
    var j := 0;
    for p := 0 to r.total
      invariant j == Gaps(isPilot, p) <= |data|
      invariant a[..p] == Framed(data, isPilot, pilot, p)
    {
      GapsGrow(isPilot, p + 1, r.total);
      ghost var done := a[..p];
      if isPilot[p] {
        a[p] := pilot;
      } else {
        a[p] := data[j];
        j := j + 1;
      }
      assert a[..p + 1] == done + [a[p]];
    }
    assert a[..] == a[..r.total];
    return true, a[..], isPilot;
  }

  lemma {:induction false} GapsGrow(mask: seq<bool>, m: nat, n: nat)
    requires m <= n <= |mask|
    ensures Gaps(mask, m) <= Gaps(mask, n)
  {
    if m < n { GapsGrow(mask, m, n - 1); }
  }

  /** Reading the frame back through the mask returns the data it carries. */
  lemma {:induction false} DataOfFramed(data: seq<C>, mask: seq<bool>, pilot: C, n: nat)
    requires n <= |mask| && Gaps(mask, n) <= |data|
    ensures Data(Framed(data, mask, pilot, n), mask) == data[..Gaps(mask, n)]
  {
    if n > 0 {
      DataOfFramed(data, mask, pilot, n - 1);
      DataOfOneMore(Framed(data, mask, pilot, n - 1), mask, FrameEntry(data, mask, pilot, n));
      SliceGrows(data, Gaps(mask, n - 1));
    }
  }

  lemma DataOfOneMore<T>(x: seq<T>, mask: seq<bool>, e: T)
    requires |x| < |mask|
    ensures Data(x + [e], mask) == Data(x, mask) + (if mask[|x|] then [] else [e])
  {
    assert (x + [e])[..|x|] == x;
  }

  lemma SliceGrows<T>(x: seq<T>, g: nat)
    ensures g < |x| ==> x[..g + 1] == x[..g] + [x[g]]
  {
  }

  // ---- quarter turns -------------------------------------------------------------------

  type Turn = k: int | 0 <= k < 4

  /** z times i^k. */
  function Rotate(k: Turn, z: C): C {
    match k
    case 0 => z
    case 1 => C(-z.im, z.re)
    case 2 => C(-z.re, -z.im)
    case _ => C(z.im, -z.re)
  }

  /** z times e^{-i k pi/2}. */
  function RotateBack(k: Turn, z: C): C {
    match k
    case 0 => z
    case 1 => C(z.im, -z.re)
    case 2 => C(-z.re, -z.im)
    case _ => C(-z.im, z.re)
  }

  /** round(angle(z) / 90 degrees) mod 4, with the ties at odd multiples of 45 degrees rounded to even. */
  function Quarter(z: C): Turn {
    if z.re >= Abs(z.im) then 0
    else if -z.re >= Abs(z.im) then 2
    else if z.im > 0.0 then 1
    else 3
  }

  function Vote(y: C, pilot: C): Turn { Quarter(Mul(y, Conj(pilot))) }

  /** Pilots among the first n entries that read rotation k. */
  function Votes(x: seq<C>, mask: seq<bool>, pilot: C, k: Turn, n: nat): nat
    requires n <= |x| && n <= |mask|
  {
    if n == 0 then 0
    else Votes(x, mask, pilot, k, n - 1) + (if mask[n - 1] && Vote(x[n - 1], pilot) == k then 1 else 0)
  }

  /** The first of the largest bins. */
  function ArgMax(v0: nat, v1: nat, v2: nat, v3: nat): Turn {
    var b1: Turn := if v1 > v0 then 1 else 0;
    var m1 := if v1 > v0 then v1 else v0;
    var b2: Turn := if v2 > m1 then 2 else b1;
    var m2 := if v2 > m1 then v2 else m1;
    if v3 > m2 then 3 else b2
  }

  function Winner(x: seq<C>, mask: seq<bool>, pilot: C): Turn
    requires |x| <= |mask|
  {
    ArgMax(Votes(x, mask, pilot, 0, |x|), Votes(x, mask, pilot, 1, |x|),
           Votes(x, mask, pilot, 2, |x|), Votes(x, mask, pilot, 3, |x|))
  }

  function Turned(k: Turn, x: seq<C>): (y: seq<C>)
    ensures |y| == |x|
  {
    seq(|x|, i requires 0 <= i < |x| => RotateBack(k, x[i]))
  }

  predicate AnyPilot(mask: seq<bool>, n: nat)
    requires n <= |mask|
  {
    exists i :: 0 <= i < n && mask[i]
  }

  /** The mask is cut to the samples present; without a pilot the data is returned as it is. */
  function SlipCorrect(x: seq<C>, mask: seq<bool>, pilot: C): seq<C>
    requires |x| <= |mask|
  {
    if !AnyPilot(mask, |x|) then Data(x, mask)
    else Data(Turned(Winner(x, mask, pilot), x), mask)
  }

  // ---- the vote --------------------------------------------------------------------------

  /** Received within 45 degrees of the pilot's own phase. */
  predicate Intact(y: C, pilot: C) {
    var z := Mul(y, Conj(pilot));
    z.re > Abs(z.im)
  }

  lemma QuarterOfRotated(q: Turn, z: C)
    requires z.re > Abs(z.im)
    ensures Quarter(Rotate(q, z)) == q
  {
  }

  lemma RotateMul(q: Turn, y: C, c: C)
    ensures Mul(Rotate(q, y), c) == Rotate(q, Mul(y, c))
  {
  }

  /** An intact pilot turned by q quarter turns votes q. */
  lemma IntactVotesTheTurn(q: Turn, y: C, pilot: C)
    requires Intact(y, pilot)
    ensures Vote(Rotate(q, y), pilot) == q
  {
    RotateMul(q, y, Conj(pilot));
    hide Mul, Rotate;
    QuarterOfRotated(q, Mul(y, Conj(pilot)));
  }

  lemma ExactPilotIsIntact(pilot: C)
    requires Abs2(pilot) > 0.0
    ensures Intact(pilot, pilot)
  {
    MulCommutes(pilot, Conj(pilot));
    ConjTimesSelf(pilot);
    hide Mul, Conj, Abs2;
  }

  lemma RotateBackInverts(q: Turn, z: C)
    ensures RotateBack(q, Rotate(q, z)) == z
  {
  }

  /** A different turn back moves every sample but zero. */
  lemma WrongTurnMoves(q: Turn, k: Turn, z: C)
    requires z != ZERO && RotateBack(k, Rotate(q, z)) == z
    ensures k == q
  {
  }

  /** The received frame: every data sample of y turned by q; pilots arbitrary. */
  ghost predicate Slipped(x: seq<C>, y: seq<C>, mask: seq<bool>, q: Turn) {
    |x| == |y| <= |mask| && forall p :: 0 <= p < |x| && !mask[p] ==> x[p] == Rotate(q, y[p])
  }

  lemma {:induction false} DataAfterTurn(x: seq<C>, y: seq<C>, mask: seq<bool>, q: Turn, k: Turn)
    requires Slipped(x, y, mask, q)
    ensures |Data(Turned(k, x), mask)| == |Data(y, mask)|
    ensures k == q ==> Data(Turned(k, x), mask) == Data(y, mask)
    ensures k != q && Data(Turned(k, x), mask) == Data(y, mask) ==>
              forall p :: 0 <= p < |y| && !mask[p] ==> y[p] == ZERO
  {
    hide Rotate, RotateBack;
    if x != [] {
      var n := |x| - 1;
      DataAfterTurn(x[..n], y[..n], mask, q, k);
      assert Turned(k, x)[..n] == Turned(k, x[..n]);
      RotateBackInverts(q, y[n]);
      var a, b := Data(Turned(k, x[..n]), mask), Data(y[..n], mask);
      LastEqual(a, b, RotateBack(k, x[n]), y[n]);
      assert Data(Turned(k, x), mask) == if mask[n] then a else a + [RotateBack(k, x[n])];
      assert Data(y, mask) == if mask[n] then b else b + [y[n]];
      if k != q && Data(Turned(k, x), mask) == Data(y, mask) {
        forall p | 0 <= p < |y| && !mask[p] ensures y[p] == ZERO {
          if p < n {
            assert y[..n][p] == ZERO;
          } else if y[n] != ZERO {
            WrongTurnMoves(q, k, y[n]);
          }
        }
      }
    }
  }

  lemma LastEqual(a: seq<C>, b: seq<C>, s: C, t: C)
    requires |a| == |b|
    ensures a + [s] == b + [t] <==> a == b && s == t
  {
    if a + [s] == b + [t] {
      assert (a + [s])[|a|] == (b + [t])[|b|];
      assert a == (a + [s])[..|a|] == (b + [t])[..|b|] == b;
    }
  }

  /** Turn q has more votes than every turn below it and no fewer than any above it. */
  ghost predicate Wins(x: seq<C>, mask: seq<bool>, pilot: C, q: Turn)
    requires |x| <= |mask|
  {
    forall k: Turn :: (k < q ==> Votes(x, mask, pilot, k, |x|) < Votes(x, mask, pilot, q, |x|))
                   && (k > q ==> Votes(x, mask, pilot, k, |x|) <= Votes(x, mask, pilot, q, |x|))
  }

  lemma WinnerIffWins(x: seq<C>, mask: seq<bool>, pilot: C, q: Turn)
    requires |x| <= |mask|
    ensures Winner(x, mask, pilot) == q <==> Wins(x, mask, pilot, q)
  {
    hide Votes;
    var w := Winner(x, mask, pilot);
    assert Wins(x, mask, pilot, w);
  }

  /** The slip is removed exactly when its turn wins the vote, unless there is no data to tell. */
  lemma SlipRemovedIffItWins(x: seq<C>, y: seq<C>, mask: seq<bool>, pilot: C, q: Turn)
    requires Slipped(x, y, mask, q) && AnyPilot(mask, |x|)
    requires exists p :: 0 <= p < |y| && !mask[p] && y[p] != ZERO
    ensures SlipCorrect(x, mask, pilot) == Data(y, mask) <==> Wins(x, mask, pilot, q)
  {
    WinnerIffWins(x, mask, pilot, q);
    hide Winner, Wins, Turned, Data;
    DataAfterTurn(x, y, mask, q, Winner(x, mask, pilot));
  }

  lemma {:induction false} AllData(x: seq<C>, mask: seq<bool>)
    requires |x| <= |mask| && !AnyPilot(mask, |x|)
    ensures Data(x, mask) == x
  {
    if x != [] {
      assert !mask[|x| - 1];
      AllData(x[..|x| - 1], mask);
    }
  }

  /** Without a pilot nothing is turned and nothing is taken out. */
  lemma NoPilotNoChange(x: seq<C>, mask: seq<bool>, pilot: C)
    requires |x| <= |mask| && !AnyPilot(mask, |x|)
    ensures SlipCorrect(x, mask, pilot) == x
  {
    AllData(x, mask);
  }

  /** A strict plurality is enough: more pilots read the turn that was applied than read any other one. */
  lemma PluralityRemovesSlip(x: seq<C>, y: seq<C>, mask: seq<bool>, pilot: C, q: Turn)
    requires Slipped(x, y, mask, q)
    requires forall k: Turn :: k != q ==> Votes(x, mask, pilot, q, |x|) > Votes(x, mask, pilot, k, |x|)
    ensures SlipCorrect(x, mask, pilot) == Data(y, mask)
  {
    WinnerIffWins(x, mask, pilot, q);
    var k: Turn := if q == 0 then 1 else 0;
    assert Votes(x, mask, pilot, q, |x|) > Votes(x, mask, pilot, k, |x|);
    hide Winner, Turned, Data, Votes;
    SomeVote(x, mask, pilot, q, |x|);
    DataAfterTurn(x, y, mask, q, q);
  }

  lemma {:induction false} SomeVote(x: seq<C>, mask: seq<bool>, pilot: C, k: Turn, n: nat)
    requires n <= |x| <= |mask| && Votes(x, mask, pilot, k, n) > 0
    ensures AnyPilot(mask, n)
  {
    if n > 0 && !mask[n - 1] { SomeVote(x, mask, pilot, k, n - 1); }
  }

  /** Pilots of the first n entries that arrived intact, and those that did not. */
  function IntactPilots(y: seq<C>, mask: seq<bool>, pilot: C, n: nat): nat
    requires n <= |y| && n <= |mask|
  {
    if n == 0 then 0
    else IntactPilots(y, mask, pilot, n - 1) + (if mask[n - 1] && Intact(y[n - 1], pilot) then 1 else 0)
  }

  function SpoiltPilots(y: seq<C>, mask: seq<bool>, pilot: C, n: nat): nat
    requires n <= |y| && n <= |mask|
  {
    if n == 0 then 0
    else SpoiltPilots(y, mask, pilot, n - 1) + (if mask[n - 1] && !Intact(y[n - 1], pilot) then 1 else 0)
  }

  lemma {:induction false} VoteCounts(x: seq<C>, y: seq<C>, mask: seq<bool>, pilot: C, q: Turn, k: Turn, n: nat)
    requires n <= |x| == |y| <= |mask|
    requires forall p :: 0 <= p < |x| ==> x[p] == Rotate(q, y[p])
    ensures Votes(x, mask, pilot, q, n) >= IntactPilots(y, mask, pilot, n)
    ensures k != q ==> Votes(x, mask, pilot, k, n) <= SpoiltPilots(y, mask, pilot, n)
  {
    hide Vote, Intact, Rotate;
    if n > 0 {
      VoteCounts(x, y, mask, pilot, q, k, n - 1);
      if Intact(y[n - 1], pilot) { IntactVotesTheTurn(q, y[n - 1], pilot); }
    }
  }

  /** A frame turned by any number of quarter turns comes back as the data it carried, whatever its
      spoilt pilots read, as long as more pilots are intact than spoilt. */
  lemma MajorityRemovesSlip(x: seq<C>, y: seq<C>, mask: seq<bool>, pilot: C, q: Turn)
    requires |x| == |y| <= |mask| && forall p :: 0 <= p < |x| ==> x[p] == Rotate(q, y[p])
    requires IntactPilots(y, mask, pilot, |y|) > SpoiltPilots(y, mask, pilot, |y|)
    ensures SlipCorrect(x, mask, pilot) == Data(y, mask)
  {
    hide Votes, IntactPilots, SpoiltPilots, Turned, Data, Rotate;
    VoteCounts(x, y, mask, pilot, q, 0, |x|);
    VoteCounts(x, y, mask, pilot, q, 1, |x|);
    VoteCounts(x, y, mask, pilot, q, 2, |x|);
    VoteCounts(x, y, mask, pilot, q, 3, |x|);
    SomePilot(y, mask, pilot, |y|);
    DataAfterTurn(x, y, mask, q, q);
    assert Winner(x, mask, pilot) == q;
  }

  lemma {:induction false} SomePilot(y: seq<C>, mask: seq<bool>, pilot: C, n: nat)
    requires n <= |y| && n <= |mask| && IntactPilots(y, mask, pilot, n) > 0
    ensures AnyPilot(mask, n)
  {
    if n > 0 && !mask[n - 1] { SomePilot(y, mask, pilot, n - 1); }
  }

  /** Spoilt pilots of the first n entries that read k once the frame is turned by q. */
  function Misreadings(y: seq<C>, mask: seq<bool>, pilot: C, q: Turn, k: Turn, n: nat): nat
    requires n <= |y| && n <= |mask|
  {
    if n == 0 then 0
    else Misreadings(y, mask, pilot, q, k, n - 1)
         + (if mask[n - 1] && !Intact(y[n - 1], pilot) && Vote(Rotate(q, y[n - 1]), pilot) == k then 1 else 0)
  }

  lemma {:induction false} VotesAreMisreadings(x: seq<C>, y: seq<C>, mask: seq<bool>, pilot: C, q: Turn, k: Turn,
                                               n: nat)
    requires n <= |x| == |y| <= |mask|
    requires forall p :: 0 <= p < |x| ==> x[p] == Rotate(q, y[p])
    ensures Votes(x, mask, pilot, k, n)
         == Misreadings(y, mask, pilot, q, k, n) + (if k == q then IntactPilots(y, mask, pilot, n) else 0)
  {
    hide Vote, Intact, Rotate;
    if n > 0 {
      VotesAreMisreadings(x, y, mask, pilot, q, k, n - 1);
      if Intact(y[n - 1], pilot) { IntactVotesTheTurn(q, y[n - 1], pilot); }
    }
  }

  /** Insert, turn, spoil pilots in any way that leaves the intact ones a strict plurality, correct: the data comes
      back, even when most of the pilots are spoilt. */
  lemma InsertTurnCorrect(data: seq<C>, spacing: nat, pilot: C, q: Turn, y: seq<C>)
    requires spacing >= 1
    requires var mask := Layout(|data|, spacing);
             |y| == |mask| && (forall p :: 0 <= p < |y| && !mask[p] ==> y[p] == Frame(data, spacing, pilot)[p])
             && forall k: Turn :: k != q ==>
                  IntactPilots(y, mask, pilot, |y|) > Misreadings(y, mask, pilot, q, k, |y|)
    ensures var x := seq(|y|, p requires 0 <= p < |y| => Rotate(q, y[p]));
            SlipCorrect(x, Layout(|data|, spacing), pilot) == data
  {
    hide Layout, Rotate, Framed, Gaps, Data, IntactPilots, Misreadings, SlipCorrect, Votes;
    var mask := Layout(|data|, spacing);
    var x := seq(|y|, p requires 0 <= p < |y| => Rotate(q, y[p]));
    LayoutGaps(|data|, spacing);
    VotesAreMisreadings(x, y, mask, pilot, q, q, |x|);
    forall k: Turn | k != q ensures Votes(x, mask, pilot, q, |x|) > Votes(x, mask, pilot, k, |x|) {
      VotesAreMisreadings(x, y, mask, pilot, q, k, |x|);
    }
    PluralityRemovesSlip(x, y, mask, pilot, q);
    DataOfFramed(data, mask, pilot, |mask|);
    DataIgnoresPilots(y, Frame(data, spacing, pilot), mask);
  }

  lemma {:induction false} MisreadingsAreSpoilt(y: seq<C>, mask: seq<bool>, pilot: C, q: Turn, k: Turn, n: nat)
    requires n <= |y| && n <= |mask|
    ensures Misreadings(y, mask, pilot, q, k, n) <= SpoiltPilots(y, mask, pilot, n)
  {
    hide Vote, Intact, Rotate;
    if n > 0 { MisreadingsAreSpoilt(y, mask, pilot, q, k, n - 1); }
  }

  /** Pilot places of the first n entries, and those that no longer hold the pilot. */
  function PilotPlaces(mask: seq<bool>, n: nat): nat
    requires n <= |mask|
  {
    if n == 0 then 0 else PilotPlaces(mask, n - 1) + (if mask[n - 1] then 1 else 0)
  }

  function ChangedPilots(y: seq<C>, mask: seq<bool>, pilot: C, n: nat): nat
    requires n <= |y| && n <= |mask|
  {
    if n == 0 then 0
    else ChangedPilots(y, mask, pilot, n - 1) + (if mask[n - 1] && y[n - 1] != pilot then 1 else 0)
  }

  lemma {:induction false} UnchangedAreIntact(y: seq<C>, mask: seq<bool>, pilot: C, n: nat)
    requires n <= |y| && n <= |mask| && Abs2(pilot) > 0.0
    ensures SpoiltPilots(y, mask, pilot, n) <= ChangedPilots(y, mask, pilot, n)
    ensures IntactPilots(y, mask, pilot, n) + SpoiltPilots(y, mask, pilot, n) == PilotPlaces(mask, n)
  {
    hide Intact, Abs2;
    if n > 0 {
      UnchangedAreIntact(y, mask, pilot, n - 1);
      ExactPilotIsIntact(pilot);
    }
  }

  /** The usual case: with any pilot but zero, changing fewer than half of the inserted pilots into anything, and
      turning the frame, costs nothing. */
  lemma FewChangedPilots(data: seq<C>, spacing: nat, pilot: C, q: Turn, y: seq<C>)
    requires spacing >= 1 && Abs2(pilot) > 0.0
    requires var mask := Layout(|data|, spacing);
             |y| == |mask| && (forall p :: 0 <= p < |y| && !mask[p] ==> y[p] == Frame(data, spacing, pilot)[p])
             && 2 * ChangedPilots(y, mask, pilot, |y|) < PilotPlaces(mask, |y|)
    ensures var x := seq(|y|, p requires 0 <= p < |y| => Rotate(q, y[p]));
            SlipCorrect(x, Layout(|data|, spacing), pilot) == data
  {
    var mask := Layout(|data|, spacing);
    hide Layout, Rotate, Frame, IntactPilots, SpoiltPilots, Misreadings, ChangedPilots, PilotPlaces, SlipCorrect, Abs2;
    UnchangedAreIntact(y, mask, pilot, |y|);
    forall k: Turn | k != q ensures IntactPilots(y, mask, pilot, |y|) > Misreadings(y, mask, pilot, q, k, |y|) {
      MisreadingsAreSpoilt(y, mask, pilot, q, k, |y|);
    }
    InsertTurnCorrect(data, spacing, pilot, q, y);
  }

  lemma {:induction false} FramedPilots(data: seq<C>, mask: seq<bool>, pilot: C, n: nat, p: nat)
    requires p < n <= |mask| && Gaps(mask, n) <= |data| && mask[p]
    ensures Framed(data, mask, pilot, n)[p] == pilot
  {
    if p < n - 1 { FramedPilots(data, mask, pilot, n - 1, p); }
  }

  /** Insertion puts the pilot at every multiple of spacing + 1 of the frame. */
  lemma PilotsAreInserted(data: seq<C>, spacing: nat, pilot: C, p: nat)
    requires spacing >= 1 && p < |Frame(data, spacing, pilot)| && p % (spacing + 1) == 0
    ensures Frame(data, spacing, pilot)[p] == pilot
  {
    hide Layout, Gaps, Framed;
    var mask := Layout(|data|, spacing);
    LayoutGaps(|data|, spacing);
    PilotsAtMultiples(|data|, spacing, p);
    FramedPilots(data, mask, pilot, |mask|, p);
  }

  lemma {:induction false} NoneChanged(y: seq<C>, mask: seq<bool>, pilot: C, n: nat)
    requires n <= |y| && n <= |mask| && forall p :: 0 <= p < n && mask[p] ==> y[p] == pilot
    ensures ChangedPilots(y, mask, pilot, n) == 0
    ensures n > 0 && mask[0] ==> PilotPlaces(mask, n) > 0
  {
    if n > 0 { NoneChanged(y, mask, pilot, n - 1); }
  }

  lemma FirstIsPilot(n: nat, spacing: nat)
    requires spacing >= 1 && n > 0
    ensures |Layout(n, spacing)| > 0 && Layout(n, spacing)[0]
  {
  }

  /** The plain round trip: whatever the data, insert any pilot but zero, turn the whole frame by any number of quarter
      turns, correct, and the data is back. */
  lemma TurnedFrameComesBack(data: seq<C>, spacing: nat, pilot: C, q: Turn)
    requires spacing >= 1 && Abs2(pilot) > 0.0 && data != []
    ensures var y := Frame(data, spacing, pilot);
            var x := seq(|y|, p requires 0 <= p < |y| => Rotate(q, y[p]));
            SlipCorrect(x, Layout(|data|, spacing), pilot) == data
  {
    hide Layout, Rotate, Frame, ChangedPilots, PilotPlaces, SlipCorrect, Abs2;
    var y, mask := Frame(data, spacing, pilot), Layout(|data|, spacing);
    FirstIsPilot(|data|, spacing);
    forall p: nat | p < |y| && mask[p] ensures y[p] == pilot {
      PilotsAtMultiples(|data|, spacing, p);
      PilotsAreInserted(data, spacing, pilot, p);
    }
    NoneChanged(y, mask, pilot, |y|);
    FewChangedPilots(data, spacing, pilot, q, y);
  }

  lemma {:induction false} DataIgnoresPilots(y: seq<C>, z: seq<C>, mask: seq<bool>)
    requires |y| == |z| <= |mask| && forall p :: 0 <= p < |y| && !mask[p] ==> y[p] == z[p]
    ensures Data(y, mask) == Data(z, mask)
  {
    if y != [] { DataIgnoresPilots(y[..|y| - 1], z[..|y| - 1], mask); }
  }
}
