/** gr_autopilot/flowgraph/gr_blocks.py and link/gr_spec.py: realising a chain as blocks while
    tracking how many samples per symbol reach each position. */
module ChainRates {
  import opened Basics
  import opened Flowgraph

  /** The root-raised-cosine design: samples per symbol, excess bandwidth, number of taps. */
  datatype Taps = Taps(sps: int, rolloff: real, ntaps: int)

  datatype Context = Context(m: Modulation, sps: int, rolloff: real, ntapsPerSymbol: int, timingBw: real)

  function TapsOf(ctx: Context): Taps { Taps(ctx.sps, ctx.rolloff, ctx.ntapsPerSymbol * ctx.sps + 1) }

  /** A block as instantiated, with the parameters that depend on its place in the chain. */
  datatype Block =
    | Mapper(m: Modulation)
    | Interpolator(factor: int, taps: Taps)
    | Decimator(factor: int, taps: Taps)
    | Synchronizer(sps: real, loopBw: real)
    | CarrierLoop(order: int)
    | Gain

  /** Unsupported is the exception of the source; Framework is a stage the scoring layer realises. */
  datatype Made = Unsupported | Framework | Placed(block: Block, rate: real)

  /** max(1, int(cur // 2)). */
  function Decimation(cur: real): (d: int)
    ensures d >= 1
  {
    if (cur / 2.0).Floor < 1 then 1 else (cur / 2.0).Floor
  }

  function SyncInput(cur: real): (s: real)
    ensures s >= 2.0
  {
    if cur < 2.0 then 2.0 else cur
  }

  /** The order of the Costas loop for a constant-modulus constellation, 0 for the others. */
  function CostasOrder(m: Modulation): int {
    match m
    case Bpsk => 2
    case Qpsk => 4
    case Psk8 => 8
    case _ => 0
  }

  function MakeBlock(skill: Skill, ctx: Context, cur: real): Made {
    match skill
    case Demod(_) => Framework
    case Mod(_) => Placed(Mapper(ctx.m), 1.0)
    case PulseShape => Placed(Interpolator(ctx.sps, TapsOf(ctx)), ctx.sps as real)
    case MatchedFilter => Placed(Decimator(Decimation(cur), TapsOf(ctx)), 1.0 / Decimation(cur) as real)
    case SymbolSync => Placed(Synchronizer(SyncInput(cur), ctx.timingBw), 1.0 / SyncInput(cur))
    case Costas => if CostasOrder(ctx.m) == 0 then Unsupported else Placed(CarrierLoop(CostasOrder(ctx.m)), 1.0)
    case Agc => Placed(Gain, 1.0)
    case Channel => Unsupported
    case Other(_) => Unsupported
  }

  datatype Built = Rejected | Built(blocks: seq<Block>, rate: real)

  /** The blocks of a chain and the rate that leaves it. */
  function Chain(names: seq<Skill>, ctx: Context, start: real): Built {
    if names == [] then Built([], start)
    else match Chain(names[..|names| - 1], ctx, start)
      case Rejected => Rejected
      case Built(blocks, rate) =>
        match MakeBlock(names[|names| - 1], ctx, rate)
        case Unsupported => Rejected
        case Framework => Built(blocks, rate)
        case Placed(block, r) => Built(blocks + [block], rate * r)
  }

  lemma {:induction false} RejectedStays(names: seq<Skill>, ctx: Context, start: real, n: nat)
    requires n <= |names| && Chain(names[..n], ctx, start).Rejected?
    ensures Chain(names, ctx, start).Rejected?
  {
    if n < |names| {
      assert names[..|names| - 1][..n] == names[..n];
      RejectedStays(names[..|names| - 1], ctx, start, n);
    } else {
      assert names[..n] == names;
    }
  }

  method BuildChain(names: seq<Skill>, ctx: Context, start: real) returns (r: Built)
    ensures r == Chain(names, ctx, start)
  {
    hide MakeBlock;
    var blocks: seq<Block>, rate := [], start;
    for i := 0 to |names|
      invariant Chain(names[..i], ctx, start) == Built(blocks, rate)
    {
      assert names[..i + 1][..i] == names[..i];
      match MakeBlock(names[i], ctx, rate) {
        case Unsupported =>
          RejectedStays(names, ctx, start, i + 1);
          return Rejected;
        case Framework =>
        case Placed(block, r1) =>
          blocks := blocks + [block];
          rate := rate * r1;
      }
    }
    assert names[..|names|] == names;
    return Built(blocks, rate);
  }

  // ---- rates ---------------------------------------------------------------------------

  function Count(names: seq<Skill>, s: Skill): nat {
    if names == [] then 0 else Count(names[..|names| - 1], s) + (if names[|names| - 1] == s then 1 else 0)
  }

  lemma Divided(x: real, y: real)
    requires y > 0.0
    ensures x * (1.0 / y) == x / y
  {
  }

  lemma AtLeastTwice(x: real, d: int)
    requires d >= 1 && 2.0 * d as real <= x
    ensures x / d as real >= 2.0
  {
  }

  lemma GrownBy(x: real, k: int)
    requires x >= 2.0 && k >= 1
    ensures x * k as real >= 2.0
  {
    assert x * (k as real - 1.0) >= 0.0;
  }

  /** Decimation keeps at least two samples per symbol of a stream that has two, and passes a slower
      stream through unchanged. */
  lemma DecimationRate(cur: real)
    ensures cur >= 2.0 ==> cur * (1.0 / Decimation(cur) as real) >= 2.0
    ensures cur < 2.0 ==> Decimation(cur) == 1
  {
    var d := Decimation(cur);
    Divided(cur, d as real);
    if cur >= 2.0 { AtLeastTwice(cur, d); }
  }

  lemma BelowTwice(x: real, d: int)
    requires d >= 1 && x < 2.0 * d as real + 2.0
    ensures x / d as real < 4.0
    ensures x / d as real == 2.0 <==> x == 2.0 * d as real
  {
    assert x / d as real * d as real == x;
    if x / d as real >= 4.0 { FourTimes(x / d as real, d); }
  }

  lemma FourTimes(y: real, d: int)
    requires d >= 1 && y >= 4.0
    ensures y * d as real >= 4.0 * d as real
  {
  }

  lemma DecimationBounds(cur: real)
    requires cur >= 2.0
    ensures var d := Decimation(cur); d == (cur / 2.0).Floor && 2.0 * d as real <= cur < 2.0 * d as real + 2.0
  {
  }

  /** The filter is there to leave two samples per symbol. It does exactly for whole even rates: it never leaves four or
      more, but an odd rate of three passes through as it is. */
  lemma DecimatesToTwoIff(cur: real)
    requires cur >= 2.0
    ensures cur / Decimation(cur) as real < 4.0
    ensures cur / Decimation(cur) as real == 2.0 <==> cur == 2.0 * (cur / 2.0).Floor as real
    ensures Decimation(3.0) == 1
  {
    DecimationBounds(3.0);
    hide Decimation;
    DecimationBounds(cur);
    BelowTwice(cur, Decimation(cur));
  }

  /** Timing recovery takes any stream of at least two samples per symbol to one, and halves a slower one. */
  lemma SyncRate(cur: real)
    ensures cur * (1.0 / SyncInput(cur)) == if cur >= 2.0 then 1.0 else cur / 2.0
  {
    Divided(cur, SyncInput(cur));
  }

  /** One stage without timing recovery: a stream of at least two samples per symbol keeps two. */
  lemma StageKeepsTwo(skill: Skill, ctx: Context, cur: real)
    requires cur >= 2.0 && ctx.sps >= 1 && skill != SymbolSync && MakeBlock(skill, ctx, cur).Placed?
    ensures cur * MakeBlock(skill, ctx, cur).rate >= 2.0
  {
    DecimationRate(cur);
    GrownBy(cur, ctx.sps);
    hide Decimation;
  }

  /** Once a stream has two samples per symbol, only symbol_sync can bring it to one. */
  lemma {:induction false} OnlySyncReachesOne(names: seq<Skill>, ctx: Context, start: real)
    requires start >= 2.0 && ctx.sps >= 1 && Count(names, SymbolSync) == 0 && Chain(names, ctx, start).Built?
    ensures Chain(names, ctx, start).rate >= 2.0
  {
    hide MakeBlock;
    if names != [] {
      var head, last := names[..|names| - 1], names[|names| - 1];
      OnlySyncReachesOne(head, ctx, start);
      var rate := Chain(head, ctx, start).rate;
      if MakeBlock(last, ctx, rate).Placed? { StageKeepsTwo(last, ctx, rate); }
    }
  }

  /** One half to the power k. */
  function Half(k: nat): (h: real)
    ensures 0.0 < h <= 1.0 && (k >= 1 ==> h <= 0.5)
  {
    if k == 0 then 1.0 else Half(k - 1) / 2.0
  }

  lemma TimesOne(x: real)
    ensures x * 1.0 == x
  {
  }

  /** A stage that is neither pulse shaping nor timing recovery leaves a slow stream alone. */
  lemma SlowStage(skill: Skill, ctx: Context, cur: real)
    requires cur < 2.0 && skill != SymbolSync && skill != PulseShape && MakeBlock(skill, ctx, cur).Placed?
    ensures cur * MakeBlock(skill, ctx, cur).rate == cur
  {
    DecimationRate(cur);
    TimesOne(cur);
    hide Decimation;
  }

  /** A chain without pulse shaping fed at one sample per symbol: every timing recovery halves it. */
  lemma {:induction false} SlowChain(names: seq<Skill>, ctx: Context)
    requires Count(names, PulseShape) == 0 && Chain(names, ctx, 1.0).Built?
    ensures Chain(names, ctx, 1.0).rate == Half(Count(names, SymbolSync))
  {
    hide MakeBlock;
    if names != [] {
      var head, last := names[..|names| - 1], names[|names| - 1];
      SlowChain(head, ctx);
      var rate := Chain(head, ctx, 1.0).rate;
      FrameworkIsDemod(last, ctx, rate);
      if MakeBlock(last, ctx, rate).Placed? { SlowStep(last, ctx, rate); }
    }
  }

  lemma FrameworkIsDemod(skill: Skill, ctx: Context, cur: real)
    ensures MakeBlock(skill, ctx, cur).Framework? ==> skill != SymbolSync && skill != PulseShape
  {
  }

  lemma SlowStep(skill: Skill, ctx: Context, cur: real)
    requires cur < 2.0 && skill != PulseShape && MakeBlock(skill, ctx, cur).Placed?
    ensures cur * MakeBlock(skill, ctx, cur).rate == if skill == SymbolSync then cur / 2.0 else cur
  {
    if skill == SymbolSync { SyncRate(cur); } else { SlowStage(skill, ctx, cur); }
    hide Decimation, SyncInput;
  }

  /** A receive chain without pulse shaping fed with at least two samples per symbol. */
  lemma {:induction false} ReceiveChain(names: seq<Skill>, ctx: Context, start: real)
    requires start >= 2.0 && ctx.sps >= 1 && Count(names, PulseShape) == 0 && Chain(names, ctx, start).Built?
    ensures var k := Count(names, SymbolSync);
            if k == 0 then Chain(names, ctx, start).rate >= 2.0 else Chain(names, ctx, start).rate == Half(k - 1)
  {
    hide MakeBlock;
    if names != [] {
      var head, last := names[..|names| - 1], names[|names| - 1];
      ReceiveChain(head, ctx, start);
      var rate := Chain(head, ctx, start).rate;
      FrameworkIsDemod(last, ctx, rate);
      if MakeBlock(last, ctx, rate).Placed? {
        if rate < 2.0 {
          SlowStep(last, ctx, rate);
        } else if last == SymbolSync {
          SyncPlaced(ctx, rate);
        } else {
          StageKeepsTwo(last, ctx, rate);
        }
      }
    }
  }

  lemma SyncPlaced(ctx: Context, cur: real)
    requires cur >= 2.0
    ensures MakeBlock(SymbolSync, ctx, cur).Placed? && cur * MakeBlock(SymbolSync, ctx, cur).rate == 1.0
  {
    SyncRate(cur);
    hide SyncInput;
  }

  lemma {:induction false} TransmitChain(names: seq<Skill>, ctx: Context)
    requires Count(names, PulseShape) <= 1 && Count(names, SymbolSync) == 0 && Count(names, MatchedFilter) == 0
    requires Chain(names, ctx, 1.0).Built?
    ensures Chain(names, ctx, 1.0).rate == if Count(names, PulseShape) == 1 then ctx.sps as real else 1.0
  {
    if names != [] {
      TransmitChain(names[..|names| - 1], ctx);
      TimesOne(Chain(names[..|names| - 1], ctx, 1.0).rate);
    }
    hide Decimation, SyncInput;
  }

  /** The verdict of a run: the receive chain delivers one sample per symbol. */
  predicate Synchronized(rate: real) { -0.000000001 < rate - 1.0 < 0.000000001 }

  lemma HalfIsOneOnlyAtZero(k: nat)
    ensures Synchronized(Half(k)) <==> k == 0
  {
  }

  /** A link that shapes its pulses once, in the transmit chain, is synchronized exactly when its
      receive chain recovers timing exactly once (never, at one sample per symbol). */
  lemma SynchronizedIff(tx: seq<Skill>, rx: seq<Skill>, ctx: Context)
    requires ctx.sps >= 1
    requires Count(tx, PulseShape) == 1 && Count(tx, SymbolSync) == 0 && Count(tx, MatchedFilter) == 0
    requires Count(rx, PulseShape) == 0
    requires Chain(tx, ctx, 1.0).Built? && Chain(rx, ctx, Chain(tx, ctx, 1.0).rate).Built?
    ensures Synchronized(Chain(rx, ctx, Chain(tx, ctx, 1.0).rate).rate)
            <==> Count(rx, SymbolSync) == (if ctx.sps >= 2 then 1 else 0)
  {
    TransmitChain(tx, ctx);
    var k := Count(rx, SymbolSync);
    if ctx.sps >= 2 {
      ReceiveChain(rx, ctx, ctx.sps as real);
      if k >= 1 { HalfIsOneOnlyAtZero(k - 1); }
    } else {
      SlowChain(rx, ctx);
      HalfIsOneOnlyAtZero(k);
    }
    hide Chain, Count;
  }

  /** The canonical transceiver of a modulation. */
  function CanonicalTx(m: Modulation): seq<Skill> { [Mod(m), PulseShape] }
  function CanonicalRx(m: Modulation): seq<Skill> { [MatchedFilter, SymbolSync, Demod(m)] }

  /** The validator admits one sample per symbol, but the canonical link synchronizes only from two on. */
  lemma CanonicalSynchronizes(ctx: Context)
    requires ctx.sps >= 1
    ensures Chain(CanonicalTx(ctx.m), ctx, 1.0).Built?
    ensures var r := Chain(CanonicalRx(ctx.m), ctx, Chain(CanonicalTx(ctx.m), ctx, 1.0).rate);
            r.Built? && (Synchronized(r.rate) <==> ctx.sps >= 2)
  {
    var tx, rx := CanonicalTx(ctx.m), CanonicalRx(ctx.m);
    assert tx[..1] == [Mod(ctx.m)] && rx[..2] == [MatchedFilter, SymbolSync] && rx[..2][..1] == [MatchedFilter];
    assert Count(tx[..1], PulseShape) == 0 && Count(tx[..1], SymbolSync) == 0 && Count(tx[..1], MatchedFilter) == 0;
    assert Count(rx[..2][..1], PulseShape) == 0 && Count(rx[..2], PulseShape) == 0;
    assert Count(rx[..2][..1], SymbolSync) == 0 && Count(rx[..2], SymbolSync) == 1;
    CanonicalBuilds(ctx, 1.0);
    CanonicalBuilds(ctx, Chain(tx, ctx, 1.0).rate);
    SynchronizedIff(tx, rx, ctx);
    hide Chain;
  }

  lemma CanonicalBuilds(ctx: Context, start: real)
    ensures Chain(CanonicalTx(ctx.m), ctx, start).Built? && Chain(CanonicalRx(ctx.m), ctx, start).Built?
  {
    var tx, rx := CanonicalTx(ctx.m), CanonicalRx(ctx.m);
    assert tx[..1] == [Mod(ctx.m)] && rx[..2] == [MatchedFilter, SymbolSync] && rx[..2][..1] == [MatchedFilter];
    assert tx[..1][..0] == [] && rx[..2][..1][..0] == [];
    assert Chain(tx[..1], ctx, start).Built?;
    assert Chain(rx[..2][..1], ctx, start).Built?;
    assert Chain(rx[..2], ctx, start).Built?;
  }

  /** The shaping filters delay by a whole number of symbols: with an even number of taps a symbol there are, besides
      the middle one, as many taps on either side as half that number of symbols has samples. */
  lemma FilterDelayIsWhole(ctx: Context, half: int)
    requires ctx.ntapsPerSymbol == 2 * half
    ensures TapsOf(ctx).ntaps == 2 * (half * ctx.sps) + 1
  {
    assert 2 * half * ctx.sps == 2 * (half * ctx.sps);
  }

  /** The canonical specification is valid exactly for 1 to 16 samples per symbol and an excess bandwidth of 0 to 1. */
  lemma CanonicalIsValidIff(id: string, m: Modulation, sps: int, rolloff: real, bw: Option<real>)
    ensures Valid(Spec(id, Some(m), CanonicalTx(m), CanonicalRx(m), Some(sps), Some(rolloff), bw))
       <==> 1 <= sps <= 16 && 0.0 <= rolloff <= 1.0
    ensures Valid(Spec(id, Some(m), CanonicalTx(m), CanonicalRx(m), None, None, bw))
  {
    assert ChainOk(CanonicalTx(m), Bits, Complex);
    assert ChainOk(CanonicalRx(m), Complex, Bits);
    hide ChainOk;
  }
}
