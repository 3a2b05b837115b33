/** Exporting a specification to a Companion document and importing it again (grc_export.py,
    grc_import.py). */
module GrcRoundTrip {
  import opened Basics
  import opened Flowgraph
  import opened ChainRates
  import opened Companion
  import E = GrcExport
  import I = GrcImport

  // ---- reading back one drawn chain ------------------------------------------------------

  /** A skill that is drawn as a block of its own. */
  predicate DrawnSkill(s: Skill, m: Modulation) {
    !s.Other? && !s.Channel? && !s.Demod? && (s.Mod? ==> s.m == m)
  }

  predicate DrawnChain(chain: seq<Skill>, m: Modulation) {
    forall i :: 0 <= i < |chain| ==> DrawnSkill(chain[i], m)
  }

  /** What reading the block of a skill adds to the draft. */
  function AfterSkill(d: I.Draft, s: Skill, ctx: Context): I.Draft {
    I.AppendSkill(
      match s
      case Mod(m) => d.(modulation := Some(m))
      case PulseShape => d.(sps := Some(ctx.sps), rolloff := Some(ctx.rolloff))
      case MatchedFilter => if d.rolloff.None? then d.(rolloff := Some(ctx.rolloff)) else d
      case SymbolSync => d.(bw := Some(Round6(ctx.timingBw)))
      case _ => d, s)
  }

  function AfterChain(d: I.Draft, chain: seq<Skill>, ctx: Context): I.Draft {
    if chain == [] then d else AfterSkill(AfterChain(d, chain[..|chain| - 1], ctx), chain[|chain| - 1], ctx)
  }

  function ReadNodes(d: I.Draft, nodes: seq<Node>): I.Read {
    if nodes == [] then I.Success(d)
    else match ReadNodes(d, nodes[..|nodes| - 1])
      case Failure(e) => I.Failure(e)
      case Success(d1) => I.ReadBlock(d1, nodes[|nodes| - 1])
  }

  lemma {:induction false} ReadNodesConcat(d: I.Draft, a: seq<Node>, b: seq<Node>)
    requires ReadNodes(d, a).Success?
    ensures ReadNodes(d, a + b) == ReadNodes(ReadNodes(d, a).draft, b)
  {
    hide I.ReadBlock;
    if b == [] {
      assert a + b == a;
    } else {
      assert (a + b)[..|a + b| - 1] == a + b[..|b| - 1];
      ReadNodesConcat(d, a, b[..|b| - 1]);
    }
  }

  lemma ReadOne(d: I.Draft, n: Node)
    ensures ReadNodes(d, [n]) == I.ReadBlock(d, n)
  {
    assert [n][..0] == [];
    assert ReadNodes(d, []) == I.Success(d);
  }

  lemma WholeNumber(n: int)
    ensures I.Trunc(n as real) == n
  {
  }

  lemma SkillReadsBack(fmt: Format, s: Skill, ctx: Context, cur: real, index: nat, d: I.Draft)
    requires Usable(fmt) && DrawnSkill(s, ctx.m) && ctx.sps != 0
    ensures E.NodeFor(fmt, s, ctx, cur, index).Drawn?
    ensures var n := E.NodeFor(fmt, s, ctx, cur, index).node;
            I.ReadBlock(d, n) == I.Success(AfterSkill(d, s, ctx))
            && n.name.Numbered? && n.name.n == index && n.id != NoiseSource
  {
    hide Decimation, SyncInput, Round6, I.Trunc, TapsOf;
    WholeNumber(ctx.sps);
    WholeNumber(TapsOf(ctx).sps);
    assert TapsOf(ctx).sps == ctx.sps && TapsOf(ctx).rolloff == ctx.rolloff by { TapsFields(ctx); }
  }

  lemma TapsFields(ctx: Context)
    ensures TapsOf(ctx).sps == ctx.sps && TapsOf(ctx).rolloff == ctx.rolloff
  {
  }

  /** The names of an emitted chain carry consecutive numbers. */
  ghost predicate NumberedFrom(nodes: seq<Node>, index: nat) {
    forall k :: 0 <= k < |nodes| ==>
      nodes[k].name.Numbered? && nodes[k].name.n == index + k && nodes[k].id != NoiseSource
  }

  /** A drawn chain is drawn one block a skill and reads back skill by skill. */
  lemma {:induction false} ChainReadsBack(fmt: Format, chain: seq<Skill>, ctx: Context, rate: real, index: nat,
                                          d: I.Draft)
    requires Usable(fmt) && DrawnChain(chain, ctx.m) && ctx.sps != 0
    ensures var e := E.Emit(fmt, chain, ctx, rate, index);
            e.Emitted? && |e.nodes| == |chain| && NumberedFrom(e.nodes, index)
            && ReadNodes(d, e.nodes) == I.Success(AfterChain(d, chain, ctx))
  {
    hide E.NodeFor, AfterSkill, I.ReadBlock, DrawnSkill;
    if chain != [] {
      var head, last := chain[..|chain| - 1], chain[|chain| - 1];
      ChainReadsBack(fmt, head, ctx, rate, index, d);
      var e := E.Emit(fmt, head, ctx, rate, index);
      SkillReadsBack(fmt, last, ctx, e.rate, index + |e.nodes|, AfterChain(d, head, ctx));
      var node := E.NodeFor(fmt, last, ctx, e.rate, index + |e.nodes|).node;
      assert (e.nodes + [node])[..|e.nodes|] == e.nodes;
    }
  }

  lemma LastSkill(chain: seq<Skill>, s: Skill)
    requires chain != []
    ensures s in chain <==> s in chain[..|chain| - 1] || s == chain[|chain| - 1]
  {
    assert chain == chain[..|chain| - 1] + [chain[|chain| - 1]];
  }

  lemma ChainsAfterSkill(d: I.Draft, s: Skill, ctx: Context)
    ensures var r := AfterSkill(d, s, ctx);
            r.onRx == d.onRx && r.tx == (if d.onRx then d.tx else d.tx + [s])
            && r.rx == (if d.onRx then d.rx + [s] else d.rx)
  {
    hide Round6;
  }

  lemma {:induction false} ChainsAfter(d: I.Draft, chain: seq<Skill>, ctx: Context)
    ensures var r := AfterChain(d, chain, ctx);
            r.onRx == d.onRx && r.tx == (if d.onRx then d.tx else d.tx + chain)
            && r.rx == (if d.onRx then d.rx + chain else d.rx)
  {
    hide AfterSkill;
    if chain != [] {
      var head, last := chain[..|chain| - 1], chain[|chain| - 1];
      ChainsAfter(d, head, ctx);
      ChainsAfterSkill(AfterChain(d, head, ctx), last, ctx);
      assert chain == head + [last] && d.tx + (head + [last]) == (d.tx + head) + [last];
      assert d.rx + (head + [last]) == (d.rx + head) + [last];
    }
  }

  lemma {:induction false} ModulationAfter(d: I.Draft, chain: seq<Skill>, ctx: Context)
    requires DrawnChain(chain, ctx.m)
    ensures AfterChain(d, chain, ctx).modulation == (if Mod(ctx.m) in chain then Some(ctx.m) else d.modulation)
  {
    hide Round6;
    if chain != [] {
      ModulationAfter(d, chain[..|chain| - 1], ctx);
      LastSkill(chain, Mod(ctx.m));
      assert DrawnSkill(chain[|chain| - 1], ctx.m);
    }
  }

  lemma {:induction false} SpsAfter(d: I.Draft, chain: seq<Skill>, ctx: Context)
    ensures AfterChain(d, chain, ctx).sps == (if PulseShape in chain then Some(ctx.sps) else d.sps)
  {
    hide Round6;
    if chain != [] {
      SpsAfter(d, chain[..|chain| - 1], ctx);
      LastSkill(chain, PulseShape);
    }
  }

  lemma {:induction false} RolloffAfter(d: I.Draft, chain: seq<Skill>, ctx: Context)
    requires d.rolloff == None || d.rolloff == Some(ctx.rolloff)
    ensures AfterChain(d, chain, ctx).rolloff
         == (if PulseShape in chain || MatchedFilter in chain then Some(ctx.rolloff) else d.rolloff)
  {
    hide Round6;
    if chain != [] {
      RolloffAfter(d, chain[..|chain| - 1], ctx);
      LastSkill(chain, PulseShape);
      LastSkill(chain, MatchedFilter);
    }
  }

  lemma {:induction false} BandwidthAfter(d: I.Draft, chain: seq<Skill>, ctx: Context)
    ensures AfterChain(d, chain, ctx).bw == (if SymbolSync in chain then Some(Round6(ctx.timingBw)) else d.bw)
  {
    hide Round6;
    if chain != [] {
      BandwidthAfter(d, chain[..|chain| - 1], ctx);
      LastSkill(chain, SymbolSync);
    }
  }

  /** The draft after a whole chain, in closed form. */
  lemma AfterChainClosed(d: I.Draft, chain: seq<Skill>, ctx: Context)
    requires d.rolloff == None || d.rolloff == Some(ctx.rolloff)
    requires DrawnChain(chain, ctx.m)
    ensures var r := AfterChain(d, chain, ctx);
            && r.onRx == d.onRx
            && r.tx == (if d.onRx then d.tx else d.tx + chain) && r.rx == (if d.onRx then d.rx + chain else d.rx)
            && r.modulation == (if Mod(ctx.m) in chain then Some(ctx.m) else d.modulation)
            && r.sps == (if PulseShape in chain then Some(ctx.sps) else d.sps)
            && r.rolloff == (if PulseShape in chain || MatchedFilter in chain then Some(ctx.rolloff) else d.rolloff)
            && r.bw == (if SymbolSync in chain then Some(Round6(ctx.timingBw)) else d.bw)
  {
    hide Round6, AfterChain, DrawnChain;
    ChainsAfter(d, chain, ctx);
    ModulationAfter(d, chain, ctx);
    SpsAfter(d, chain, ctx);
    RolloffAfter(d, chain, ctx);
    BandwidthAfter(d, chain, ctx);
  }

  // ---- following the wires -----------------------------------------------------------------

  /** The keys of out are the first k names of the path, each leading to the next. */
  ghost predicate Leads(out: map<Name, Name>, path: seq<Node>, k: nat) {
    k < |path| && (forall i :: 0 <= i < k ==> path[i].name in out && out[path[i].name] == path[i + 1].name)
    && forall x :: x in out ==> exists i :: 0 <= i < k && path[i].name == x
  }

  ghost predicate Distinct(path: seq<Node>) {
    forall i, j :: 0 <= i < j < |path| ==> path[i].name != path[j].name
  }

  lemma LeadsNowhere(path: seq<Node>)
    requires path != []
    ensures Leads(map[], path, 0)
  {
  }

  /** One more connection leads one name further. */
  lemma LeadsFurther(out: map<Name, Name>, path: seq<Node>, k: nat)
    requires Leads(out, path, k) && Distinct(path) && k + 1 < |path|
    ensures path[k].name !in out
    ensures Leads(out[path[k].name := path[k + 1].name], path, k + 1)
  {
    assert forall i :: 0 <= i < k ==> path[i].name != path[k].name;
    var out' := out[path[k].name := path[k + 1].name];
    forall x | x in out' ensures exists i :: 0 <= i < k + 1 && path[i].name == x {
      if x == path[k].name {
        assert path[k].name == x;
      } else {
        var i :| 0 <= i < k && path[i].name == x;
        assert i < k + 1;
      }
    }
  }

  lemma {:induction false} OutgoingLeads(blocks: I.Table, base: seq<Link>, path: seq<Node>, m: nat, e: nat)
    requires m < e <= |path| && Distinct(path) && Leads(I.Outgoing(blocks, base), path, m)
    requires forall i :: 0 <= i < |path| ==> !I.IsNoise(blocks, path[i].name)
    ensures Leads(I.Outgoing(blocks, base + E.Links(path[m..e])), path, e - 1)
  {
    hide Leads, Distinct, I.IsNoise;
    var part := path[m..e];
    if |part| <= 1 {
      assert base + E.Links(part) == base;
    } else {
      var head := path[m..e - 1];
      assert part[..|part| - 1] == head;
      OutgoingLeads(blocks, base, path, m, e - 1);
      var l := Link(path[e - 2].name, path[e - 1].name, 0);
      var links := base + E.Links(part);
      assert E.Links(part) == E.Links(head) + [l];
      assert links[..|links| - 1] == base + E.Links(head) && links[|links| - 1] == l;
      LeadsFurther(I.Outgoing(blocks, base + E.Links(head)), path, e - 2);
      hide E.Links;
    }
  }

  lemma {:induction false} WalkFollows(out: map<Name, Name>, path: seq<Node>, k: nat, seen: set<Name>)
    requires path != [] && Distinct(path) && Leads(out, path, |path| - 1) && k < |path|
    requires forall x :: x in seen ==> exists i :: 0 <= i < k && path[i].name == x
    ensures |I.Walk(out, Some(path[k].name), seen)| == |path| - k
    ensures forall i :: k <= i < |path| ==> I.Walk(out, Some(path[k].name), seen)[i - k] == path[i].name
    decreases |path| - k
  {
    if k < |path| - 1 {
      WalkFollows(out, path, k + 1, seen + {path[k].name});
    }
  }

  lemma {:induction false} NotFed(blocks: I.Table, links: seq<Link>, x: Name)
    requires forall k :: 0 <= k < |links| ==> links[k].dst != x
    ensures x !in I.HasInput(blocks, links)
  {
    if links != [] {
      assert links[|links| - 1].dst != x;
      NotFed(blocks, links[..|links| - 1], x);
    }
  }

  lemma {:induction false} LinksAvoid(path: seq<Node>, x: Name)
    requires forall i :: 0 < i < |path| ==> path[i].name != x
    ensures forall k :: 0 <= k < |E.Links(path)| ==> E.Links(path)[k].dst != x
  {
    if |path| > 1 { LinksAvoid(path[..|path| - 1], x); }
  }

  lemma {:induction false} BlockFound(nodes: seq<Node>, k: nat)
    requires k < |nodes| && Distinct(nodes)
    ensures nodes[k].name in I.Blocks(nodes) && I.Blocks(nodes)[nodes[k].name] == nodes[k]
  {
    if k < |nodes| - 1 { BlockFound(nodes[..|nodes| - 1], k); }
  }

  lemma {:induction false} ReadAllIsReadNodes(d: I.Draft, blocks: I.Table, path: seq<Node>, order: seq<Name>)
    requires |order| == |path|
    requires forall i :: 0 <= i < |path| ==>
               order[i] == path[i].name && path[i].name in blocks && blocks[path[i].name] == path[i]
    ensures I.ReadAll(d, blocks, order) == ReadNodes(d, path)
  {
    hide I.ReadBlock;
    if path != [] { ReadAllIsReadNodes(d, blocks, path[..|path| - 1], order[..|order| - 1]); }
  }

  // ---- the drawn document ------------------------------------------------------------------

  /** The signal path of a drawn document, and all its blocks. */
  function Path(tx: seq<Node>, rx: seq<Node>, offset: bool): seq<Node> {
    E.Before(tx, offset) + rx + [E.SINK]
  }

  function AllBlocks(tx: seq<Node>, rx: seq<Node>, sampleRate: real, freqOffset: real): seq<Node> {
    [E.SOURCE] + tx
    + (if freqOffset != 0.0 then [E.RateVariable(sampleRate), E.OffsetVariable(freqOffset), E.ROTATOR] else [])
    + [E.NOISE, E.CHANNEL] + rx + [E.SINK]
  }

  /** The place of a path name, read off the name alone. */
  function PathRank(name: Name, n: nat, offset: bool, total: nat): int {
    match name
    case Numbered(_, k) => k + 1
    case Fixed(w) =>
      if w == "payload_source" then 0
      else if w == "carrier_offset" then n + 1
      else if w == "channel" then n + (if offset then 2 else 1)
      else total - 1
  }

  lemma PathIsDistinct(tx: seq<Node>, rx: seq<Node>, offset: bool)
    requires NumberedFrom(tx, 0) && NumberedFrom(rx, E.RxIndex(tx, offset))
    ensures Distinct(Path(tx, rx, offset))
  {
    var p := Path(tx, rx, offset);
    forall k | 0 <= k < |p| ensures PathRank(p[k].name, |tx|, offset, |p|) == k {
      if 1 <= k <= |tx| { assert p[k] == tx[k - 1]; }
      var c := |E.Before(tx, offset)|;
      if c <= k < |p| - 1 { assert p[k] == rx[k - c]; }
    }
  }

  function BlockRank(name: Name, n: nat, offset: bool, total: nat): int {
    match name
    case Numbered(_, k) => if k < n then k + 1 else if offset then k + 4 else k + 2
    case Fixed(w) =>
      if w == "payload_source" then 0
      else if w == "samp_rate" then n + 1
      else if w == "freq_offset_hz" then n + 2
      else if w == "carrier_offset" then n + 3
      else if w == "channel_noise" then n + (if offset then 4 else 1)
      else if w == "channel" then n + (if offset then 5 else 2)
      else total - 1
  }

  lemma BlocksAreDistinct(tx: seq<Node>, rx: seq<Node>, sampleRate: real, freqOffset: real)
    requires NumberedFrom(tx, 0) && NumberedFrom(rx, E.RxIndex(tx, freqOffset != 0.0))
    ensures Distinct(AllBlocks(tx, rx, sampleRate, freqOffset))
  {
    var b := AllBlocks(tx, rx, sampleRate, freqOffset);
    var c := |b| - 1 - |rx|;
    forall k | 0 <= k < |b| ensures BlockRank(b[k].name, |tx|, freqOffset != 0.0, |b|) == k {
      if 1 <= k <= |tx| { assert b[k] == tx[k - 1]; }
      if c <= k < |b| - 1 { assert b[k] == rx[k - c]; }
    }
  }

  lemma PathIsAmongBlocks(tx: seq<Node>, rx: seq<Node>, sampleRate: real, freqOffset: real, k: nat) returns (j: nat)
    requires k < |Path(tx, rx, freqOffset != 0.0)|
    ensures var b := AllBlocks(tx, rx, sampleRate, freqOffset);
            j < |b| && b[j] == Path(tx, rx, freqOffset != 0.0)[k]
  {
    var c := |E.Before(tx, freqOffset != 0.0)|;
    if k <= |tx| {
      j := k;
    } else if freqOffset != 0.0 && k == |tx| + 1 {
      j := k + 2;
    } else {
      j := if freqOffset != 0.0 then k + 3 else k + 1;
    }
  }

  lemma PathNodeIsNoNoise(tx: seq<Node>, rx: seq<Node>, offset: bool, k: nat)
    requires NumberedFrom(tx, 0) && NumberedFrom(rx, E.RxIndex(tx, offset)) && k < |Path(tx, rx, offset)|
    ensures Path(tx, rx, offset)[k].id != NoiseSource
  {
    var p, c := Path(tx, rx, offset), |E.Before(tx, offset)|;
    if 1 <= k <= |tx| { assert p[k] == tx[k - 1]; }
    if c <= k < |p| - 1 { assert p[k] == rx[k - c]; }
  }

  /** The connections of a drawn document. */
  function Wires(tx: seq<Node>, rx: seq<Node>, offset: bool): seq<Link> {
    E.Links(E.Before(tx, offset)) + [Link(E.NOISE.name, E.CHANNEL.name, 1)] + E.Links(E.After(rx))
  }

  lemma PathParts(tx: seq<Node>, rx: seq<Node>, offset: bool)
    ensures var p, m := Path(tx, rx, offset), |E.Before(tx, offset)|;
            0 < m < |p| && p[0..m] == E.Before(tx, offset) && p[m - 1..|p|] == E.After(rx) && p[0] == E.SOURCE
  {
    assert E.Before(tx, offset)[|E.Before(tx, offset)| - 1] == E.CHANNEL;
  }

  /** The wires of a drawn document lead along its signal path. */
  lemma WiresLead(blocks: I.Table, tx: seq<Node>, rx: seq<Node>, offset: bool)
    requires Distinct(Path(tx, rx, offset)) && I.IsNoise(blocks, E.NOISE.name)
    requires forall i :: 0 <= i < |Path(tx, rx, offset)| ==> !I.IsNoise(blocks, Path(tx, rx, offset)[i].name)
    ensures Leads(I.Outgoing(blocks, Wires(tx, rx, offset)), Path(tx, rx, offset), |Path(tx, rx, offset)| - 1)
  {
    hide E.Links, E.Before, E.After, I.IsNoise, Path, Leads, Distinct;
    PathParts(tx, rx, offset);
    var p, m := Path(tx, rx, offset), |E.Before(tx, offset)|;
    LeadsNowhere(p);
    assert I.Outgoing(blocks, []) == map[];
    var first := E.Links(p[0..m]);
    OutgoingLeads(blocks, [], p, 0, m);
    assert [] + first == first;
    var noisy := first + [Link(E.NOISE.name, E.CHANNEL.name, 1)];
    assert noisy[..|noisy| - 1] == first;
    assert I.Outgoing(blocks, noisy) == I.Outgoing(blocks, first);
    hide I.Outgoing;
    OutgoingLeads(blocks, noisy, p, m - 1, |p|);
  }

  lemma NothingFeedsTheSource(blocks: I.Table, tx: seq<Node>, rx: seq<Node>, offset: bool)
    requires Distinct(Path(tx, rx, offset))
    ensures E.SOURCE.name !in I.HasInput(blocks, Wires(tx, rx, offset))
  {
    hide E.Links, E.Before, E.After, Path;
    PathParts(tx, rx, offset);
    var p, m := Path(tx, rx, offset), |E.Before(tx, offset)|;
    assert forall i :: 0 < i < m ==> E.Before(tx, offset)[i] == p[i];
    assert forall i :: 0 < i < |E.After(rx)| ==> E.After(rx)[i] == p[m - 1 + i];
    LinksAvoid(E.Before(tx, offset), E.SOURCE.name);
    LinksAvoid(E.After(rx), E.SOURCE.name);
    NotFed(blocks, Wires(tx, rx, offset), E.SOURCE.name);
  }

  /** Every block of the signal path is found under its name, and so is the noise generator. */
  lemma PathIsFound(tx: seq<Node>, rx: seq<Node>, sampleRate: real, freqOffset: real)
    requires NumberedFrom(tx, 0) && NumberedFrom(rx, E.RxIndex(tx, freqOffset != 0.0))
    ensures var p, blocks := Path(tx, rx, freqOffset != 0.0), I.Blocks(AllBlocks(tx, rx, sampleRate, freqOffset));
            I.IsNoise(blocks, E.NOISE.name)
            && forall k :: 0 <= k < |p| ==>
                 p[k].name in blocks && blocks[p[k].name] == p[k] && !I.IsNoise(blocks, p[k].name)
  {
    hide I.Blocks, Distinct;
    var p, all := Path(tx, rx, freqOffset != 0.0), AllBlocks(tx, rx, sampleRate, freqOffset);
    BlocksAreDistinct(tx, rx, sampleRate, freqOffset);
    var noiseAt := |all| - 3 - |rx|;
    assert all[noiseAt] == E.NOISE;
    BlockFound(all, noiseAt);
    hide Path, AllBlocks;
    forall k | 0 <= k < |p|
      ensures p[k].name in I.Blocks(all) && I.Blocks(all)[p[k].name] == p[k] && !I.IsNoise(I.Blocks(all), p[k].name)
    {
      var j := PathIsAmongBlocks(tx, rx, sampleRate, freqOffset, k);
      BlockFound(all, j);
      PathNodeIsNoNoise(tx, rx, freqOffset != 0.0, k);
    }
  }

  lemma StartIsTheSource(doc: Document, rest: seq<Node>)
    requires doc.blocks == [E.SOURCE] + rest
    requires E.SOURCE.name !in I.HasInput(I.Blocks(doc.blocks), doc.links)
    requires E.SOURCE.name in I.Blocks(doc.blocks) && I.Blocks(doc.blocks)[E.SOURCE.name] == E.SOURCE
    ensures I.StartOf(doc) == Some(E.SOURCE.name)
  {
    hide I.Blocks, I.HasInput;
  }

  lemma BlocksStartWithSource(tx: seq<Node>, rx: seq<Node>, sampleRate: real, freqOffset: real)
    returns (rest: seq<Node>)
    ensures AllBlocks(tx, rx, sampleRate, freqOffset) == [E.SOURCE] + rest
  {
    rest := AllBlocks(tx, rx, sampleRate, freqOffset)[1..];
  }

  lemma StartOfDrawn(id: string, tx: seq<Node>, rx: seq<Node>, sampleRate: real, freqOffset: real)
    requires NumberedFrom(tx, 0) && NumberedFrom(rx, E.RxIndex(tx, freqOffset != 0.0))
    ensures I.StartOf(Document(id, AllBlocks(tx, rx, sampleRate, freqOffset), Wires(tx, rx, freqOffset != 0.0)))
         == Some(E.SOURCE.name)
  {
    hide I.Blocks, Wires, Path, AllBlocks, Distinct, I.StartOf, I.HasInput, I.IsNoise, NumberedFrom;
    var offset := freqOffset != 0.0;
    var all, links := AllBlocks(tx, rx, sampleRate, freqOffset), Wires(tx, rx, offset);
    PathIsDistinct(tx, rx, offset);
    PathIsFound(tx, rx, sampleRate, freqOffset);
    PathParts(tx, rx, offset);
    NothingFeedsTheSource(I.Blocks(all), tx, rx, offset);
    var rest := BlocksStartWithSource(tx, rx, sampleRate, freqOffset);
    StartIsTheSource(Document(id, all, links), rest);
  }

  /** Walking the wires of a drawn document reads the nodes of its path in order. */
  lemma DrawnIsRead(tx: seq<Node>, rx: seq<Node>, sampleRate: real, freqOffset: real)
    requires NumberedFrom(tx, 0) && NumberedFrom(rx, E.RxIndex(tx, freqOffset != 0.0))
    ensures var offset, blocks := freqOffset != 0.0, I.Blocks(AllBlocks(tx, rx, sampleRate, freqOffset));
            var out := I.Outgoing(blocks, Wires(tx, rx, offset));
            I.ReadAll(I.EMPTY, blocks, I.Walk(out, Some(E.SOURCE.name), {})) == ReadNodes(I.EMPTY, Path(tx, rx, offset))
  {
    hide I.Blocks, I.Outgoing, Wires, Path, AllBlocks, Leads, Distinct, ReadNodes, I.ReadAll, I.IsNoise, I.Walk,
         NumberedFrom;
    var offset := freqOffset != 0.0;
    var p, blocks := Path(tx, rx, offset), I.Blocks(AllBlocks(tx, rx, sampleRate, freqOffset));
    PathIsDistinct(tx, rx, offset);
    PathIsFound(tx, rx, sampleRate, freqOffset);
    PathParts(tx, rx, offset);
    WiresLead(blocks, tx, rx, offset);
    var out := I.Outgoing(blocks, Wires(tx, rx, offset));
    WalkFollows(out, p, 0, {});
    ReadAllIsReadNodes(I.EMPTY, blocks, p, I.Walk(out, Some(E.SOURCE.name), {}));
  }

  /** Importing a drawn document reads its signal path from source to sink. */
  lemma ImportReadsThePath(id: string, tx: seq<Node>, rx: seq<Node>, sampleRate: real, freqOffset: real)
    requires NumberedFrom(tx, 0) && NumberedFrom(rx, E.RxIndex(tx, freqOffset != 0.0)) && id != ""
    ensures var offset := freqOffset != 0.0;
            I.Import(Document(id, AllBlocks(tx, rx, sampleRate, freqOffset), Wires(tx, rx, offset)))
            == match ReadNodes(I.EMPTY, Path(tx, rx, offset))
               case Failure(e) => I.Refused(e)
               case Success(d) => I.Finish(id, d)
  {
    hide I.Blocks, I.Outgoing, Wires, Path, AllBlocks, ReadNodes, I.ReadAll, I.StartOf, I.Walk, I.Finish, NumberedFrom;
    StartOfDrawn(id, tx, rx, sampleRate, freqOffset);
    DrawnIsRead(tx, rx, sampleRate, freqOffset);
  }

  // ---- the round trip ----------------------------------------------------------------------

  datatype Outcome = Lost | Kept(value: Spec)

  function Trip(fmt: Format, spec: Spec, sampleRate: real, freqOffset: real): Outcome {
    match E.Draw(fmt, spec, sampleRate, freqOffset)
    case Failed => Lost
    case Drawing(doc) =>
      match I.Import(doc)
      case Refused(_) => Lost
      case Loaded(s) => Kept(s)
  }

  predicate Uses(spec: Spec, s: Skill) { s in spec.tx || s in spec.rx }

  /** What a specification becomes. */
  function Normal(fmt: Format, spec: Spec): Spec {
    Spec(FlowId(fmt, spec.id), spec.modulation, spec.tx, spec.rx,
         Some(if Uses(spec, PulseShape) then SpsOf(spec) else DEFAULT_SPS),
         Some(if Uses(spec, PulseShape) || Uses(spec, MatchedFilter) then RolloffOf(spec) else DEFAULT_ROLLOFF),
         if Uses(spec, SymbolSync)
         then Some(Round6(if spec.loopBw.Some? then spec.loopBw.value else E.DEFAULT_BW))
         else None)
  }

  /** A chain that type-checks and holds no demodulator is drawn whole. */
  lemma {:induction false} TypedChainIsDrawn(chain: seq<Skill>, first: Dtype, m: Modulation)
    requires NoDemod(chain) && forall i :: 0 <= i < |chain| ==> PlaceOk(chain, first, i)
    requires first == Bits && chain != [] ==> chain[0] == Mod(m)
    ensures DrawnChain(chain, m) && (first == Complex ==> Mod(m) !in chain)
  {
    forall i | 0 <= i < |chain| ensures DrawnSkill(chain[i], m) && (chain[i].Mod? ==> i == 0 && first == Bits) {
      assert PlaceOk(chain, first, i);
      assert NoDemod(chain[..i]);
      ModOnlyFirst(chain, first, i);
    }
  }

  lemma DemodIsSkipped(fmt: Format, rx: seq<Skill>, ctx: Context, rate: real, index: nat)
    requires rx != [] && rx[|rx| - 1].Demod?
    ensures E.Emit(fmt, rx, ctx, rate, index) == E.Emit(fmt, rx[..|rx| - 1], ctx, rate, index)
  {
    hide Decimation, SyncInput;
  }

  /** The document of a specification whose chains are drawn as tx and rx. */
  lemma DrawShape(fmt: Format, spec: Spec, sampleRate: real, freqOffset: real, tx: seq<Node>, rate: real,
                  rx: seq<Node>, rate2: real)
    requires spec.modulation.Some?
    requires E.Emit(fmt, spec.tx, E.ContextOf(spec, spec.modulation.value), 1.0, 0) == E.Emitted(tx, rate)
    requires E.Emit(fmt, spec.rx, E.ContextOf(spec, spec.modulation.value), rate, E.RxIndex(tx, freqOffset != 0.0))
             == E.Emitted(rx, rate2)
    ensures E.Draw(fmt, spec, sampleRate, freqOffset)
            == E.Drawing(Document(FlowId(fmt, spec.id), AllBlocks(tx, rx, sampleRate, freqOffset),
                                  Wires(tx, rx, freqOffset != 0.0)))
  {
    hide E.Emit, FlowId, E.Links, E.Before, E.After;
  }

  lemma ShapedChains(spec: Spec)
    requires Valid(spec) && Shaped(spec)
    ensures var m, body := spec.modulation.value, spec.rx[..|spec.rx| - 1];
            spec.rx != [] && spec.rx[|spec.rx| - 1].Demod? && SpsOf(spec) != 0
            && DrawnChain(spec.tx, m) && DrawnChain(body, m) && E.ContextOf(spec, m).m == m
            && E.ContextOf(spec, m).sps == SpsOf(spec)
            && Mod(m) in spec.tx && Mod(m) !in body
  {
    var m, body := spec.modulation.value, spec.rx[..|spec.rx| - 1];
    PrefixPlaces(spec.rx, Complex, |body|);
    TypedChainIsDrawn(spec.tx, Bits, m);
    TypedChainIsDrawn(body, Complex, m);
  }

  /** Export followed by import, for every valid specification of the drawable shape: modulation and
      both chains come back, the settings a drawn block carries come back, the others take their
      defaults. */
  lemma TripIsNormal(fmt: Format, spec: Spec, sampleRate: real, freqOffset: real)
    requires Usable(fmt) && Valid(spec) && Shaped(spec)
    ensures Trip(fmt, spec, sampleRate, freqOffset) == Kept(Normal(fmt, spec))
  {
    ShapedChains(spec);
    FlowIdIsNormal(fmt, spec.id);
    hide E.Emit, AfterChain, ReadNodes, Path, FlowId, Valid, Shaped, Normal, I.Import, E.Links, I.Finish, Wires,
         AllBlocks, NumberedFrom, DrawnChain, Usable, E.Draw, Round6, E.ContextOf, E.RxIndex;
    var m, offset := spec.modulation.value, freqOffset != 0.0;
    var ctx, body := E.ContextOf(spec, m), spec.rx[..|spec.rx| - 1];
    ChainReadsBack(fmt, spec.tx, ctx, 1.0, 0, I.EMPTY);
    var e := E.Emit(fmt, spec.tx, ctx, 1.0, 0);
    var d1 := AfterChain(I.EMPTY, spec.tx, ctx);
    var d2 := d1.(onRx := true);
    DemodIsSkipped(fmt, spec.rx, ctx, e.rate, E.RxIndex(e.nodes, offset));
    ChainReadsBack(fmt, body, ctx, e.rate, E.RxIndex(e.nodes, offset), d2);
    var f := E.Emit(fmt, body, ctx, e.rate, E.RxIndex(e.nodes, offset));
    var d3 := AfterChain(d2, body, ctx);
    DrawShape(fmt, spec, sampleRate, freqOffset, e.nodes, e.rate, f.nodes, f.rate);
    ImportReadsThePath(FlowId(fmt, spec.id), e.nodes, f.nodes, sampleRate, freqOffset);
    PathReadsBack(e.nodes, f.nodes, offset, d1, d3);
    ReadDraftIsNormal(fmt, spec);
  }

  /** The draft read off both chains finishes as the normal form. */
  lemma ReadDraftIsNormal(fmt: Format, spec: Spec)
    requires Valid(spec) && Shaped(spec) && FlowId(fmt, spec.id) != ""
    ensures var ctx, body := E.ContextOf(spec, spec.modulation.value), spec.rx[..|spec.rx| - 1];
            var d1 := AfterChain(I.EMPTY, spec.tx, ctx);
            I.Finish(FlowId(fmt, spec.id), AfterChain(d1.(onRx := true), body, ctx)) == I.Loaded(Normal(fmt, spec))
  {
    ShapedChains(spec);
    hide AfterChain, FlowId, Valid, Shaped, Normal, I.Finish, DrawnChain, Round6;
    var ctx, body := E.ContextOf(spec, spec.modulation.value), spec.rx[..|spec.rx| - 1];
    var d1 := AfterChain(I.EMPTY, spec.tx, ctx);
    AfterChainClosed(I.EMPTY, spec.tx, ctx);
    AfterChainClosed(d1.(onRx := true), body, ctx);
    DraftIsNormal(fmt, spec, AfterChain(d1.(onRx := true), body, ctx));
  }

  lemma PrefixPlaces(chain: seq<Skill>, first: Dtype, n: nat)
    requires n <= |chain| && forall i :: 0 <= i < |chain| ==> PlaceOk(chain, first, i)
    ensures forall i :: 0 <= i < n ==> PlaceOk(chain[..n], first, i)
  {
    forall i | 0 <= i < n ensures PlaceOk(chain[..n], first, i) { assert PlaceOk(chain, first, i); }
  }

  lemma PathReadsBack(tx: seq<Node>, rx: seq<Node>, offset: bool, d1: I.Draft, d3: I.Draft)
    requires ReadNodes(I.EMPTY, tx) == I.Success(d1) && ReadNodes(d1.(onRx := true), rx) == I.Success(d3)
    ensures ReadNodes(I.EMPTY, Path(tx, rx, offset)) == I.Success(d3)
  {
    var rot := if offset then [E.ROTATOR] else [];
    ReadOne(I.EMPTY, E.SOURCE);
    ReadNodesConcat(I.EMPTY, [E.SOURCE], tx);
    ReadOne(d1, E.ROTATOR);
    ReadNodesConcat(I.EMPTY, [E.SOURCE] + tx, rot);
    assert ReadNodes(I.EMPTY, [E.SOURCE] + tx + rot) == I.Success(d1);
    ReadOne(d1, E.CHANNEL);
    ReadNodesConcat(I.EMPTY, [E.SOURCE] + tx + rot, [E.CHANNEL]);
    ReadNodesConcat(I.EMPTY, [E.SOURCE] + tx + rot + [E.CHANNEL], rx);
    ReadOne(d3, E.SINK);
    ReadNodesConcat(I.EMPTY, [E.SOURCE] + tx + rot + [E.CHANNEL] + rx, [E.SINK]);
    assert Path(tx, rx, offset) == [E.SOURCE] + tx + rot + [E.CHANNEL] + rx + [E.SINK];
  }

  lemma DraftIsNormal(fmt: Format, spec: Spec, d: I.Draft)
    requires Valid(spec) && Shaped(spec) && FlowId(fmt, spec.id) != ""
    requires var ctx, body := E.ContextOf(spec, spec.modulation.value), spec.rx[..|spec.rx| - 1];
             && d.tx == spec.tx && d.rx == body && d.modulation == spec.modulation
             && d.sps == (if PulseShape in body || PulseShape in spec.tx then Some(ctx.sps) else None)
             && d.rolloff == (if || PulseShape in body || MatchedFilter in body
                             || PulseShape in spec.tx || MatchedFilter in spec.tx
                              then Some(ctx.rolloff) else None)
             && d.bw == (if SymbolSync in body || SymbolSync in spec.tx then Some(Round6(ctx.timingBw)) else None)
    ensures I.Finish(FlowId(fmt, spec.id), d) == I.Loaded(Normal(fmt, spec))
  {
    NonEmptyChain(spec.rx, Complex, Bits);
    hide FlowId, Round6, ChainOk;
    var body, demod := spec.rx[..|spec.rx| - 1], Demod(spec.modulation.value);
    assert spec.rx == body + [demod];
    assert demod !in body;
    assert forall s :: s != demod ==> (s in spec.rx <==> s in body);
  }

  /** Which settings come back: samples per symbol exactly when a pulse-shaping block carries them or
      they are the default; excess bandwidth likewise with either filter; the loop bandwidth exactly
      when a synchronizer carries it, with six decimals. */
  lemma SettingsSurviveIff(fmt: Format, spec: Spec, sampleRate: real, freqOffset: real)
    requires Usable(fmt) && Valid(spec) && Shaped(spec)
    ensures Trip(fmt, spec, sampleRate, freqOffset).Kept?
    ensures var r := Trip(fmt, spec, sampleRate, freqOffset).value;
            && (SpsOf(r) == SpsOf(spec) <==> Uses(spec, PulseShape) || SpsOf(spec) == DEFAULT_SPS)
            && (RolloffOf(r) == RolloffOf(spec) <==>
                  Uses(spec, PulseShape) || Uses(spec, MatchedFilter) || RolloffOf(spec) == DEFAULT_ROLLOFF)
            && (r.loopBw.Some? <==> Uses(spec, SymbolSync))
            && (spec.loopBw.Some? && r.loopBw.Some? ==> r.loopBw.value == Round6(spec.loopBw.value))
  {
    TripIsNormal(fmt, spec, sampleRate, freqOffset);
    hide Trip, FlowId, Round6, Valid, Shaped, Usable;
  }

  /** The normal form is valid and keeps the shape. */
  lemma NormalIsValid(fmt: Format, spec: Spec)
    requires Valid(spec) && Shaped(spec)
    ensures Valid(Normal(fmt, spec)) && Shaped(Normal(fmt, spec))
  {
    hide ChainOk, FlowId, Round6;
  }

  /** A second round trip changes nothing. */
  lemma TripIsIdempotent(fmt: Format, spec: Spec, sampleRate: real, freqOffset: real)
    requires Usable(fmt) && Valid(spec) && Shaped(spec)
    ensures var once := Trip(fmt, spec, sampleRate, freqOffset);
            once.Kept? && Valid(once.value) && Trip(fmt, once.value, sampleRate, freqOffset) == once
  {
    TripIsNormal(fmt, spec, sampleRate, freqOffset);
    NormalIsValid(fmt, spec);
    TripIsNormal(fmt, Normal(fmt, spec), sampleRate, freqOffset);
    FlowIdIsNormal(fmt, spec.id);
    Round6IsNormal(if spec.loopBw.Some? then spec.loopBw.value else E.DEFAULT_BW);
    hide Trip, FlowId, Round6, Valid, Shaped;
  }

  /** Both chains of a valid specification survive the round trip exactly when it is of the drawable
      shape: the exporter drops every demodulator and the importer puts back one. */
  lemma ChainsSurviveIffShaped(fmt: Format, spec: Spec, sampleRate: real, freqOffset: real)
    requires Usable(fmt) && Valid(spec)
    ensures (Trip(fmt, spec, sampleRate, freqOffset).Kept?
             && Trip(fmt, spec, sampleRate, freqOffset).value.tx == spec.tx
             && Trip(fmt, spec, sampleRate, freqOffset).value.rx == spec.rx) <==> Shaped(spec)
  {
    hide Trip, Valid, Shaped, Normal;
    if Shaped(spec) {
      TripIsNormal(fmt, spec, sampleRate, freqOffset);
      NormalKeepsChains(fmt, spec);
    } else if Trip(fmt, spec, sampleRate, freqOffset).Kept? {
      TripsAreShaped(fmt, spec, sampleRate, freqOffset);
      ShapeIsInTheChains(spec, Trip(fmt, spec, sampleRate, freqOffset).value);
    }
  }

  lemma NormalKeepsChains(fmt: Format, spec: Spec)
    ensures Normal(fmt, spec).tx == spec.tx && Normal(fmt, spec).rx == spec.rx
  {
  }

  lemma TripsAreShaped(fmt: Format, spec: Spec, sampleRate: real, freqOffset: real)
    requires Trip(fmt, spec, sampleRate, freqOffset).Kept?
    ensures Shaped(Trip(fmt, spec, sampleRate, freqOffset).value)
  {
    hide E.Draw, I.Import, Shaped;
    I.ImportsAreShaped(E.Draw(fmt, spec, sampleRate, freqOffset).doc);
  }

  lemma ShapeIsInTheChains(a: Spec, b: Spec)
    ensures a.tx == b.tx && a.rx == b.rx ==> (Shaped(a) <==> Shaped(b))
  {
  }

  /** A specification that validation accepts and the round trip does not return: a demodulator in the middle. */
  const DEMODULATED_TWICE: Spec :=
    Spec("twice", Some(Bpsk), [Mod(Bpsk)], [Demod(Bpsk), Mod(Bpsk), Demod(Bpsk)], None, None, None)

  lemma MiddleDemodulatorIsLost(fmt: Format, sampleRate: real, freqOffset: real)
    requires Usable(fmt)
    ensures Valid(DEMODULATED_TWICE)
    ensures var trip := Trip(fmt, DEMODULATED_TWICE, sampleRate, freqOffset);
            !(trip.Kept? && trip.value.tx == DEMODULATED_TWICE.tx && trip.value.rx == DEMODULATED_TWICE.rx)
  {
    var s := DEMODULATED_TWICE;
    assert s.rx[..|s.rx| - 1][0] == Demod(Bpsk);
    assert !Shaped(s);
    assert Valid(s);
    hide Trip, Shaped, Valid;
    ChainsSurviveIffShaped(fmt, s, sampleRate, freqOffset);
  }
}
