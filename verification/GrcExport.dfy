/** gr_autopilot/flowgraph/grc_export.py: drawing a specification as a Companion document. */
module GrcExport {
  import opened Basics
  import opened Flowgraph
  import opened ChainRates
  import opened Companion

  const DEFAULT_BW: real := 0.12566370614359174   // 2 * pi * 0.02
  const NTAPS_PER_SYMBOL: int := 8

  function ContextOf(spec: Spec, m: Modulation): Context {
    Context(m, SpsOf(spec), RolloffOf(spec), NTAPS_PER_SYMBOL,
            if spec.loopBw.Some? then spec.loopBw.value else DEFAULT_BW)
  }

  /** The taps expression: gain, samples per symbol, symbol rate, excess bandwidth, number of taps. */
  function TapsText(t: Taps): Text {
    var nums := [1.0, t.sps as real, 1.0, t.rolloff, t.ntaps as real];
    Text(nums, Some(nums))
  }

  predicate NamedModulator(name: string) { |name| >= 4 && name[|name| - 4..] == "_mod" }

  datatype Drawn = Refused | Skipped | Drawn(node: Node, rate: real)

  function Mapped(fmt: Format, ctx: Context, index: nat): Drawn {
    Drawn(Node(Numbered("mod", index), ChunksToSymbols, map["symbol_table" := Text(fmt.table(ctx.m), None)]), 1.0)
  }

  /** The Companion block of one skill. */
  function NodeFor(fmt: Format, skill: Skill, ctx: Context, cur: real, index: nat): Drawn {
    match skill
    case Mod(_) => Mapped(fmt, ctx, index)
    case PulseShape =>
      Drawn(Node(Numbered("pulse_shape", index), InterpFir,
                 map["interp" := Number(ctx.sps as real), "taps" := TapsText(TapsOf(ctx))]), ctx.sps as real)
    case MatchedFilter =>
      Drawn(Node(Numbered("matched_filter", index), Fir,
                 map["decim" := Number(Decimation(cur) as real), "taps" := TapsText(TapsOf(ctx))]),
            1.0 / Decimation(cur) as real)
    case SymbolSync =>
      Drawn(Node(Numbered("symbol_sync", index), Sync,
                 map["sps" := Number(SyncInput(cur)), "loop_bw" := Number(Round6(ctx.timingBw))]), 1.0 / SyncInput(cur))
    case Costas =>
      var order := if CostasOrder(ctx.m) == 0 then 4 else CostasOrder(ctx.m);
      Drawn(Node(Numbered("costas", index), CostasLoop, map["order" := Number(order as real)]), 1.0)
    case Agc => Drawn(Node(Numbered("agc", index), Agc2, map[]), 1.0)
    case Demod(_) => Skipped
    case Channel => Refused
    case Other(name) => if NamedModulator(name) then Mapped(fmt, ctx, index) else Refused
  }

  datatype Emitted = NotDrawn | Emitted(nodes: seq<Node>, rate: real)

  /** The nodes of a chain, numbered from `index`. */
  function Emit(fmt: Format, chain: seq<Skill>, ctx: Context, rate: real, index: nat): Emitted {
    if chain == [] then Emitted([], rate)
    else match Emit(fmt, chain[..|chain| - 1], ctx, rate, index)
      case NotDrawn => NotDrawn
      case Emitted(nodes, r) =>
        match NodeFor(fmt, chain[|chain| - 1], ctx, r, index + |nodes|)
        case Refused => NotDrawn
        case Skipped => Emitted(nodes, r)
        case Drawn(node, k) => Emitted(nodes + [node], r * k)
  }

  lemma {:induction false} NotDrawnStays(fmt: Format, chain: seq<Skill>, ctx: Context, rate: real, index: nat, n: nat)
    requires n <= |chain| && Emit(fmt, chain[..n], ctx, rate, index).NotDrawn?
    ensures Emit(fmt, chain, ctx, rate, index).NotDrawn?
  {
    if n < |chain| {
      assert chain[..|chain| - 1][..n] == chain[..n];
      NotDrawnStays(fmt, chain[..|chain| - 1], ctx, rate, index, n);
    } else {
      assert chain[..n] == chain;
    }
  }

  // ---- the document ------------------------------------------------------------------------

  const SOURCE: Node := Node(Fixed("payload_source"), VectorSource, map["vector" := Text([0.0, 1.0, 2.0, 3.0], None)])
  const ROTATOR: Node :=
    Node(Fixed("carrier_offset"), Rotator, map["phase_inc" := Text([2.0, 3.141592653589793], None)])
  const NOISE: Node := Node(Fixed("channel_noise"), NoiseSource, map[])
  const CHANNEL: Node := Node(Fixed("channel"), Add, map["num_inputs" := Number(2.0)])
  const SINK: Node := Node(Fixed("recovered_symbols"), VectorSink, map["reserve_items" := Number(1024.0)])

  function RateVariable(sampleRate: real): Node {
    Node(Fixed("samp_rate"), Variable, map["value" := Number(sampleRate)])
  }
  function OffsetVariable(freq: real): Node { Node(Fixed("freq_offset_hz"), Variable, map["value" := Number(freq)]) }

  /** Every node feeds the next. */
  function Links(path: seq<Node>): (links: seq<Link>)
  {
    if |path| <= 1 then []
    else Links(path[..|path| - 1]) + [Link(path[|path| - 2].name, path[|path| - 1].name, 0)]
  }

  /** The signal path up to the channel, and from it on. */
  function Before(tx: seq<Node>, offset: bool): seq<Node> {
    [SOURCE] + tx + (if offset then [ROTATOR] else []) + [CHANNEL]
  }

  function After(rx: seq<Node>): seq<Node> { [CHANNEL] + rx + [SINK] }

  function RxIndex(tx: seq<Node>, offset: bool): nat { |tx| + (if offset then 2 else 1) }

  datatype Result = Failed | Drawing(doc: Document)

  function Draw(fmt: Format, spec: Spec, sampleRate: real, freqOffset: real): Result {
    if spec.modulation.None? then Failed
    else
      var ctx := ContextOf(spec, spec.modulation.value);
      var offset := freqOffset != 0.0;
      match Emit(fmt, spec.tx, ctx, 1.0, 0)
      case NotDrawn => Failed
      case Emitted(tx, rate) =>
        match Emit(fmt, spec.rx, ctx, rate, RxIndex(tx, offset))
        case NotDrawn => Failed
        case Emitted(rx, _) =>
          Drawing(Document(FlowId(fmt, spec.id),
            [SOURCE] + tx + (if offset then [RateVariable(sampleRate), OffsetVariable(freqOffset), ROTATOR] else [])
              + [NOISE, CHANNEL] + rx + [SINK],
            Links(Before(tx, offset)) + [Link(NOISE.name, CHANNEL.name, 1)] + Links(After(rx))))
  }

  lemma EmitNothing(fmt: Format, chain: seq<Skill>, ctx: Context, rate: real, index: nat, prev: Name)
    ensures Emit(fmt, chain[..0], ctx, rate, index) == Emitted([], rate)
    ensures Chained(prev, []) == [] && LastName(prev, []) == prev
  {
  }

  lemma EmitNext(fmt: Format, chain: seq<Skill>, i: nat, ctx: Context, rate: real, index: nat)
    requires i < |chain| && Emit(fmt, chain[..i], ctx, rate, index).Emitted?
    ensures var before := Emit(fmt, chain[..i], ctx, rate, index);
            Emit(fmt, chain[..i + 1], ctx, rate, index)
            == match NodeFor(fmt, chain[i], ctx, before.rate, index + |before.nodes|)
               case Refused => NotDrawn
               case Skipped => before
               case Drawn(node, k) => Emitted(before.nodes + [node], before.rate * k)
  {
    hide NodeFor;
    assert chain[..i + 1][..i] == chain[..i];
  }

  /** Nodes in drawing order, each connected to the one before it. */
  method EmitChain(fmt: Format, chain: seq<Skill>, ctx: Context, rate: real, index: nat, prev: Name)
    returns (ok: bool, nodes: seq<Node>, links: seq<Link>, rateOut: real, last: Name)
    ensures ok <==> Emit(fmt, chain, ctx, rate, index).Emitted?
    ensures ok ==> Emit(fmt, chain, ctx, rate, index) == Emitted(nodes, rateOut)
                   && links == Chained(prev, nodes) && last == LastName(prev, nodes)
  {
    hide NodeFor, Emit, Chained;
    nodes, links, rateOut, last := [], [], rate, prev;
    EmitNothing(fmt, chain, ctx, rate, index, prev);
    for i := 0 to |chain|
      invariant Emit(fmt, chain[..i], ctx, rate, index) == Emitted(nodes, rateOut)
      invariant links == Chained(prev, nodes) && last == LastName(prev, nodes)
    {
      EmitNext(fmt, chain, i, ctx, rate, index);
      match NodeFor(fmt, chain[i], ctx, rateOut, index + |nodes|) {
        case Refused =>
          NotDrawnStays(fmt, chain, ctx, rate, index, i + 1);
          return false, [], [], rate, prev;
        case Skipped =>
        case Drawn(node, r) =>
          ChainedAppend(prev, nodes, node);
          nodes := nodes + [node];
          rateOut := rateOut * r;
          links := links + [Link(last, node.name, 0)];
          last := node.name;
      }
    }
    assert chain[..|chain|] == chain;
    return true, nodes, links, rateOut, last;
  }

  function LastName(prev: Name, nodes: seq<Node>): Name {
    if nodes == [] then prev else nodes[|nodes| - 1].name
  }

  /** The connections of nodes strung behind prev. */
  function Chained(prev: Name, nodes: seq<Node>): seq<Link> {
    if nodes == [] then []
    else Chained(prev, nodes[..|nodes| - 1]) + [Link(LastName(prev, nodes[..|nodes| - 1]), nodes[|nodes| - 1].name, 0)]
  }

  lemma {:induction false} LinksAreChained(first: Node, nodes: seq<Node>)
    ensures Links([first] + nodes) == Chained(first.name, nodes)
  {
    if nodes != [] {
      var path := [first] + nodes;
      assert path[..|path| - 1] == [first] + nodes[..|nodes| - 1];
      LinksAreChained(first, nodes[..|nodes| - 1]);
    }
  }

  lemma ChainedAppend(prev: Name, nodes: seq<Node>, x: Node)
    ensures Chained(prev, nodes + [x]) == Chained(prev, nodes) + [Link(LastName(prev, nodes), x.name, 0)]
  {
    assert (nodes + [x])[..|nodes|] == nodes;
  }

  /** The connections up to the channel, in the order they are made. */
  lemma LinksBefore(tx: seq<Node>, offset: bool)
    ensures Links(Before(tx, offset)) ==
              if offset
              then Chained(SOURCE.name, tx) + [Link(LastName(SOURCE.name, tx), ROTATOR.name, 0)]
                   + [Link(ROTATOR.name, CHANNEL.name, 0)]
              else Chained(SOURCE.name, tx) + [Link(LastName(SOURCE.name, tx), CHANNEL.name, 0)]
  {
    hide Links, Chained;
    var path := if offset then tx + [ROTATOR] else tx;
    ChainedAppend(SOURCE.name, tx, ROTATOR);
    ChainedAppend(SOURCE.name, path, CHANNEL);
    LinksAreChained(SOURCE, path + [CHANNEL]);
    assert Before(tx, offset) == [SOURCE] + (path + [CHANNEL]);
  }

  lemma LinksAfter(rx: seq<Node>)
    ensures Links(After(rx)) == Chained(CHANNEL.name, rx) + [Link(LastName(CHANNEL.name, rx), SINK.name, 0)]
  {
    hide Links, Chained;
    ChainedAppend(CHANNEL.name, rx, SINK);
    LinksAreChained(CHANNEL, rx + [SINK]);
    assert After(rx) == [CHANNEL] + (rx + [SINK]);
  }

  method BuildGrc(fmt: Format, spec: Spec, sampleRate: real, freqOffset: real) returns (r: Result)
    ensures r == Draw(fmt, spec, sampleRate, freqOffset)
  {
    hide Emit, Links, Chained, Before, After, LastName, FlowId;
    if spec.modulation.None? { return Failed; }
    var ctx := ContextOf(spec, spec.modulation.value);
    var offset := freqOffset != 0.0;
    var ok, txNodes, links, rate, prev := EmitChain(fmt, spec.tx, ctx, 1.0, 0, SOURCE.name);
    if !ok { return Failed; }
    LinksBefore(txNodes, offset);
    var nodes := [SOURCE] + txNodes;
    var index := |txNodes|;
    if offset {
      nodes := nodes + [RateVariable(sampleRate), OffsetVariable(freqOffset), ROTATOR];
      index := index + 1;
      links := links + [Link(prev, ROTATOR.name, 0)];
      prev := ROTATOR.name;
    }
    index := index + 1;
    nodes := nodes + [NOISE, CHANNEL];
    links := links + [Link(prev, CHANNEL.name, 0)];
    assert links == Links(Before(txNodes, offset));
    links := links + [Link(NOISE.name, CHANNEL.name, 1)];
    var ok2, rxNodes, rxLinks, _, last := EmitChain(fmt, spec.rx, ctx, rate, index, CHANNEL.name);
    if !ok2 { return Failed; }
    LinksAfter(rxNodes);
    nodes := nodes + rxNodes + [SINK];
    links := links + (rxLinks + [Link(last, SINK.name, 0)]);
    return Drawing(Document(FlowId(fmt, spec.id), nodes, links));
  }

  // ---- faithfulness --------------------------------------------------------------------------

  /** The drawn node carries the parameters the executed block was given; the loop bandwidth is
      written with six decimals. */
  ghost predicate Depicts(fmt: Format, node: Node, block: Block) {
    match block
    case Mapper(m) => node.id == ChunksToSymbols && node.params == map["symbol_table" := Text(fmt.table(m), None)]
    case Interpolator(k, t) =>
      node.id == InterpFir && node.params == map["interp" := Number(k as real), "taps" := TapsText(t)]
    case Decimator(k, t) => node.id == Fir && node.params == map["decim" := Number(k as real), "taps" := TapsText(t)]
    case Synchronizer(sps, bw) =>
      node.id == Sync && node.params == map["sps" := Number(sps), "loop_bw" := Number(Round6(bw))]
    case CarrierLoop(order) => node.id == CostasLoop && node.params == map["order" := Number(order as real)]
    case Gain => node.id == Agc2 && node.params == map[]
  }

  lemma NodeDepictsBlock(fmt: Format, skill: Skill, ctx: Context, cur: real, index: nat)
    requires !MakeBlock(skill, ctx, cur).Unsupported?
    ensures match MakeBlock(skill, ctx, cur)
            case Framework => NodeFor(fmt, skill, ctx, cur, index) == Skipped
            case Placed(block, rate) =>
              NodeFor(fmt, skill, ctx, cur, index).Drawn? && NodeFor(fmt, skill, ctx, cur, index).rate == rate
              && Depicts(fmt, NodeFor(fmt, skill, ctx, cur, index).node, block)
  {
    hide Decimation, SyncInput;
  }

  /** Whatever chain the executor accepts, the exporter draws: one node per executed block, in order,
      with the block's own parameters, and the same rate at every position. */
  lemma {:induction false} ExportIsFaithful(fmt: Format, chain: seq<Skill>, ctx: Context, start: real, index: nat)
    requires Chain(chain, ctx, start).Built?
    ensures var run, drawn := Chain(chain, ctx, start), Emit(fmt, chain, ctx, start, index);
            drawn.Emitted? && drawn.rate == run.rate && |drawn.nodes| == |run.blocks|
            && forall k :: 0 <= k < |run.blocks| ==> Depicts(fmt, drawn.nodes[k], run.blocks[k])
  {
    hide MakeBlock, NodeFor, Depicts;
    if chain != [] {
      var head, last := chain[..|chain| - 1], chain[|chain| - 1];
      ExportIsFaithful(fmt, head, ctx, start, index);
      var drawn := Emit(fmt, head, ctx, start, index);
      NodeDepictsBlock(fmt, last, ctx, drawn.rate, index + |drawn.nodes|);
    }
  }

  /** Skills that the exporter draws although the executor refuses them: a Costas loop over a constellation without a
      constant modulus, drawn with order 4, and any unregistered name that ends like a modulator's. */
  predicate DrawnOnly(s: Skill, m: Modulation) {
    (s.Costas? && CostasOrder(m) == 0) || (s.Other? && NamedModulator(s.name))
  }

  lemma OneSkillRuns(fmt: Format, skill: Skill, ctx: Context, cur: real, index: nat)
    ensures !MakeBlock(skill, ctx, cur).Unsupported? <==>
              !NodeFor(fmt, skill, ctx, cur, index).Refused? && !DrawnOnly(skill, ctx.m)
  {
    hide Decimation, SyncInput;
  }

  /** The exporter's promise that what it draws is what runs, made exact: a chain runs if and only if it is drawn and
      holds none of those skills. */
  lemma {:induction false} RunsIffDrawn(fmt: Format, chain: seq<Skill>, ctx: Context, start: real, index: nat)
    ensures Chain(chain, ctx, start).Built? <==>
              Emit(fmt, chain, ctx, start, index).Emitted?
              && forall i :: 0 <= i < |chain| ==> !DrawnOnly(chain[i], ctx.m)
  {
    if chain != [] {
      var head, last := chain[..|chain| - 1], chain[|chain| - 1];
      assert (forall i :: 0 <= i < |chain| ==> !DrawnOnly(chain[i], ctx.m))
        <==> (forall i :: 0 <= i < |head| ==> !DrawnOnly(head[i], ctx.m)) && !DrawnOnly(last, ctx.m) by {
        assert forall i :: 0 <= i < |head| ==> head[i] == chain[i];
      }
      hide MakeBlock, NodeFor, DrawnOnly;
      RunsIffDrawn(fmt, head, ctx, start, index);
      if Chain(head, ctx, start).Built? {
        ExportIsFaithful(fmt, head, ctx, start, index);
        var drawn := Emit(fmt, head, ctx, start, index);
        OneSkillRuns(fmt, last, ctx, drawn.rate, index + |drawn.nodes|);
      }
    }
  }

  /** The loop the executor runs has one order for every point of a constellation of constant modulus, and there is none
      for the others. */
  lemma CostasOrderIsPoints(m: Modulation)
    ensures CostasOrder(m) == if m.Bpsk? || m.Qpsk? || m.Psk8? then Order(m) else 0
  {
  }

  /** A carrier offset is drawn as a rotator in front of the channel, together with variables that hold the offset and
      the sample rate; the noise always goes into the channel's second input. */
  lemma OffsetIsDrawn(fmt: Format, spec: Spec, sampleRate: real, freqOffset: real)
    requires Draw(fmt, spec, sampleRate, freqOffset).Drawing?
    ensures var doc := Draw(fmt, spec, sampleRate, freqOffset).doc;
            && (freqOffset != 0.0 ==>
                  ROTATOR in doc.blocks && Link(ROTATOR.name, CHANNEL.name, 0) in doc.links
                  && Node(Fixed("freq_offset_hz"), Variable, map["value" := Number(freqOffset)]) in doc.blocks
                  && Node(Fixed("samp_rate"), Variable, map["value" := Number(sampleRate)]) in doc.blocks)
            && Link(NOISE.name, CHANNEL.name, 1) in doc.links
  {
    var ctx, offset := ContextOf(spec, spec.modulation.value), freqOffset != 0.0;
    var tx := Emit(fmt, spec.tx, ctx, 1.0, 0).nodes;
    LastLink([SOURCE] + tx, ROTATOR, CHANNEL);
    assert offset ==> Before(tx, offset) == [SOURCE] + tx + [ROTATOR] + [CHANNEL];
    hide Emit, Links;
  }

  lemma LastLink(path: seq<Node>, a: Node, b: Node)
    ensures Link(a.name, b.name, 0) in Links(path + [a] + [b])
  {
    assert (path + [a] + [b])[..|path| + 1] == path + [a];
  }

  /** The promise fails for a Costas loop over 16-QAM: it is drawn, with order 4, but does not run. */
  lemma CostasOverQamIsOnlyDrawn(fmt: Format, ctx: Context, cur: real)
    requires ctx.m == Qam16
    ensures var drawn := Emit(fmt, [Costas], ctx, cur, 0);
            drawn.Emitted? && |drawn.nodes| == 1 && drawn.nodes[0].params == map["order" := Number(4.0)]
            && Chain([Costas], ctx, cur).Rejected?
  {
    assert [Costas][..0] == [];
    assert Emit(fmt, [], ctx, cur, 0) == Emitted([], cur) && Chain([], ctx, cur) == Built([], cur);
  }
}
