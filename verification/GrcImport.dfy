/** gr_autopilot/flowgraph/grc_import.py: from a parsed Companion document back to a specification. */
module GrcImport {
  import opened Basics
  import opened Flowgraph
  import opened Companion

  type Table = map<Name, Node>

  /** The dictionary of blocks: a later block of the same name replaces an earlier one. */
  function Blocks(nodes: seq<Node>): Table {
    if nodes == [] then map[] else Blocks(nodes[..|nodes| - 1])[nodes[|nodes| - 1].name := nodes[|nodes| - 1]]
  }

  predicate IsNoise(blocks: Table, n: Name) { n in blocks && blocks[n].id == NoiseSource }

  /** The first connection out of each block that is not the noise generator. */
  function Outgoing(blocks: Table, links: seq<Link>): map<Name, Name> {
    if links == [] then map[]
    else
      var out, l := Outgoing(blocks, links[..|links| - 1]), links[|links| - 1];
      if IsNoise(blocks, l.src) || l.src in out then out else out[l.src := l.dst]
  }

  /** The blocks such a connection leads to. */
  function HasInput(blocks: Table, links: seq<Link>): set<Name> {
    if links == [] then {}
    else
      var l := links[|links| - 1];
      HasInput(blocks, links[..|links| - 1]) + (if IsNoise(blocks, l.src) then {} else {l.dst})
  }

  /** The first name in document order that satisfies the test. */
  function FirstStart(nodes: seq<Node>, blocks: Table, fed: set<Name>, sourcesOnly: bool): Option<Name> {
    if nodes == [] then None
    else
      var n := nodes[0].name;
      if n !in fed && n in blocks && (!sourcesOnly || blocks[n].id == VectorSource) then Some(n)
      else FirstStart(nodes[1..], blocks, fed, sourcesOnly)
  }

  /** A payload source nothing feeds, or failing that any block nothing feeds. */
  function StartOf(doc: Document): Option<Name> {
    var blocks := Blocks(doc.blocks);
    var fed := HasInput(blocks, doc.links);
    var source := FirstStart(doc.blocks, blocks, fed, true);
    if source.Some? then source else FirstStart(doc.blocks, blocks, fed, false)
  }

  /** The names met from node on, until the wiring ends or returns to a name already met. */
  function Walk(out: map<Name, Name>, node: Option<Name>, seen: set<Name>): seq<Name>
    decreases |out.Keys - seen|, node.Some?
  {
    if node.None? || node.value in seen then []
    else if node.value !in out then [node.value]
    else
      assert out.Keys - (seen + {node.value}) < out.Keys - seen;
      SmallerSet(out.Keys - (seen + {node.value}), out.Keys - seen);
      [node.value] + Walk(out, Some(out[node.value]), seen + {node.value})
  }

  method OrderedChain(doc: Document) returns (ok: bool, order: seq<Name>)
    ensures ok <==> StartOf(doc).Some?
    ensures ok ==> order == Walk(Outgoing(Blocks(doc.blocks), doc.links), StartOf(doc), {})
  {
    hide Blocks, Outgoing, HasInput, FirstStart;
    var blocks := Blocks(doc.blocks);
    var out := Outgoing(blocks, doc.links);
    var start := StartOf(doc);
    if start.None? { return false, []; }
    order := [];
    var seen: set<Name>, node := {}, start;
    while node.Some? && node.value !in seen
      invariant order + Walk(out, node, seen) == Walk(out, start, {})
      decreases |out.Keys - seen|, node.Some?
    {
      var n := node.value;
      if n in out { SmallerSet(out.Keys - (seen + {n}), out.Keys - seen); }
      assert out.Keys - (seen + {n}) <= out.Keys - seen;
      if n !in out { assert out.Keys - (seen + {n}) == out.Keys - seen; }
      order := order + [n];
      seen := seen + {n};
      node := if n in out then Some(out[n]) else None;
    }
    return true, order;
  }

  // ---- reading one block ---------------------------------------------------------------

  datatype Draft = Draft(tx: seq<Skill>, rx: seq<Skill>, onRx: bool, modulation: Option<Modulation>,
                         sps: Option<int>, rolloff: Option<real>, bw: Option<real>)

  datatype Error = NoStart | MissingBlock | UnsupportedBlock(name: Name) | BadConstellation(points: int) | NoMapper

  datatype Read = Failure(error: Error) | Success(draft: Draft)

  function AppendSkill(d: Draft, s: Skill): Draft {
    if d.onRx then d.(rx := d.rx + [s]) else d.(tx := d.tx + [s])
  }

  function TextOf(n: Node, key: string): Text { if key in n.params then n.params[key] else Word() }

  /** int(x): towards zero. */
  function Trunc(x: real): int { if x >= 0.0 then x.Floor else -((-x).Floor) }

  /** Samples per symbol and excess bandwidth of a taps expression with at least four numbers. */
  function RrcParams(t: Text): Option<(int, real)> {
    if t.rrc.None? || |t.rrc.value| < 4 then None else Some((Trunc(t.rrc.value[1]), t.rrc.value[3]))
  }

  function ReadPulseShape(d: Draft, n: Node): Draft {
    var rrc := RrcParams(TextOf(n, "taps"));
    var fromTaps := if rrc.Some? then rrc.value.0 else 0;
    var interp := TextOf(n, "interp").nums;
    var sps := if interp != [] then Trunc(interp[0]) else fromTaps;
    var d1 := if sps != 0 then d.(sps := Some(sps)) else d;
    var d2 := if rrc.Some? then d1.(rolloff := Some(rrc.value.1)) else d1;
    AppendSkill(d2, PulseShape)
  }

  function ReadMatchedFilter(d: Draft, n: Node): Draft {
    var rrc := RrcParams(TextOf(n, "taps"));
    AppendSkill(if rrc.Some? && d.rolloff.None? then d.(rolloff := Some(rrc.value.1)) else d, MatchedFilter)
  }

  function ReadSync(d: Draft, n: Node): Draft {
    var bw := TextOf(n, "loop_bw").nums;
    AppendSkill(if bw != [] then d.(bw := Some(bw[0])) else d, SymbolSync)
  }

  function ReadBlock(d: Draft, n: Node): Read {
    match n.id
    case Add => Success(d.(onRx := true))
    case VectorSource => Success(d)
    case VectorSink => Success(d)
    case NoiseSource => Success(d)
    case Rotator => Success(d)
    case Variable => Success(d)
    case NullSink => Success(d)
    case Throttle => Success(d)
    case ChunksToSymbols =>
      var points := |TextOf(n, "symbol_table").nums| / 2;
      var m := ByOrder(points);
      if m.None? then Failure(BadConstellation(points))
      else Success(AppendSkill(d.(modulation := m), Mod(m.value)))
    case InterpFir => Success(ReadPulseShape(d, n))
    case Fir => Success(ReadMatchedFilter(d, n))
    case Sync => Success(ReadSync(d, n))
    case CostasLoop => Success(AppendSkill(d, Costas))
    case Agc2 => Success(AppendSkill(d, Agc))
    case OtherBlock(_) => Failure(UnsupportedBlock(n.name))
  }

  /** The blocks named in the order given, read one after the other. */
  function ReadAll(d: Draft, blocks: Table, order: seq<Name>): Read {
    if order == [] then Success(d)
    else match ReadAll(d, blocks, order[..|order| - 1])
      case Failure(e) => Failure(e)
      case Success(d1) =>
        var n := order[|order| - 1];
        if n !in blocks then Failure(MissingBlock) else ReadBlock(d1, blocks[n])
  }

  const EMPTY: Draft := Draft([], [], false, None, None, None, None)

  datatype Result = Refused(error: Error) | Loaded(spec: Spec)

  /** The demodulator is not drawn, so it is put back; settings not found take the defaults. */
  function Finish(id: string, d: Draft): Result {
    if d.modulation.None? then Refused(NoMapper)
    else
      var demod := Demod(d.modulation.value);
      var rx := if demod in d.rx then d.rx else d.rx + [demod];
      Loaded(Spec(id, d.modulation, d.tx, rx,
                  Some(if d.sps.Some? then d.sps.value else DEFAULT_SPS),
                  Some(if d.rolloff.Some? then d.rolloff.value else DEFAULT_ROLLOFF), d.bw))
  }

  function Import(doc: Document): Result {
    if StartOf(doc).None? then Refused(NoStart)
    else
      var blocks := Blocks(doc.blocks);
      match ReadAll(EMPTY, blocks, Walk(Outgoing(blocks, doc.links), StartOf(doc), {}))
      case Failure(e) => Refused(e)
      case Success(d) => Finish(if doc.id == "" then "imported" else doc.id, d)
  }

  lemma {:induction false} FailureStays(d: Draft, blocks: Table, order: seq<Name>, n: nat)
    requires n <= |order| && ReadAll(d, blocks, order[..n]).Failure?
    ensures ReadAll(d, blocks, order) == ReadAll(d, blocks, order[..n])
  {
    hide ReadBlock;
    if n < |order| {
      assert order[..|order| - 1][..n] == order[..n];
      FailureStays(d, blocks, order[..|order| - 1], n);
    } else {
      assert order[..n] == order;
    }
  }

  method LoadGrc(doc: Document) returns (r: Result)
    ensures r == Import(doc)
  {
    hide ReadBlock, Walk, Blocks, Outgoing, StartOf;
    var blocks := Blocks(doc.blocks);
    var ok, order := OrderedChain(doc);
    if !ok { return Refused(NoStart); }
    var d := EMPTY;
    for i := 0 to |order|
      invariant ReadAll(EMPTY, blocks, order[..i]) == Success(d)
    {
      assert order[..i + 1][..i] == order[..i];
      if order[i] !in blocks {
        FailureStays(EMPTY, blocks, order, i + 1);
        return Refused(MissingBlock);
      }
      match ReadBlock(d, blocks[order[i]]) {
        case Failure(e) =>
          FailureStays(EMPTY, blocks, order, i + 1);
          return Refused(e);
        case Success(next) => d := next;
      }
    }
    assert order[..|order|] == order;
    return Finish(if doc.id == "" then "imported" else doc.id, d);
  }

  // ---- what any import looks like ----------------------------------------------------------

  lemma AppendedDrawsNoDemod(d: Draft, s: Skill)
    requires NoDemod(d.tx) && NoDemod(d.rx) && !s.Demod?
    ensures NoDemod(AppendSkill(d, s).tx) && NoDemod(AppendSkill(d, s).rx)
  {
  }

  lemma ReadBlockDrawsNoDemod(d: Draft, n: Node)
    requires NoDemod(d.tx) && NoDemod(d.rx) && ReadBlock(d, n).Success?
    ensures NoDemod(ReadBlock(d, n).draft.tx) && NoDemod(ReadBlock(d, n).draft.rx)
  {
    hide AppendSkill, NoDemod;
    forall x: Draft, s: Skill | NoDemod(x.tx) && NoDemod(x.rx) && !s.Demod?
      ensures NoDemod(AppendSkill(x, s).tx) && NoDemod(AppendSkill(x, s).rx)
    {
      AppendedDrawsNoDemod(x, s);
    }
  }

  lemma {:induction false} ReadAllDrawsNoDemod(d: Draft, blocks: Table, order: seq<Name>)
    requires NoDemod(d.tx) && NoDemod(d.rx) && ReadAll(d, blocks, order).Success?
    ensures NoDemod(ReadAll(d, blocks, order).draft.tx) && NoDemod(ReadAll(d, blocks, order).draft.rx)
  {
    hide ReadBlock, NoDemod;
    if order != [] {
      ReadAllDrawsNoDemod(d, blocks, order[..|order| - 1]);
      ReadBlockDrawsNoDemod(ReadAll(d, blocks, order[..|order| - 1]).draft, blocks[order[|order| - 1]]);
    }
  }

  /** Whatever the document, an imported specification has exactly one demodulator: the last receive stage. */
  lemma ImportsAreShaped(doc: Document)
    requires Import(doc).Loaded?
    ensures var s := Import(doc).spec;
            Shaped(s) && s.modulation.Some? && s.rx != [] && s.rx[|s.rx| - 1] == Demod(s.modulation.value)
  {
    hide Walk, Blocks, Outgoing, StartOf, ReadAll;
    var blocks := Blocks(doc.blocks);
    var order := Walk(Outgoing(blocks, doc.links), StartOf(doc), {});
    ReadAllDrawsNoDemod(EMPTY, blocks, order);
    var d := ReadAll(EMPTY, blocks, order).draft;
    assert Demod(d.modulation.value) !in d.rx;
    assert (d.rx + [Demod(d.modulation.value)])[..|d.rx|] == d.rx;
  }

  /** What an operator edits into the drawing is what is read: an interpolation overrides the samples per symbol of
      the taps, an excess bandwidth read before overrides the matched filter's, a loop bandwidth is taken as it is. */
  lemma EditsAreRead(d: Draft, n: Node, x: real)
    ensures n.id == InterpFir && TextOf(n, "interp").nums != [] && TextOf(n, "interp").nums[0] == x && Trunc(x) != 0 ==>
              ReadBlock(d, n).Success? && ReadBlock(d, n).draft.sps == Some(Trunc(x))
    ensures n.id == Fir && d.rolloff.Some? ==> ReadBlock(d, n).Success? && ReadBlock(d, n).draft.rolloff == d.rolloff
    ensures n.id == Sync && TextOf(n, "loop_bw").nums != [] && TextOf(n, "loop_bw").nums[0] == x ==>
              ReadBlock(d, n).Success? && ReadBlock(d, n).draft.bw == Some(x)
  {
    hide Trunc;
  }

  /** Numbers are cut towards zero, as the source's conversion does. */
  lemma TruncTowardsZero(x: real)
    ensures Abs(x) - 1.0 < Abs(Trunc(x) as real) <= Abs(x)
    ensures x > 0.0 ==> Trunc(x) >= 0
    ensures x < 0.0 ==> Trunc(x) <= 0
  {
  }

  /** Instruments that an operator adds along the path, and the ends of the path, change nothing that is read. */
  lemma InstrumentsAreIgnored(d: Draft, n: Node)
    requires n.id in {VectorSource, VectorSink, NoiseSource, Rotator, Variable, NullSink, Throttle}
    ensures ReadBlock(d, n) == Success(d)
  {
  }

  /** A block the importer does not know, or a mapper with a table of no known size. */
  predicate Foreign(n: Node) {
    n.id.OtherBlock? || (n.id.ChunksToSymbols? && ByOrder(|TextOf(n, "symbol_table").nums| / 2).None?)
  }

  /** One such block anywhere on the path refuses the whole document: nothing is guessed. */
  lemma ForeignBlockRefuses(d: Draft, blocks: Table, order: seq<Name>, i: nat)
    requires i < |order| && order[i] in blocks && Foreign(blocks[order[i]])
    ensures ReadAll(d, blocks, order).Failure?
  {
    assert order[..i + 1][..i] == order[..i];
    assert ReadAll(d, blocks, order[..i + 1]).Failure?;
    FailureStays(d, blocks, order, i + 1);
  }

  lemma {:induction false} NoMapperNoModulation(d: Draft, blocks: Table, order: seq<Name>)
    requires forall i :: 0 <= i < |order| && order[i] in blocks ==> !blocks[order[i]].id.ChunksToSymbols?
    requires ReadAll(d, blocks, order).Success?
    ensures ReadAll(d, blocks, order).draft.modulation == d.modulation
  {
    if order != [] { NoMapperNoModulation(d, blocks, order[..|order| - 1]); }
  }

  lemma {:induction false} BlockOf(nodes: seq<Node>, x: Name) returns (i: nat)
    requires x in Blocks(nodes)
    ensures i < |nodes| && Blocks(nodes)[x] == nodes[i]
  {
    i := |nodes| - 1;
    if x != nodes[i].name { i := BlockOf(nodes[..i], x); }
  }

  /** A document whose path holds no constellation mapper is refused. */
  lemma NoMapperIsRefused(doc: Document)
    requires forall i :: 0 <= i < |doc.blocks| ==> !doc.blocks[i].id.ChunksToSymbols?
    ensures Import(doc).Refused?
  {
    hide Blocks, ReadAll, Walk, Outgoing, StartOf;
    var blocks := Blocks(doc.blocks);
    if StartOf(doc).Some? {
      var order := Walk(Outgoing(blocks, doc.links), StartOf(doc), {});
      forall k | 0 <= k < |order| && order[k] in blocks ensures !blocks[order[k]].id.ChunksToSymbols? {
        var i := BlockOf(doc.blocks, order[k]);
      }
      if ReadAll(EMPTY, blocks, order).Success? { NoMapperNoModulation(EMPTY, blocks, order); }
    }
  }

  // ---- the walk ----------------------------------------------------------------------------------------

  /** The first wire out of a block that is no noise generator is the one that is followed, and there is no other. */
  lemma {:induction false} FirstWireLeads(blocks: Table, links: seq<Link>, x: Name, k: nat)
    requires k < |links| && links[k].src == x && !IsNoise(blocks, x) && forall j :: 0 <= j < k ==> links[j].src != x
    ensures x in Outgoing(blocks, links) && Outgoing(blocks, links)[x] == links[k].dst
  {
    hide IsNoise;
    if k < |links| - 1 {
      FirstWireLeads(blocks, links[..|links| - 1], x, k);
    } else {
      NoWireYet(blocks, links[..k], x);
    }
  }

  lemma {:induction false} NoWireYet(blocks: Table, links: seq<Link>, x: Name)
    requires IsNoise(blocks, x) || forall j :: 0 <= j < |links| ==> links[j].src != x
    ensures x !in Outgoing(blocks, links)
  {
    hide IsNoise;
    if links != [] { NoWireYet(blocks, links[..|links| - 1], x); }
  }

  /** Nothing that can be started from stands before the one found. */
  lemma {:induction false} FirstStartIsFirst(nodes: seq<Node>, blocks: Table, fed: set<Name>, sourcesOnly: bool)
    ensures match FirstStart(nodes, blocks, fed, sourcesOnly)
            case None => forall k :: 0 <= k < |nodes| ==> !CanStart(nodes[k].name, blocks, fed, sourcesOnly)
            case Some(n) =>
              exists k :: 0 <= k < |nodes| && nodes[k].name == n && CanStart(n, blocks, fed, sourcesOnly)
                          && forall j :: 0 <= j < k ==> !CanStart(nodes[j].name, blocks, fed, sourcesOnly)
  {
    if nodes != [] && !CanStart(nodes[0].name, blocks, fed, sourcesOnly) {
      FirstStartIsFirst(nodes[1..], blocks, fed, sourcesOnly);
      var start := FirstStart(nodes[1..], blocks, fed, sourcesOnly);
      hide CanStart;
      if start.Some? {
        var k :| 0 <= k < |nodes[1..]| && nodes[1..][k].name == start.value
                 && CanStart(start.value, blocks, fed, sourcesOnly)
                 && forall j :: 0 <= j < k ==> !CanStart(nodes[1..][j].name, blocks, fed, sourcesOnly);
        forall j | 0 <= j < k + 1 ensures !CanStart(nodes[j].name, blocks, fed, sourcesOnly) {
          if j > 0 { assert nodes[1..][j - 1] == nodes[j]; }
        }
        assert nodes[k + 1].name == start.value;
      } else {
        forall k | 0 <= k < |nodes| ensures !CanStart(nodes[k].name, blocks, fed, sourcesOnly) {
          if k > 0 { assert nodes[1..][k - 1] == nodes[k]; }
        }
      }
    }
  }

  /** Nothing feeds the block, and it is a payload source if it has to be. */
  predicate CanStart(n: Name, blocks: Table, fed: set<Name>, sourcesOnly: bool) {
    n !in fed && n in blocks && (!sourcesOnly || blocks[n].id == VectorSource)
  }

  /** The walk starts where it is told, goes along the wires, meets no block twice, and only ends where the wiring does
      or comes back to a block it has met. */
  lemma {:induction false} WalkIsAPath(out: map<Name, Name>, start: Name, seen: set<Name>)
    requires start !in seen
    ensures var w := Walk(out, Some(start), seen);
            && w != [] && w[0] == start
            && (forall i :: 0 <= i < |w| ==> w[i] !in seen)
            && (forall i :: 0 <= i < |w| - 1 ==> w[i] in out && out[w[i]] == w[i + 1])
            && (forall i, j :: 0 <= i < j < |w| ==> w[i] != w[j])
            && (w[|w| - 1] in out ==> out[w[|w| - 1]] in seen || out[w[|w| - 1]] in w)
    decreases |out.Keys - seen|
  {
    if start in out && out[start] !in seen + {start} {
      assert out.Keys - (seen + {start}) < out.Keys - seen;
      SmallerSet(out.Keys - (seen + {start}), out.Keys - seen);
      WalkIsAPath(out, out[start], seen + {start});
    }
  }
}
