/** The GNU Radio Companion document as gr_autopilot/flowgraph/grc_export.py writes it and
    grc_import.py reads it: named blocks, parameter texts, connections. */
module Companion {
  import opened Basics
  import opened Flowgraph

  /** A block name: a fixed word, or a stem with the running index of the exporter. */
  datatype Name = Fixed(word: string) | Numbered(stem: string, n: nat)

  datatype BlockId =
    | ChunksToSymbols
    | InterpFir
    | Fir
    | Sync
    | CostasLoop
    | Agc2
    | VectorSource
    | VectorSink
    | NoiseSource
    | Add
    | Rotator
    | Variable
    | NullSink
    | Throttle
    | OtherBlock(id: string)

  /** A parameter text, as the importer sees it: the numbers in it, and, where root_raised_cosine
      occurs, the numbers after its first occurrence. */
  datatype Text = Text(nums: seq<real>, rrc: Option<seq<real>>)

  function Number(x: real): Text { Text([x], None) }

  function Word(): Text { Text([], None) }

  datatype Node = Node(name: Name, id: BlockId, params: map<string, Text>)

  datatype Link = Link(src: Name, dst: Name, port: nat)

  datatype Document = Document(id: string, blocks: seq<Node>, links: seq<Link>)

  /** What the text formats of the source leave open: which characters count as letters and as
      alphanumeric, and the numbers of each constellation table, two per point. */
  datatype Format = Format(alpha: char -> bool, alnum: char -> bool, table: Modulation -> seq<real>)

  function Order(m: Modulation): nat {
    match m
    case Bpsk => 2
    case Qpsk => 4
    case Psk8 => 8
    case Qam16 => 16
    case Qam32 => 32
    case Qam64 => 64
    case Qam256 => 256
  }

  function ByOrder(n: int): Option<Modulation> {
    if n == 2 then Some(Bpsk) else if n == 4 then Some(Qpsk) else if n == 8 then Some(Psk8)
    else if n == 16 then Some(Qam16) else if n == 32 then Some(Qam32) else if n == 64 then Some(Qam64)
    else if n == 256 then Some(Qam256) else None
  }

  ghost predicate Usable(fmt: Format) {
    && fmt.alpha('f') && fmt.alnum('f') && fmt.alnum('g')
    && forall m :: |fmt.table(m)| == 2 * Order(m)
  }

  // ---- identifiers ---------------------------------------------------------------------

  function Cleaned(fmt: Format, id: string): (s: string)
    ensures |s| == |id|
  {
    seq(|id|, i requires 0 <= i < |id| => if fmt.alnum(id[i]) then id[i] else '_')
  }

  /** The flowgraph identifier: other characters become underscores, a letter comes first. */
  function FlowId(fmt: Format, id: string): string {
    var s := Cleaned(fmt, if id == "" then "flowgraph" else id);
    if s == "" || !fmt.alpha(s[0]) then "fg_" + s else s
  }

  /** Identifiers reach their normal form at the first export. */
  lemma FlowIdIsNormal(fmt: Format, id: string)
    requires Usable(fmt)
    ensures FlowId(fmt, id) != "" && FlowId(fmt, FlowId(fmt, id)) == FlowId(fmt, id)
  {
    var once := FlowId(fmt, id);
    assert forall i :: 0 <= i < |once| ==> once[i] == '_' || fmt.alnum(once[i]);
    assert Cleaned(fmt, once) == once;
  }

  // ---- six decimals ----------------------------------------------------------------------

  const MILLION: real := 1000000.0

  function Round6(x: real): real { RoundHalfEven(x * MILLION) as real / MILLION }

  lemma Round6IsNormal(x: real)
    ensures Round6(Round6(x)) == Round6(x)
  {
    var n := RoundHalfEven(x * MILLION);
    assert n as real / MILLION * MILLION == n as real;
    assert (n as real).Floor == n;
  }

  function Millionths(n: int): real { n as real / MILLION }

  /** Rounding moves a setting by at most half a millionth, and to a whole number of millionths. */
  lemma Round6IsNear(x: real)
    ensures -0.0000005 <= Round6(x) - x <= 0.0000005
    ensures exists n: int :: Round6(x) == Millionths(n)
  {
    var n := RoundHalfEven(x * MILLION);
    assert Round6(x) == Millionths(n);
    assert -0.5 <= n as real - x * MILLION <= 0.5;
  }

  /** An identifier that needs no change is left as it is; any other keeps its length, or grows by the prefix. */
  lemma FlowIdKeepsIdentifiers(fmt: Format, id: string)
    requires id != ""
    ensures fmt.alpha(id[0]) && (forall i :: 0 <= i < |id| ==> fmt.alnum(id[i])) ==> FlowId(fmt, id) == id
    ensures var s, n := FlowId(fmt, id), |FlowId(fmt, id)| - |id|;
            && (n == 0 || (n == 3 && s[..3] == "fg_"))
            && forall i :: 0 <= i < |id| ==> s[n + i] == if fmt.alnum(id[i]) then id[i] else '_'
  {
    assert (forall i :: 0 <= i < |id| ==> fmt.alnum(id[i])) ==> Cleaned(fmt, id) == id;
  }
}
