/** The add-compare-select recursion shared by the hard and the soft decoder of
    gr_autopilot/coding.py, over real branch weights, with the finite "unreached" sentinel of
    the source kept as a parameter. */
module Viterbi {
  import opened Basics
  import opened Trellis

  /** What deciding 0 or 1 costs at one coded position. */
  datatype Weight = Weight(zero: real, one: real) {
    function Of(c: Bit): real { if c == 0 then zero else one }
    /** The larger of the two costs, at least 0. */
    function Worst(): real {
      var m := if zero < one then one else zero;
      if 0.0 < m then m else 0.0
    }
  }

  /** The slice [:n] of the source: everything when n is past the end. */
  function Prefix<T>(p: seq<T>, n: nat): seq<T> {
    if n <= |p| then p[..n] else p
  }

  function At(w: seq<Weight>, i: nat): Weight {
    if i < |w| then w[i] else Weight(0.0, 0.0)
  }

  /** Input i of a path; outside the path the register holds zeros. */
  function Tap(p: seq<Bit>, i: int): Bit {
    if 0 <= i < |p| then p[i] else 0
  }

  /** The memory before input t: the two previous inputs. */
  function StateAt(p: seq<Bit>, t: nat): State {
    2 * Tap(p, t - 1) + Tap(p, t - 2)
  }

  /** Cost of leaving state s with input b at step t. */
  function BranchCost(w: seq<Weight>, t: nat, s: State, b: Bit): real {
    At(w, 2 * t).Of(Out(s, b, 0)) + At(w, 2 * t + 1).Of(Out(s, b, 1))
  }

  function WorstBranch(w: seq<Weight>, t: nat): real {
    At(w, 2 * t).Worst() + At(w, 2 * t + 1).Worst()
  }

  /** Cost of the first t steps of the path driven by the inputs p. */
  function PathCost(w: seq<Weight>, p: seq<Bit>, t: nat): real {
    if t == 0 then 0.0 else PathCost(w, p, t - 1) + BranchCost(w, t - 1, StateAt(p, t - 1), Tap(p, t - 1))
  }

  /** An upper bound on the cost of any path of t steps. */
  function Mass(w: seq<Weight>, t: nat): real {
    if t == 0 then 0.0 else Mass(w, t - 1) + WorstBranch(w, t - 1)
  }

  // ---- one step of the decoder -------------------------------------------------

  /** One metric per trellis state. */
  datatype Metrics = Metrics(m0: real, m1: real, m2: real, m3: real) {
    function Of(s: State): real { if s == 0 then m0 else if s == 1 then m1 else if s == 2 then m2 else m3 }
  }

  /** The survivor kept for one state: its metric, the input taken and where it came from. */
  datatype Cell = Cell(metric: real, bit: Bit, from: State)

  function Fresh(inf: real): Cell { Cell(inf, 0, 0) }

  function Relax(cell: Cell, pm: Metrics, w: seq<Weight>, inf: real, t: nat, s: State, b: Bit): Cell {
    var cand := pm.Of(s) + BranchCost(w, t, s, b);
    if pm.Of(s) < inf && cand < cell.metric then Cell(cand, b, s) else cell
  }

  /** The lower-numbered of the two states with a branch into ns; the other one is its successor. */
  function FirstSource(ns: State): State { 2 * Low(ns) }
  function SecondSource(ns: State): State { 2 * Low(ns) + 1 }

  /** Only two branches enter state ns, both with input High(ns); the first source wins ties. */
  function Survivor(pm: Metrics, w: seq<Weight>, inf: real, t: nat, ns: State): Cell {
    Relax(Relax(Fresh(inf), pm, w, inf, t, FirstSource(ns), High(ns)), pm, w, inf, t, SecondSource(ns), High(ns))
  }

  predicate Visited(source: State, input: Bit, s: int, b: int) {
    source < s || (source == s && input < b)
  }

  /** The cell of ns when the nested loops over states and inputs are about to visit (s, b). */
  function Partial(pm: Metrics, w: seq<Weight>, inf: real, t: nat, ns: State, s: int, b: int): Cell {
    if !Visited(FirstSource(ns), High(ns), s, b) then Fresh(inf)
    else if !Visited(SecondSource(ns), High(ns), s, b) then
      Relax(Fresh(inf), pm, w, inf, t, FirstSource(ns), High(ns))
    else Survivor(pm, w, inf, t, ns)
  }

  /** Branches enter a state only from its two sources and only with its newer bit. */
  lemma BranchesInto(s: State, b: Bit, ns: State)
    ensures Next(s, b) == ns <==> b == High(ns) && (s == FirstSource(ns) || s == SecondSource(ns))
  {
    assert s == 2 * High(s) + Low(s) && ns == 2 * High(ns) + Low(ns);
    hide High, Low;
  }

  /** Visiting (s, b) relaxes the cell of its target and leaves the others alone. */
  lemma PairRelaxesItsTarget(pm: Metrics, w: seq<Weight>, inf: real, t: nat, s: State, b: Bit, ns: State)
    ensures Partial(pm, w, inf, t, ns, s, b + 1)
         == if ns == Next(s, b) then Relax(Partial(pm, w, inf, t, ns, s, b), pm, w, inf, t, s, b)
            else Partial(pm, w, inf, t, ns, s, b)
  {
    hide Relax, Next;
    BranchesInto(s, b, ns);
  }

  /** A state the loop skips would have changed nothing. */
  lemma SkippedState(pm: Metrics, w: seq<Weight>, inf: real, t: nat, s: State, ns: State)
    requires pm.Of(s) >= inf
    ensures Partial(pm, w, inf, t, ns, s + 1, 0) == Partial(pm, w, inf, t, ns, s, 0)
  {
    hide BranchCost;
    NextState(pm, w, inf, t, s, ns);
    PairRelaxesItsTarget(pm, w, inf, t, s, 0, ns);
    PairRelaxesItsTarget(pm, w, inf, t, s, 1, ns);
  }

  lemma NextState(pm: Metrics, w: seq<Weight>, inf: real, t: nat, s: State, ns: State)
    ensures Partial(pm, w, inf, t, ns, s + 1, 0) == Partial(pm, w, inf, t, ns, s, 2)
  {
    hide Relax, Survivor;
  }

  lemma FirstAndLastPair(pm: Metrics, w: seq<Weight>, inf: real, t: nat, ns: State)
    ensures Partial(pm, w, inf, t, ns, 0, 0) == Fresh(inf)
    ensures Partial(pm, w, inf, t, ns, 4, 0) == Survivor(pm, w, inf, t, ns)
  {
    hide Relax, Survivor;
  }

  function Advance(pm: Metrics, w: seq<Weight>, inf: real, t: nat): Metrics {
    Metrics(Survivor(pm, w, inf, t, 0).metric, Survivor(pm, w, inf, t, 1).metric,
            Survivor(pm, w, inf, t, 2).metric, Survivor(pm, w, inf, t, 3).metric)
  }

  /** Path metrics after t steps; only state 0 is reached at the start. */
  function MetricsAt(w: seq<Weight>, inf: real, t: nat): Metrics {
    if t == 0 then Metrics(0.0, inf, inf, inf) else Advance(MetricsAt(w, inf, t - 1), w, inf, t - 1)
  }

  /** The cell the decoder records for state ns at step t. */
  function CellAt(w: seq<Weight>, inf: real, t: nat, ns: State): Cell {
    Survivor(MetricsAt(w, inf, t), w, inf, t, ns)
  }

  lemma MetricOfCell(w: seq<Weight>, inf: real, t: nat, ns: State)
    ensures MetricsAt(w, inf, t + 1).Of(ns) == CellAt(w, inf, t, ns).metric
  {
    hide Survivor;
  }

  lemma MetricsFromCells(w: seq<Weight>, inf: real, t: nat)
    ensures MetricsAt(w, inf, 0) == Metrics(0.0, inf, inf, inf)
    ensures MetricsAt(w, inf, t + 1) == Metrics(CellAt(w, inf, t, 0).metric, CellAt(w, inf, t, 1).metric,
                                                CellAt(w, inf, t, 2).metric, CellAt(w, inf, t, 3).metric)
    ensures forall ns: State :: CellAt(w, inf, t, ns) == Survivor(MetricsAt(w, inf, t), w, inf, t, ns)
  {
    hide Survivor;
  }

  /** The inputs read back from state s after t steps. */
  function Trace(w: seq<Weight>, inf: real, t: nat, s: State): (p: seq<Bit>)
    ensures |p| == t
  {
    if t == 0 then []
    else Trace(w, inf, t - 1, CellAt(w, inf, t - 1, s).from) + [CellAt(w, inf, t - 1, s).bit]
  }

  /** What both decoders compute: traceback from the flushed zero state. */
  function Decode(w: seq<Weight>, inf: real): (p: seq<Bit>)
    ensures |p| == |w| / 2
  {
    Trace(w, inf, |w| / 2, 0)
  }

  // ---- optimality --------------------------------------------------------------

  lemma {:induction false} PathCostPrefix(w: seq<Weight>, p: seq<Bit>, q: seq<Bit>, t: nat)
    requires forall i :: 0 <= i < t ==> Tap(p, i) == Tap(q, i)
    ensures PathCost(w, p, t) == PathCost(w, q, t)
  {
    hide BranchCost;
    if t > 0 { PathCostPrefix(w, p, q, t - 1); }
  }

  lemma BranchBelowWorst(w: seq<Weight>, t: nat, s: State, b: Bit)
    ensures BranchCost(w, t, s, b) <= WorstBranch(w, t)
  {
    hide Out;
  }

  lemma {:induction false} CostBelowMass(w: seq<Weight>, p: seq<Bit>, t: nat)
    ensures PathCost(w, p, t) <= Mass(w, t)
  {
    hide BranchCost, WorstBranch, StateAt, Tap;
    if t > 0 {
      CostBelowMass(w, p, t - 1);
      BranchBelowWorst(w, t - 1, StateAt(p, t - 1), Tap(p, t - 1));
    }
  }

  lemma MassGrows(w: seq<Weight>, t: nat)
    ensures Mass(w, t) <= Mass(w, t + 1)
  {
  }

  lemma StateStep(p: seq<Bit>, t: nat)
    ensures StateAt(p, t + 1) == Next(StateAt(p, t), Tap(p, t))
  {
  }

  lemma CheaperSource(pm: Metrics, w: seq<Weight>, inf: real, t: nat, s: State, b: Bit, bound: real)
    requires pm.Of(s) <= bound < inf && bound + BranchCost(w, t, s, b) < inf
    ensures Survivor(pm, w, inf, t, Next(s, b)).metric <= bound + BranchCost(w, t, s, b)
  {
    hide BranchCost, Next;
    BranchesInto(s, b, Next(s, b));
  }

  lemma SurvivorIsABranch(pm: Metrics, w: seq<Weight>, inf: real, t: nat, ns: State)
    ensures var c := Survivor(pm, w, inf, t, ns);
            c == Fresh(inf) ||
            (c.metric < inf && pm.Of(c.from) < inf && Next(c.from, c.bit) == ns
             && c.metric == pm.Of(c.from) + BranchCost(w, t, c.from, c.bit))
  {
    hide BranchCost, Next;
    BranchesInto(FirstSource(ns), High(ns), ns);
    BranchesInto(SecondSource(ns), High(ns), ns);
  }

  /** The cost of the path never reaches the sentinel on its way. */
  ghost predicate StaysBelow(w: seq<Weight>, inf: real, p: seq<Bit>, t: nat) {
    forall i: nat :: i <= t ==> PathCost(w, p, i) < inf
  }

  lemma {:induction false} MassKeepsBelow(w: seq<Weight>, inf: real, p: seq<Bit>, t: nat)
    requires Mass(w, t) < inf
    ensures StaysBelow(w, inf, p, t)
  {
    hide Mass, PathCost;
    CostBelowMass(w, p, t);
    if t > 0 {
      MassGrows(w, t - 1);
      MassKeepsBelow(w, inf, p, t - 1);
    }
  }

  /** No path into a state that stays below the sentinel is cheaper than the state's metric. */
  lemma {:induction false} MetricIsLowerBound(w: seq<Weight>, inf: real, p: seq<Bit>, t: nat)
    requires StaysBelow(w, inf, p, t)
    ensures MetricsAt(w, inf, t).Of(StateAt(p, t)) <= PathCost(w, p, t)
  {
    hide BranchCost, StateAt, Tap, Survivor;
    if t == 0 {
      StateAtStart(p);
    } else {
      var s, b := StateAt(p, t - 1), Tap(p, t - 1);
      assert PathCost(w, p, t - 1) < inf && PathCost(w, p, t) < inf;
      MetricIsLowerBound(w, inf, p, t - 1);
      StateStep(p, t - 1);
      CheaperSource(MetricsAt(w, inf, t - 1), w, inf, t - 1, s, b, PathCost(w, p, t - 1));
      MetricOfCell(w, inf, t - 1, Next(s, b));
    }
  }

  lemma StateAtStart(p: seq<Bit>)
    ensures StateAt(p, 0) == 0
  {
  }

  lemma ExtendPath(w: seq<Weight>, q: seq<Bit>, b: Bit)
    ensures StateAt(q + [b], |q| + 1) == Next(StateAt(q, |q|), b)
    ensures PathCost(w, q + [b], |q| + 1) == PathCost(w, q, |q|) + BranchCost(w, |q|, StateAt(q, |q|), b)
  {
    hide BranchCost;
    var p := q + [b];
    PathCostPrefix(w, p, q, |q|);
    assert StateAt(p, |q|) == StateAt(q, |q|) && Tap(p, |q|) == b;
    StateStep(p, |q|);
  }

  /** A reached metric is the cost of the path its traceback spells, and that path ends there. */
  lemma {:induction false} TraceIsAPath(w: seq<Weight>, inf: real, t: nat, s: State)
    requires MetricsAt(w, inf, t).Of(s) < inf
    ensures StateAt(Trace(w, inf, t, s), t) == s
    ensures PathCost(w, Trace(w, inf, t, s), t) == MetricsAt(w, inf, t).Of(s)
  {
    hide BranchCost, StateAt, Survivor, Next;
    if t == 0 {
      StateAtStart([]);
    } else {
      var c := CellAt(w, inf, t - 1, s);
      MetricOfCell(w, inf, t - 1, s);
      SurvivorIsABranch(MetricsAt(w, inf, t - 1), w, inf, t - 1, s);
      TraceIsAPath(w, inf, t - 1, c.from);
      ExtendPath(w, Trace(w, inf, t - 1, c.from), c.bit);
    }
  }

  lemma {:induction false} TraceStaysBelow(w: seq<Weight>, inf: real, t: nat, s: State)
    requires MetricsAt(w, inf, t).Of(s) < inf
    ensures StaysBelow(w, inf, Trace(w, inf, t, s), t)
  {
    hide BranchCost, StateAt, Survivor, Next, PathCost;
    TraceIsAPath(w, inf, t, s);
    if t > 0 {
      var c := CellAt(w, inf, t - 1, s);
      MetricOfCell(w, inf, t - 1, s);
      SurvivorIsABranch(MetricsAt(w, inf, t - 1), w, inf, t - 1, s);
      TraceStaysBelow(w, inf, t - 1, c.from);
      forall i: nat | i < t ensures PathCost(w, Trace(w, inf, t, s), i) < inf {
        PathCostPrefix(w, Trace(w, inf, t, s), Trace(w, inf, t - 1, c.from), i);
      }
    }
  }

  /** The sentinel is exact: a state is reached if and only if some path into it stays below. */
  lemma ReachedIff(w: seq<Weight>, inf: real, t: nat, s: State)
    ensures MetricsAt(w, inf, t).Of(s) < inf <==> exists p: seq<Bit> :: StateAt(p, t) == s && StaysBelow(w, inf, p, t)
  {
    hide MetricsAt, StateAt, PathCost, Trace;
    if MetricsAt(w, inf, t).Of(s) < inf {
      TraceIsAPath(w, inf, t, s);
      TraceStaysBelow(w, inf, t, s);
    }
    forall p: seq<Bit> | StateAt(p, t) == s && StaysBelow(w, inf, p, t) ensures MetricsAt(w, inf, t).Of(s) < inf {
      MetricIsLowerBound(w, inf, p, t);
    }
  }

  /** The decoded path is flushed and no cheaper than any flushed path that stays below the sentinel. */
  lemma DecodeIsOptimal(w: seq<Weight>, inf: real, p: seq<Bit>)
    requires StateAt(p, |w| / 2) == 0 && StaysBelow(w, inf, p, |w| / 2)
    ensures StateAt(Decode(w, inf), |w| / 2) == 0
    ensures PathCost(w, Decode(w, inf), |w| / 2) <= PathCost(w, p, |w| / 2)
  {
    hide PathCost, MetricsAt, Trace, StateAt;
    MetricIsLowerBound(w, inf, p, |w| / 2);
    TraceIsAPath(w, inf, |w| / 2, 0);
  }

  // ---- rescaling ---------------------------------------------------------------

  function OffsetOf(off: seq<real>, i: nat): real { if i < |off| then off[i] else 0.0 }

  /** w' is w scaled by k > 0 with a constant added to both choices at every position. */
  ghost predicate Rescaled(w: seq<Weight>, w': seq<Weight>, k: real, off: seq<real>) {
    |w| == |w'| == |off| && k > 0.0 &&
    forall i :: 0 <= i < |w| ==> w'[i] == Weight(Product(k, w[i].zero) + off[i], Product(k, w[i].one) + off[i])
  }

  ghost function StepOffset(off: seq<real>, t: nat): real { OffsetOf(off, 2 * t) + OffsetOf(off, 2 * t + 1) }

  ghost function Offset(off: seq<real>, t: nat): real {
    if t == 0 then 0.0 else Offset(off, t - 1) + StepOffset(off, t - 1)
  }

  lemma ScaleOrder(k: real, x: real, y: real)
    requires k > 0.0
    ensures Product(k, x) < Product(k, y) <==> x < y
  {
    assert k * x - k * y == k * (x - y);
  }

  lemma ScaledZero(k: real)
    ensures Product(k, 0.0) == 0.0
  {
  }

  lemma ScaleSum(k: real, x: real, y: real)
    ensures Product(k, x + y) == Product(k, x) + Product(k, y)
  {
  }

  /** How the metrics of two decoders relate after some steps: both unreached, or m' = k * m + off
      with both below their masses. */
  datatype Scale = Scale(inf: real, inf': real, k: real, off: real, mass: real, mass': real) {
    ghost predicate Sound() { k > 0.0 && mass < inf && mass' < inf' }

    ghost predicate Same(m: real, m': real) {
      (m == inf && m' == inf') || (m <= mass && m' <= mass' && m' == Product(k, m) + off)
    }

    ghost predicate SameCell(c: Cell, c': Cell) {
      c.bit == c'.bit && c.from == c'.from && Same(c.metric, c'.metric)
    }

    ghost predicate SameMetrics(pm: Metrics, pm': Metrics) {
      Same(pm.m0, pm'.m0) && Same(pm.m1, pm'.m1) && Same(pm.m2, pm'.m2) && Same(pm.m3, pm'.m3)
    }
  }

  ghost function ScaleAt(w: seq<Weight>, w': seq<Weight>, inf: real, inf': real, k: real, off: seq<real>,
                         t: nat): Scale
  {
    Scale(inf, inf', k, Offset(off, t), Mass(w, t), Mass(w', t))
  }

  lemma BranchRescaled(w: seq<Weight>, w': seq<Weight>, k: real, off: seq<real>, t: nat, s: State, b: Bit)
    requires Rescaled(w, w', k, off)
    ensures BranchCost(w', t, s, b) == Product(k, BranchCost(w, t, s, b)) + StepOffset(off, t)
  {
    hide Out, Product;
    if 2 * t >= |w| { ScaledZero(k); }
    if 2 * t + 1 >= |w| { ScaledZero(k); }
    var x, y := At(w, 2 * t).Of(Out(s, b, 0)), At(w, 2 * t + 1).Of(Out(s, b, 1));
    ScaleSum(k, x, y);
  }

  /** The comparison of a candidate with the survivor so far comes out the same on both sides. */
  lemma SameChoice(z: Scale, c: Cell, c': Cell, cand: real, cand': real, s: State, b: Bit)
    requires z.Sound() && z.SameCell(c, c')
    requires cand <= z.mass && cand' <= z.mass' && cand' == Product(z.k, cand) + z.off
    ensures z.SameCell(if cand < c.metric then Cell(cand, b, s) else c,
                       if cand' < c'.metric then Cell(cand', b, s) else c')
  {
    hide Product;
    if c.metric != z.inf { ScaleOrder(z.k, cand, c.metric); }
  }

  lemma RelaxRescaled(z: Scale, z1: Scale, c: Cell, c': Cell, pm: Metrics, pm': Metrics,
                      w: seq<Weight>, w': seq<Weight>, t: nat, s: State, b: Bit)
    requires z.Sound() && z1.Sound() && z.inf == z1.inf && z.inf' == z1.inf' && z.k == z1.k
    requires BranchCost(w', t, s, b) == Product(z.k, BranchCost(w, t, s, b)) + (z1.off - z.off)
    requires BranchCost(w, t, s, b) <= z1.mass - z.mass && BranchCost(w', t, s, b) <= z1.mass' - z.mass'
    requires z.SameMetrics(pm, pm') && z1.SameCell(c, c')
    ensures z1.SameCell(Relax(c, pm, w, z.inf, t, s, b), Relax(c', pm', w', z.inf', t, s, b))
  {
    hide BranchCost, Product;
    var m, m', bc := pm.Of(s), pm'.Of(s), BranchCost(w, t, s, b);
    assert z.Same(m, m');
    if m < z.inf {
      ScaleSum(z.k, m, bc);
      SameChoice(z1, c, c', m + bc, m' + BranchCost(w', t, s, b), s, b);
    }
  }

  lemma SurvivorRescaled(w: seq<Weight>, w': seq<Weight>, inf: real, inf': real, k: real, off: seq<real>,
                         t: nat, pm: Metrics, pm': Metrics, ns: State)
    requires Rescaled(w, w', k, off)
    requires Mass(w, t + 1) < inf && Mass(w', t + 1) < inf'
    requires ScaleAt(w, w', inf, inf', k, off, t).SameMetrics(pm, pm')
    ensures ScaleAt(w, w', inf, inf', k, off, t + 1).SameCell(
              Survivor(pm, w, inf, t, ns), Survivor(pm', w', inf', t, ns))
  {
    hide Product, BranchCost, Relax, WorstBranch, StepOffset, Rescaled, High, FirstSource, SecondSource;
    MassGrows(w, t);
    MassGrows(w', t);
    var z, z1 := ScaleAt(w, w', inf, inf', k, off, t), ScaleAt(w, w', inf, inf', k, off, t + 1);
    var s0, s1, b := FirstSource(ns), SecondSource(ns), High(ns);
    var c, c' := Relax(Fresh(inf), pm, w, inf, t, s0, b), Relax(Fresh(inf'), pm', w', inf', t, s0, b);
    assert k > 0.0 by { RescaledFactor(w, w', k, off); }
    BranchRescaled(w, w', k, off, t, s0, b);
    BranchRescaled(w, w', k, off, t, s1, b);
    BranchBelowWorst(w, t, s0, b);
    BranchBelowWorst(w', t, s0, b);
    BranchBelowWorst(w, t, s1, b);
    BranchBelowWorst(w', t, s1, b);
    RelaxRescaled(z, z1, Fresh(inf), Fresh(inf'), pm, pm', w, w', t, s0, b);
    RelaxRescaled(z, z1, c, c', pm, pm', w, w', t, s1, b);
  }

  lemma RescaledFactor(w: seq<Weight>, w': seq<Weight>, k: real, off: seq<real>)
    requires Rescaled(w, w', k, off)
    ensures k > 0.0
  {
  }

  lemma {:induction false} MetricsRescaled(w: seq<Weight>, w': seq<Weight>, inf: real, inf': real, k: real,
                                           off: seq<real>, t: nat)
    requires Rescaled(w, w', k, off) && Mass(w, t) < inf && Mass(w', t) < inf'
    ensures ScaleAt(w, w', inf, inf', k, off, t).SameMetrics(MetricsAt(w, inf, t), MetricsAt(w', inf', t))
  {
    hide Product, Survivor, Rescaled, Mass;
    if t == 0 {
      ScaledZero(k);
      assert Mass(w, 0) == 0.0 == Mass(w', 0) by { EmptyMass(w); EmptyMass(w'); }
    } else {
      MassGrows(w, t - 1);
      MassGrows(w', t - 1);
      MetricsRescaled(w, w', inf, inf', k, off, t - 1);
      var pm, pm' := MetricsAt(w, inf, t - 1), MetricsAt(w', inf', t - 1);
      SurvivorRescaled(w, w', inf, inf', k, off, t - 1, pm, pm', 0);
      SurvivorRescaled(w, w', inf, inf', k, off, t - 1, pm, pm', 1);
      SurvivorRescaled(w, w', inf, inf', k, off, t - 1, pm, pm', 2);
      SurvivorRescaled(w, w', inf, inf', k, off, t - 1, pm, pm', 3);
    }
  }

  lemma EmptyMass(w: seq<Weight>)
    ensures Mass(w, 0) == 0.0
  {
  }

  lemma {:induction false} TraceRescaled(w: seq<Weight>, w': seq<Weight>, inf: real, inf': real, k: real,
                                         off: seq<real>, t: nat, s: State)
    requires Rescaled(w, w', k, off) && Mass(w, t) < inf && Mass(w', t) < inf'
    ensures Trace(w, inf, t, s) == Trace(w', inf', t, s)
  {
    hide Survivor, Rescaled, Mass, MetricsAt;
    if t > 0 {
      MassGrows(w, t - 1);
      MassGrows(w', t - 1);
      MetricsRescaled(w, w', inf, inf', k, off, t - 1);
      SurvivorRescaled(w, w', inf, inf', k, off, t - 1, MetricsAt(w, inf, t - 1), MetricsAt(w', inf', t - 1), s);
      TraceRescaled(w, w', inf, inf', k, off, t - 1, CellAt(w, inf, t - 1, s).from);
    }
  }

  /** Rescaling the weights changes no decision, ties included. */
  lemma DecodeRescaled(w: seq<Weight>, w': seq<Weight>, inf: real, inf': real, k: real, off: seq<real>)
    requires Rescaled(w, w', k, off)
    requires Mass(w, |w| / 2) < inf && Mass(w', |w| / 2) < inf'
    ensures Decode(w, inf) == Decode(w', inf')
  {
    TraceRescaled(w, w', inf, inf', k, off, |w| / 2, 0);
  }

  // ---- two sentinels -------------------------------------------------------------

  /** How the metrics of two decoders relate when only the first one's sentinel may have been met: below it
      they correspond, from it on the second metric is no better than the image of the sentinel. */
  datatype Ceiling = Ceiling(inf: real, inf': real, k: real, off: real) {
    ghost predicate Sound() { k > 0.0 && Product(k, inf) + off <= inf' }

    ghost predicate Tracks(m: real, m': real) {
      if m < inf then m' == Product(k, m) + off else m' >= Product(k, inf) + off
    }

    ghost predicate TracksCell(c: Cell, c': Cell) {
      c.metric <= inf && Tracks(c.metric, c'.metric)
      && (c.metric < inf ==> c.bit == c'.bit && c.from == c'.from)
    }

    ghost predicate TracksAll(pm: Metrics, pm': Metrics) { forall s: State :: Tracks(pm.Of(s), pm'.Of(s)) }
  }

  ghost function CeilingAt(inf: real, inf': real, k: real, off: seq<real>, t: nat): Ceiling {
    Ceiling(inf, inf', k, Offset(off, t))
  }

  /** Branches cost nothing negative, and the second sentinel is out of the first one's reach all along. */
  ghost predicate Covered(w: seq<Weight>, inf: real, inf': real, k: real, off: seq<real>, n: nat) {
    (forall t: nat, s: State, b: Bit :: t < n ==> BranchCost(w, t, s, b) >= 0.0)
    && forall t: nat :: t <= n ==> CeilingAt(inf, inf', k, off, t).Sound()
  }

  lemma CoveredByOffsets(w: seq<Weight>, inf: real, inf': real, k: real, off: seq<real>, n: nat)
    requires forall t: nat, s: State, b: Bit :: t < n ==> BranchCost(w, t, s, b) >= 0.0
    requires k > 0.0 && Product(k, inf) <= inf' && forall t: nat :: t <= n ==> Offset(off, t) <= 0.0
    ensures Covered(w, inf, inf', k, off, n)
  {
    hide Offset, BranchCost, Product;
  }

  lemma ScaledNonNegative(k: real, x: real)
    requires k > 0.0 && x >= 0.0
    ensures Product(k, x) >= 0.0
  {
  }

  /** A candidate at or above the sentinel's image changes nothing that matters. */
  lemma HighCandidate(z: Ceiling, c: Cell, c': Cell, cand': real, s: State, b: Bit)
    requires z.Sound() && z.TracksCell(c, c') && cand' >= Product(z.k, z.inf) + z.off
    ensures z.TracksCell(c, if cand' < c'.metric then Cell(cand', b, s) else c')
  {
    hide Product;
    ScaleOrder(z.k, c.metric, z.inf);
  }

  lemma RelaxTracks(z: Ceiling, z1: Ceiling, c: Cell, c': Cell, pm: Metrics, pm': Metrics,
                    w: seq<Weight>, w': seq<Weight>, t: nat, s: State, b: Bit)
    requires z.Sound() && z1.Sound() && z1 == z.(off := z1.off)
    requires BranchCost(w', t, s, b) == Product(z.k, BranchCost(w, t, s, b)) + (z1.off - z.off)
    requires BranchCost(w, t, s, b) >= 0.0
    requires z.Tracks(pm.Of(s), pm'.Of(s)) && z1.TracksCell(c, c')
    ensures z1.TracksCell(Relax(c, pm, w, z.inf, t, s, b), Relax(c', pm', w', z.inf', t, s, b))
  {
    hide BranchCost, Product;
    var m, m', bc := pm.Of(s), pm'.Of(s), BranchCost(w, t, s, b);
    var cand, cand' := m + bc, m' + BranchCost(w', t, s, b);
    ScaledNonNegative(z.k, bc);
    if m < z.inf {
      ScaleSum(z.k, m, bc);
      ScaleOrder(z.k, m, z.inf);
      ScaleOrder(z.k, cand, c.metric);
      ScaleOrder(z.k, cand, z.inf);
      ScaleOrder(z.k, z.inf, cand);
      if cand >= z.inf { HighCandidate(z1, c, c', cand', s, b); }
    } else {
      HighCandidate(z1, c, c', cand', s, b);
    }
  }

  lemma SurvivorTracks(w: seq<Weight>, w': seq<Weight>, inf: real, inf': real, k: real, off: seq<real>, n: nat,
                       t: nat, pm: Metrics, pm': Metrics, ns: State)
    requires Rescaled(w, w', k, off) && t < n && Covered(w, inf, inf', k, off, n)
    requires CeilingAt(inf, inf', k, off, t).TracksAll(pm, pm')
    ensures CeilingAt(inf, inf', k, off, t + 1).TracksCell(
              Survivor(pm, w, inf, t, ns), Survivor(pm', w', inf', t, ns))
  {
    hide Product, BranchCost, Relax, StepOffset, Rescaled, High, FirstSource, SecondSource;
    var z, z1 := CeilingAt(inf, inf', k, off, t), CeilingAt(inf, inf', k, off, t + 1);
    var s0, s1, b := FirstSource(ns), SecondSource(ns), High(ns);
    var c, c' := Relax(Fresh(inf), pm, w, inf, t, s0, b), Relax(Fresh(inf'), pm', w', inf', t, s0, b);
    BranchRescaled(w, w', k, off, t, s0, b);
    BranchRescaled(w, w', k, off, t, s1, b);
    assert z1.Sound() && z.Sound();
    assert z.Tracks(pm.Of(s0), pm'.Of(s0)) && z.Tracks(pm.Of(s1), pm'.Of(s1));
    assert z1.TracksCell(Fresh(inf), Fresh(inf'));
    RelaxTracks(z, z1, Fresh(inf), Fresh(inf'), pm, pm', w, w', t, s0, b);
    RelaxTracks(z, z1, c, c', pm, pm', w, w', t, s1, b);
  }

  lemma MetricTracks(w: seq<Weight>, w': seq<Weight>, inf: real, inf': real, k: real, off: seq<real>, n: nat,
                     t: nat, s: State)
    requires Rescaled(w, w', k, off) && t < n && Covered(w, inf, inf', k, off, n)
    requires CeilingAt(inf, inf', k, off, t).TracksAll(MetricsAt(w, inf, t), MetricsAt(w', inf', t))
    ensures CeilingAt(inf, inf', k, off, t + 1).Tracks(MetricsAt(w, inf, t + 1).Of(s), MetricsAt(w', inf', t + 1).Of(s))
  {
    hide Product, Survivor, Rescaled, Covered, CeilingAt, MetricsAt;
    SurvivorTracks(w, w', inf, inf', k, off, n, t, MetricsAt(w, inf, t), MetricsAt(w', inf', t), s);
    MetricOfCell(w, inf, t, s);
    MetricOfCell(w', inf', t, s);
  }

  lemma StartTracks(z: Ceiling)
    requires z.Sound() && z.off == 0.0 && z.inf > 0.0
    ensures z.TracksAll(Metrics(0.0, z.inf, z.inf, z.inf), Metrics(0.0, z.inf', z.inf', z.inf'))
  {
    hide Product;
    ScaledZero(z.k);
  }

  lemma {:induction false} MetricsTrack(w: seq<Weight>, w': seq<Weight>, inf: real, inf': real, k: real,
                                        off: seq<real>, n: nat, t: nat)
    requires Rescaled(w, w', k, off) && t <= n && Covered(w, inf, inf', k, off, n) && inf > 0.0
    ensures CeilingAt(inf, inf', k, off, t).TracksAll(MetricsAt(w, inf, t), MetricsAt(w', inf', t))
  {
    hide Product, Survivor, BranchCost, Rescaled;
    if t == 0 {
      StartTracks(CeilingAt(inf, inf', k, off, 0));
    } else {
      hide Rescaled, Covered, CeilingAt, MetricsAt;
      MetricsTrack(w, w', inf, inf', k, off, n, t - 1);
      forall s: State
        ensures CeilingAt(inf, inf', k, off, t).Tracks(MetricsAt(w, inf, t).Of(s), MetricsAt(w', inf', t).Of(s))
      {
        MetricTracks(w, w', inf, inf', k, off, n, t - 1, s);
      }
    }
  }

  /** From any state the first decoder reaches below its sentinel, both read back the same inputs. */
  lemma {:induction false} TraceTracks(w: seq<Weight>, w': seq<Weight>, inf: real, inf': real, k: real,
                                       off: seq<real>, n: nat, t: nat, s: State)
    requires Rescaled(w, w', k, off) && t <= n && Covered(w, inf, inf', k, off, n) && inf > 0.0
    requires MetricsAt(w, inf, t).Of(s) < inf
    ensures Trace(w, inf, t, s) == Trace(w', inf', t, s)
  {
    hide Product, Survivor, Rescaled, Covered, MetricsAt, BranchCost, Next;
    if t > 0 {
      MetricsTrack(w, w', inf, inf', k, off, n, t - 1);
      var pm, pm' := MetricsAt(w, inf, t - 1), MetricsAt(w', inf', t - 1);
      SurvivorTracks(w, w', inf, inf', k, off, n, t - 1, pm, pm', s);
      MetricOfCell(w, inf, t - 1, s);
      SurvivorIsABranch(pm, w, inf, t - 1, s);
      TraceTracks(w, w', inf, inf', k, off, n, t - 1, CellAt(w, inf, t - 1, s).from);
    }
  }

  /** Two decoders on rescaled weights agree, ties included, as soon as the first one reaches the flushed
      state and the second sentinel lies beyond the first: what else either of them prunes plays no part. */
  lemma DecodeTracks(w: seq<Weight>, w': seq<Weight>, inf: real, inf': real, k: real, off: seq<real>)
    requires Rescaled(w, w', k, off) && Covered(w, inf, inf', k, off, |w| / 2) && inf > 0.0
    requires MetricsAt(w, inf, |w| / 2).Of(0) < inf
    ensures Decode(w, inf) == Decode(w', inf')
  {
    TraceTracks(w, w', inf, inf', k, off, |w| / 2, |w| / 2, 0);
  }

  // ---- what the decoders' arrays hold --------------------------------------------

  /** The walk back from the zero state, shared by both decoders. */
  method Traceback(back: array2<Bit>, prev: array2<State>, steps: nat, nInfo: nat,
                   ghost w: seq<Weight>, ghost inf: real) returns (bits: seq<Bit>)
    requires back.Length0 == prev.Length0 == steps && back.Length1 == prev.Length1 == 4
    requires steps == |w| / 2
    requires forall t: nat, ns: State :: t < steps ==>
               back[t, ns] == CellAt(w, inf, t, ns).bit && prev[t, ns] == CellAt(w, inf, t, ns).from
    ensures bits == Prefix(Decode(w, inf), nInfo)
  {
    hide CellAt;
    var s: State := 0;
    var bitsRev := new Bit[steps](i => 0);
    for t := steps downto 0
      invariant Decode(w, inf) == Trace(w, inf, t, s) + bitsRev[t..]
    {
      bitsRev[t] := back[t, s];
      assert bitsRev[t..] == [back[t, s]] + bitsRev[t + 1..];
      s := prev[t, s];
    }
    assert bitsRev[0..] == bitsRev[..];
    bits := if nInfo <= steps then bitsRev[..nInfo] else bitsRev[..];
  }
}
