/** gr_autopilot/coding.py: the hard-decision Viterbi decoder. */
module HardDecoder {
  import opened Trellis
  import opened Viterbi

  /** A received coded position: 0, 1, or -1 for an erasure. */
  type Symbol = r: int | -1 <= r <= 1

  const HARD_INF: int := 0x4000_0000   // 1 << 30

  function HardWeight(r: Symbol): Weight {
    if r < 0 then Weight(0.0, 0.0) else Weight(r as real, (1 - r) as real)
  }

  function HardWeights(recv: seq<Symbol>): (w: seq<Weight>)
    ensures |w| == |recv|
  {
    seq(|recv|, i requires 0 <= i < |recv| => HardWeight(recv[i]))
  }

  /** The Hamming branch metric of the source: the xor of each non-erased position. */
  function Hamming(r0: Symbol, r1: Symbol, s: State, b: Bit): int {
    (if r0 < 0 then 0 else Xor(Out(s, b, 0), r0)) + (if r1 < 0 then 0 else Xor(Out(s, b, 1), r1))
  }

  lemma HammingIsBranchCost(coded: seq<Symbol>, t: nat, s: State, b: Bit)
    requires 2 * t + 1 < |coded|
    ensures Hamming(coded[2 * t], coded[2 * t + 1], s, b) as real == BranchCost(HardWeights(coded), t, s, b)
  {
    hide Out;
  }

  /** The integer metrics as the reals of the shared recursion. */
  function AsMetrics(pm: array<int>): Metrics
    requires pm.Length == 4
    reads pm
  {
    Metrics(pm[0] as real, pm[1] as real, pm[2] as real, pm[3] as real)
  }

  ghost predicate Holds(npm: array<int>, back: array2<Bit>, prev: array2<State>, t: nat, ns: State, c: Cell)
    requires npm.Length == 4 && t < back.Length0 && t < prev.Length0 && back.Length1 == prev.Length1 == 4
    reads npm, back, prev
  {
    npm[ns] as real == c.metric && back[t, ns] == c.bit && prev[t, ns] == c.from
  }

  /** All four states hold their survivors of step t. */
  ghost predicate Stepped(npm: array<int>, back: array2<Bit>, prev: array2<State>, t: nat,
                          m: Metrics, w: seq<Weight>, inf: real)
    requires npm.Length == 4 && t < back.Length0 && t < prev.Length0 && back.Length1 == prev.Length1 == 4
    reads npm, back, prev
  {
    forall ns: State :: Holds(npm, back, prev, t, ns, Survivor(m, w, inf, t, ns))
  }

  /** One pass of the outer loop: add, compare and select over every (state, input) pair. */
  method Step(coded: seq<Symbol>, t: nat, pm: array<int>, npm: array<int>, back: array2<Bit>, prev: array2<State>)
    requires 2 * t + 1 < |coded| && pm.Length == npm.Length == 4 && pm != npm
    requires t < back.Length0 && t < prev.Length0 && back.Length1 == prev.Length1 == 4
    requires forall ns: State :: npm[ns] == HARD_INF && back[t, ns] == 0 && prev[t, ns] == 0
    modifies npm, back, prev
    ensures Stepped(npm, back, prev, t, AsMetrics(pm), HardWeights(coded), HARD_INF as real)
    ensures forall i, ns: State :: 0 <= i < back.Length0 && i != t ==> back[i, ns] == old(back[i, ns])
    ensures forall i, ns: State :: 0 <= i < prev.Length0 && i != t ==> prev[i, ns] == old(prev[i, ns])
  {
    hide Partial, Survivor, BranchCost, HardWeights, Next, Out;
    var r0, r1 := coded[2 * t], coded[2 * t + 1];
    ghost var w, m, inf := HardWeights(coded), AsMetrics(pm), HARD_INF as real;
    forall ns: State { FirstAndLastPair(m, w, inf, t, ns); }
    for s := 0 to 4
      invariant forall ns: State :: Holds(npm, back, prev, t, ns, Partial(m, w, inf, t, ns, s, 0))
      invariant forall i, ns: State :: 0 <= i < back.Length0 && i != t ==> back[i, ns] == old(back[i, ns])
      invariant forall i, ns: State :: 0 <= i < prev.Length0 && i != t ==> prev[i, ns] == old(prev[i, ns])
    {
      if pm[s] >= HARD_INF {
        forall ns: State { SkippedState(m, w, inf, t, s, ns); }
        continue;
      }
      for b := 0 to 2
        invariant forall ns: State :: Holds(npm, back, prev, t, ns, Partial(m, w, inf, t, ns, s, b))
        invariant forall i, ns: State :: 0 <= i < back.Length0 && i != t ==> back[i, ns] == old(back[i, ns])
        invariant forall i, ns: State :: 0 <= i < prev.Length0 && i != t ==> prev[i, ns] == old(prev[i, ns])
      {
        var ns := Next(s, b);
        var cand := pm[s] + Hamming(r0, r1, s, b);
        HammingIsBranchCost(coded, t, s, b);
        forall x: State { PairRelaxesItsTarget(m, w, inf, t, s, b, x); }
        assert Holds(npm, back, prev, t, ns, Partial(m, w, inf, t, ns, s, b));
        if cand < npm[ns] {
          npm[ns] := cand;
          back[t, ns] := b;
          prev[t, ns] := s;
        }
      }
      forall ns: State { NextState(m, w, inf, t, s, ns); }
    }
  }

  method ViterbiDecode(coded: seq<Symbol>, nInfo: nat) returns (bits: seq<Bit>)
    ensures bits == Prefix(Decode(HardWeights(coded), HARD_INF as real), nInfo)
  {
    hide Survivor, HardWeights, CellAt, MetricsAt;
    var steps := |coded| / 2;
    ghost var w, inf := HardWeights(coded), HARD_INF as real;
    MetricsFromCells(w, inf, 0);
    var pm := new int[4](i => HARD_INF);
    pm[0] := 0;
    var back := new Bit[steps, 4]((i, j) => 0);
    var prev := new State[steps, 4]((i, j) => 0);
    for t := 0 to steps
      invariant pm.Length == 4 && fresh(pm) && AsMetrics(pm) == MetricsAt(w, inf, t)
      invariant forall i, ns: State :: t <= i < steps ==> back[i, ns] == 0 && prev[i, ns] == 0
      invariant forall i: nat, ns: State :: i < t ==>
          back[i, ns] == CellAt(w, inf, i, ns).bit && prev[i, ns] == CellAt(w, inf, i, ns).from
    {
      var npm := new int[4](i => HARD_INF);
      MetricsFromCells(w, inf, t);
      Step(coded, t, pm, npm, back, prev);
      assert forall ns: State :: Holds(npm, back, prev, t, ns, CellAt(w, inf, t, ns));
      pm := npm;
      assert AsMetrics(pm) == MetricsAt(w, inf, t + 1);
    }
    bits := Traceback(back, prev, steps, nInfo, w, inf);
  }
}
