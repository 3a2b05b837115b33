/** gr_autopilot/control/arms_race.py: the escalating jammer and the race against the agent. */
module ArmsRace {
  import opened Basics

  datatype Kind = Fixed | Follower

  /** The fields of the adaptive jammer that change. */
  datatype Stance = Stance(kind: Kind, reaction: real, level: nat)

  /** What the agent reports for a round: whether it restored the link and the hop rate it used
      (0 when it did not hop). */
  datatype Outcome = Outcome(won: bool, hopRate: real)

  const TOLERANCE: real := 0.000000001   // 1e-9

  /** The reaction time a follower moves to against a hop rate. */
  function Target(reaction: real, hopRate: real): real
    requires hopRate != 0.0
  {
    if 0.9 / hopRate >= reaction then reaction * 0.5 else 0.9 / hopRate
  }

  function Clamp(x: real, floor: real): real { if x < floor then floor else x }

  /** Whether and how the jammer escalates against the agent's countermeasure. */
  predicate Escalates(s: Stance, floor: real, hopRate: real) {
    s.kind.Fixed? || (hopRate != 0.0 && Clamp(Target(s.reaction, hopRate), floor) < s.reaction - TOLERANCE)
  }

  function Escalated(s: Stance, start: real, floor: real, hopRate: real): Stance
    requires Escalates(s, floor, hopRate)
  {
    if s.kind.Fixed? then Stance(Follower, start, 1)
    else Stance(Follower, Clamp(Target(s.reaction, hopRate), floor), s.level + 1)
  }

  class AdaptiveJammer {
    const reactionStart: real
    const reactionFloor: real
    var kind: Kind
    var reaction: real
    var level: nat

    constructor (start: real, floor: real)
      ensures reactionStart == start && reactionFloor == floor
      ensures Current() == Stance(Fixed, 0.0, 0)
    {
      reactionStart, reactionFloor := start, floor;
      kind, reaction, level := Fixed, 0.0, 0;
    }

    function Current(): Stance
      reads this
    {
      Stance(kind, reaction, level)
    }

    /** False means the jammer concedes and nothing changed. */
    method Escalate(hopRate: real) returns (escalated: bool)
      modifies this
      ensures escalated == Escalates(old(Current()), reactionFloor, hopRate)
      ensures Current() == if escalated then Escalated(old(Current()), reactionStart, reactionFloor, hopRate)
                           else old(Current())
    {
      if kind.Fixed? {
        kind := Follower;
        reaction := reactionStart;
        level := 1;
        return true;
      }
      if hopRate == 0.0 { return false; }
      var target := 0.9 / hopRate;
      if target >= reaction { target := reaction * 0.5; }
      var next := Clamp(target, reactionFloor);
      if next >= reaction - TOLERANCE { return false; }
      reaction := next;
      level := level + 1;
      return true;
    }
  }

  // ---- the race ------------------------------------------------------------------------

  datatype Winner = Agent | Jammer | Inconclusive

  /** One row of the ladder: the stance met, what the agent did, and whether the jammer escalated. */
  datatype Row = Row(stance: Stance, outcome: Outcome, escalated: bool)

  /** hopRate is the agent's rate in the round that it won with. */
  datatype Result = Result(winner: Winner, rounds: nat, ladder: seq<Row>, final: Stance, hopRate: Option<real>)

  /** The race over the first n rounds. */
  function Race(s: Stance, start: real, floor: real, agent: seq<Outcome>, n: nat): Result
    requires n <= |agent|
  {
    if n == 0 then Result(Inconclusive, 0, [], s, None)
    else
      var before := Race(s, start, floor, agent, n - 1);
      if !before.winner.Inconclusive? then before
      else
        var o, now := agent[n - 1], before.final;
        if !o.won then Result(Jammer, n, before.ladder + [Row(now, o, false)], now, None)
        else if !Escalates(now, floor, o.hopRate) then
          Result(Agent, n, before.ladder + [Row(now, o, false)], now, Some(o.hopRate))
        else
          Result(Inconclusive, n, before.ladder + [Row(now, o, true)], Escalated(now, start, floor, o.hopRate), None)
  }

  /** A decided race stays decided. */
  lemma {:induction false} Decided(s: Stance, start: real, floor: real, agent: seq<Outcome>, m: nat, n: nat)
    requires m <= n <= |agent| && !Race(s, start, floor, agent, m).winner.Inconclusive?
    ensures Race(s, start, floor, agent, n) == Race(s, start, floor, agent, m)
  {
    if m < n { Decided(s, start, floor, agent, m, n - 1); }
  }

  /** A row of a round that was not the last: the agent restored the link and the jammer answered. */
  predicate Answered(row: Row) { row.outcome.won && row.escalated }

  /** The ladder tells the race: its rows are the agent's outcomes in order, each met in the stance that the escalation
      before it left. */
  ghost predicate Climbs(ladder: seq<Row>, s: Stance, start: real, floor: real, agent: seq<Outcome>) {
    |ladder| <= |agent|
    && (forall k :: 0 <= k < |ladder| ==> ladder[k].outcome == agent[k])
    && (forall k :: 0 <= k < |ladder| ==> ladder[k].stance == Met(ladder, s, start, floor, k))
    && (forall k :: 0 <= k < |ladder| ==>
          (ladder[k].escalated <==> agent[k].won && Escalates(ladder[k].stance, floor, agent[k].hopRate)))
  }

  /** The stance in round k, from the row before. */
  function Met(ladder: seq<Row>, s: Stance, start: real, floor: real, k: nat): Stance
    requires k <= |ladder|
  {
    if k == 0 then s
    else
      var row := ladder[k - 1];
      if Escalates(row.stance, floor, row.outcome.hopRate) && row.escalated then
        Escalated(row.stance, start, floor, row.outcome.hopRate)
      else row.stance
  }

  /** Who wins, read off the last row. */
  ghost predicate Settled(r: Result, floor: real, n: nat) {
    var last := |r.ladder| - 1;
    && r.rounds == |r.ladder| <= n
    && (forall k :: 0 <= k < last ==> Answered(r.ladder[k]))
    && (r.winner.Jammer? <==> last >= 0 && !r.ladder[last].outcome.won)
    && (r.winner.Agent? <==> last >= 0 && r.ladder[last].outcome.won && !r.ladder[last].escalated)
    && (r.winner.Inconclusive? ==> r.rounds == n)
    && r.hopRate == (if r.winner.Agent? then Some(r.ladder[last].outcome.hopRate) else None)
    && (r.winner.Agent? ==> !Escalates(r.final, floor, r.hopRate.value))
  }

  lemma MetAgain(ladder: seq<Row>, row: Row, s: Stance, start: real, floor: real, k: nat)
    requires k <= |ladder|
    ensures Met(ladder + [row], s, start, floor, k) == Met(ladder, s, start, floor, k)
  {
    hide Escalates, Escalated;
  }

  lemma OneMoreRow(ladder: seq<Row>, row: Row, s: Stance, start: real, floor: real, agent: seq<Outcome>)
    requires Climbs(ladder, s, start, floor, agent) && |ladder| < |agent|
    requires row.outcome == agent[|ladder|] && row.stance == Met(ladder, s, start, floor, |ladder|)
    requires row.escalated <==> row.outcome.won && Escalates(row.stance, floor, row.outcome.hopRate)
    ensures Climbs(ladder + [row], s, start, floor, agent)
  {
    hide Escalates, Escalated, Met;
    forall k | 0 <= k <= |ladder| ensures Met(ladder + [row], s, start, floor, k) == Met(ladder, s, start, floor, k) {
      MetAgain(ladder, row, s, start, floor, k);
    }
  }

  /** The ladder of an undecided race is answered throughout. */
  lemma UndecidedIsAnswered(r: Result, floor: real, n: nat)
    requires Settled(r, floor, n) && r.winner.Inconclusive?
    ensures forall k :: 0 <= k < |r.ladder| ==> Answered(r.ladder[k])
  {
    hide Escalates;
  }

  lemma SettledRow(before: Result, row: Row, after: Result, floor: real, n: nat)
    requires before.winner.Inconclusive? && Settled(before, floor, n) && after.ladder == before.ladder + [row]
    requires after.rounds == n + 1 && (row.escalated ==> row.outcome.won)
    requires after.winner == (if !row.outcome.won then Jammer else if !row.escalated then Agent else Inconclusive)
    requires after.hopRate == (if after.winner.Agent? then Some(row.outcome.hopRate) else None)
    requires after.winner.Agent? ==> !Escalates(after.final, floor, row.outcome.hopRate)
    ensures Settled(after, floor, n + 1)
  {
    hide Escalates;
    UndecidedIsAnswered(before, floor, n);
    forall k | 0 <= k < |before.ladder| ensures Answered(after.ladder[k]) {
      assert after.ladder[k] == before.ladder[k];
    }
    hide Answered;
  }

  /** The race is the source's: after any number of rounds the jammer has won if and only if the agent lost the last
      round played, the agent if and only if it won that round and the jammer could not answer, and every round before
      was won and answered. */
  lemma {:induction false} WinnerIsTheLastRow(s: Stance, start: real, floor: real, agent: seq<Outcome>, n: nat)
    requires n <= |agent|
    ensures var r := Race(s, start, floor, agent, n);
            && Climbs(r.ladder, s, start, floor, agent) && Settled(r, floor, n)
            && r.final == Met(r.ladder, s, start, floor, |r.ladder|)
  {
    hide Escalates, Escalated, Climbs, Settled;
    if n == 0 {
      NothingPlayed(s, start, floor, agent);
    } else {
      WinnerIsTheLastRow(s, start, floor, agent, n - 1);
      var before, after := Race(s, start, floor, agent, n - 1), Race(s, start, floor, agent, n);
      if before.winner.Inconclusive? {
        RoundPlayed(s, start, floor, agent, n, before);
      } else {
        StillSettled(before, floor, n - 1);
      }
    }
  }

  lemma NothingPlayed(s: Stance, start: real, floor: real, agent: seq<Outcome>)
    ensures Climbs([], s, start, floor, agent) && Settled(Result(Inconclusive, 0, [], s, None), floor, 0)
  {
  }

  lemma StillSettled(r: Result, floor: real, n: nat)
    requires Settled(r, floor, n) && !r.winner.Inconclusive?
    ensures Settled(r, floor, n + 1)
  {
    hide Escalates, Answered;
  }

  lemma RoundPlayed(s: Stance, start: real, floor: real, agent: seq<Outcome>, n: nat, before: Result)
    requires 0 < n <= |agent| && before == Race(s, start, floor, agent, n - 1) && before.winner.Inconclusive?
    requires Climbs(before.ladder, s, start, floor, agent) && Settled(before, floor, n - 1)
    requires before.final == Met(before.ladder, s, start, floor, |before.ladder|)
    ensures var r := Race(s, start, floor, agent, n);
            && Climbs(r.ladder, s, start, floor, agent) && Settled(r, floor, n)
            && r.final == Met(r.ladder, s, start, floor, |r.ladder|)
  {
    hide Escalates, Escalated, Climbs, Settled, Race, Met;
    var row := RoundResult(s, start, floor, agent, n, before);
    var after := Race(s, start, floor, agent, n);
    OneMoreRow(before.ladder, row, s, start, floor, agent) by { SettledLength(before, floor, n - 1); }
    SettledRow(before, row, after, floor, n - 1);
    MetAfter(before.ladder, row, s, start, floor);
  }

  lemma SettledLength(r: Result, floor: real, n: nat)
    requires Settled(r, floor, n) && r.winner.Inconclusive?
    ensures |r.ladder| == n
  {
    hide Escalates, Answered;
  }

  lemma MetAfter(ladder: seq<Row>, row: Row, s: Stance, start: real, floor: real)
    requires row.escalated ==> Escalates(row.stance, floor, row.outcome.hopRate)
    ensures Met(ladder + [row], s, start, floor, |ladder| + 1)
         == if row.escalated then Escalated(row.stance, start, floor, row.outcome.hopRate) else row.stance
  {
    hide Escalates, Escalated;
  }

  /** What one more round adds to an undecided race. */
  lemma RoundResult(s: Stance, start: real, floor: real, agent: seq<Outcome>, n: nat, before: Result) returns (row: Row)
    requires 0 < n <= |agent| && before == Race(s, start, floor, agent, n - 1) && before.winner.Inconclusive?
    ensures row.stance == before.final && row.outcome == agent[n - 1]
    ensures row.escalated <==> row.outcome.won && Escalates(row.stance, floor, row.outcome.hopRate)
    ensures var r := Race(s, start, floor, agent, n);
            && r.ladder == before.ladder + [row] && r.rounds == n
            && r.winner == (if !row.outcome.won then Jammer else if !row.escalated then Agent else Inconclusive)
            && r.hopRate == (if r.winner.Agent? then Some(row.outcome.hopRate) else None)
            && r.final == if row.escalated then Escalated(row.stance, start, floor, row.outcome.hopRate) else row.stance
  {
    hide Escalates, Escalated;
    var o, now := agent[n - 1], before.final;
    row := Row(now, o, o.won && Escalates(now, floor, o.hopRate));
  }

  /** A fixed jammer always answers, by following with its starting reaction time. */
  lemma FixedAlwaysAnswers(s: Stance, start: real, floor: real, hopRate: real)
    requires s.kind.Fixed?
    ensures Escalates(s, floor, hopRate) && Escalated(s, start, floor, hopRate) == Stance(Follower, start, 1)
  {
  }

  /** A follower that escalates against a hop rate is then quick enough for nine tenths of each dwell, unless its floor
      stops it. */
  lemma EscalationCatchesTheHop(s: Stance, start: real, floor: real, hopRate: real)
    requires s.kind.Follower? && s.reaction > 0.0 && Escalates(s, floor, hopRate)
    ensures var t := Escalated(s, start, floor, hopRate);
            t.kind.Follower? && (t.reaction <= 0.9 / hopRate || t.reaction == floor)
  {
  }

  /** The jammer concedes only as a follower for whom one more step would gain no more than the tolerance: at its floor,
      at the reaction time the hop rate asks for, or against a link that does not hop. */
  lemma ConcededStance(s: Stance, floor: real, hopRate: real)
    requires !Escalates(s, floor, hopRate)
    ensures s.kind.Follower?
    ensures hopRate != 0.0 && s.reaction > 2.0 * TOLERANCE ==>
              s.reaction <= floor + TOLERANCE || s.reaction - TOLERANCE <= 0.9 / hopRate < s.reaction
  {
  }

  method RunArmsRace(jammer: AdaptiveJammer, agent: seq<Outcome>, maxRounds: nat) returns (r: Result)
    requires maxRounds <= |agent|
    modifies jammer
    ensures r == Race(old(jammer.Current()), jammer.reactionStart, jammer.reactionFloor, agent, maxRounds)
    ensures jammer.Current() == r.final
  {
    ghost var s, start, floor := jammer.Current(), jammer.reactionStart, jammer.reactionFloor;
    var ladder: seq<Row> := [];
    for rnd := 0 to maxRounds
      invariant Race(s, start, floor, agent, rnd) == Result(Inconclusive, rnd, ladder, jammer.Current(), None)
    {
      hide Escalates, Escalated;
      var o, now := agent[rnd], jammer.Current();
      if !o.won {
        r := Result(Jammer, rnd + 1, ladder + [Row(now, o, false)], now, None);
        Decided(s, start, floor, agent, rnd + 1, maxRounds);
        return;
      }
      var escalated := jammer.Escalate(o.hopRate);
      ladder := ladder + [Row(now, o, escalated)];
      if !escalated {
        r := Result(Agent, rnd + 1, ladder, jammer.Current(), Some(o.hopRate));
        Decided(s, start, floor, agent, rnd + 1, maxRounds);
        return;
      }
    }
    r := Result(Inconclusive, maxRounds, ladder, jammer.Current(), None);
  }

  // ---- termination -----------------------------------------------------------------------

  function Pow2(k: nat): (r: real)
    ensures r >= 1.0
  {
    if k == 0 then 1.0 else 2.0 * Pow2(k - 1)
  }

  /** The hop rates that still set the reaction time directly instead of halving it. */
  ghost function Direct(rates: set<real>, reaction: real): set<real> {
    set r | r in rates && r != 0.0 && 0.9 / r < reaction
  }

  /** A follower in working order: between the floor and 2^k floors. */
  ghost predicate Within(s: Stance, floor: real, k: nat) {
    s.kind.Follower? && 0.0 < floor <= s.reaction <= floor * Pow2(k)
  }

  lemma FewerDirect(rates: set<real>, reaction: real, next: real, hopRate: real)
    requires next <= reaction
    ensures |Direct(rates, next)| <= |Direct(rates, reaction)|
    ensures hopRate in rates && hopRate != 0.0 && 0.9 / hopRate < reaction && next <= 0.9 / hopRate ==>
              |Direct(rates, next)| < |Direct(rates, reaction)|
  {
    SubsetSize(Direct(rates, next), Direct(rates, reaction));
    if hopRate in rates && hopRate != 0.0 && 0.9 / hopRate < reaction && next <= 0.9 / hopRate {
      SubsetSize(Direct(rates, next), Direct(rates, reaction) - {hopRate});
    }
  }

  lemma HalfWithin(reaction: real, floor: real, k: nat)
    requires 0.0 < floor < reaction <= floor * Pow2(k)
    ensures k >= 1 && Clamp(reaction * 0.5, floor) <= floor * Pow2(k - 1)
  {
    if k == 0 {
      assert false;
    }
    var p := Pow2(k - 1);
    assert floor * (2.0 * p) == 2.0 * (floor * p);
    assert floor * p >= floor by { AtLeast(floor, p); }
  }

  lemma AtLeast(x: real, p: real)
    requires x > 0.0 && p >= 1.0
    ensures x * p >= x
  {
    assert x * (p - 1.0) >= 0.0;
  }

  /** Every escalation of a follower lowers its reaction time, keeps it above the floor, and uses up
      one of its halvings or one hop rate that it can meet directly. */
  lemma EscalationUsesUp(s: Stance, start: real, floor: real, hopRate: real, rates: set<real>, k: nat) returns (k': nat)
    requires Within(s, floor, k) && hopRate in rates && Escalates(s, floor, hopRate)
    ensures var t := Escalated(s, start, floor, hopRate);
            Within(t, floor, k') && t.reaction < s.reaction && t.level == s.level + 1
            && |Direct(rates, t.reaction)| + k' < |Direct(rates, s.reaction)| + k
  {
    var next := Clamp(Target(s.reaction, hopRate), floor);
    FewerDirect(rates, s.reaction, next, hopRate);
    hide Direct, Pow2;
    HalfWithin(s.reaction, floor, k);
    if 0.9 / hopRate >= s.reaction {
      k' := k - 1;
    } else if 0.9 / hopRate >= floor {
      k' := k;
    } else {
      k' := 0;
      assert floor * Pow2(0) == floor by { PowZero(); }
    }
  }

  lemma PowZero()
    ensures Pow2(0) == 1.0
  {
  }

  /** How many rounds of the ladder were escalations. */
  function Escalations(ladder: seq<Row>): nat {
    if ladder == [] then 0 else Escalations(ladder[..|ladder| - 1]) + (if ladder[|ladder| - 1].escalated then 1 else 0)
  }

  /** After n rounds: the ladder's books, and the escalations still possible. */
  ghost predicate SoFar(r: Result, n: nat, start: real, floor: real, rates: set<real>, k: nat, k': nat) {
    var e := Escalations(r.ladder);
    |r.ladder| == r.rounds && e <= |rates| + k + 1 && (r.winner.Inconclusive? ==> r.rounds == e == n)
    && r.final.level == e
    && (if e == 0 then r.final == Stance(Fixed, 0.0, 0)
        else Within(r.final, floor, k') && r.final.reaction <= start
             && |Direct(rates, r.final.reaction)| + k' + e <= |rates| + k + 1)
  }

  lemma LastRow(ladder: seq<Row>, row: Row)
    ensures Escalations(ladder + [row]) == Escalations(ladder) + (if row.escalated then 1 else 0)
  {
    assert (ladder + [row])[..|ladder|] == ladder;
  }

  /** One round that escalates. */
  lemma EscalationSoFar(before: Result, o: Outcome, start: real, floor: real, rates: set<real>, k: nat, kb: nat)
    returns (k': nat)
    requires before.winner.Inconclusive? && SoFar(before, before.rounds, start, floor, rates, k, kb)
    requires 0.0 < floor <= start <= floor * Pow2(k) && (o.hopRate == 0.0 || o.hopRate in rates)
    requires Escalates(before.final, floor, o.hopRate)
    ensures SoFar(Result(Inconclusive, before.rounds + 1, before.ladder + [Row(before.final, o, true)],
                         Escalated(before.final, start, floor, o.hopRate), None),
                  before.rounds + 1, start, floor, rates, k, k')
  {
    LastRow(before.ladder, Row(before.final, o, true));
    hide Escalations, Pow2;
    if before.final.kind.Fixed? {
      assert |Direct(rates, start)| <= |rates| by { SubsetSize(Direct(rates, start), rates); }
      k' := k;
    } else {
      k' := EscalationUsesUp(before.final, start, floor, o.hopRate, rates, kb);
      hide Escalates, Direct;
    }
  }

  /** One round that decides the race. */
  lemma DecisionSoFar(before: Result, o: Outcome, winner: Winner, hopRate: Option<real>, n: nat, start: real,
                      floor: real, rates: set<real>, k: nat, kb: nat)
    requires before.winner.Inconclusive? && !winner.Inconclusive?
    requires SoFar(before, before.rounds, start, floor, rates, k, kb)
    ensures SoFar(Result(winner, before.rounds + 1, before.ladder + [Row(before.final, o, false)], before.final,
                         hopRate),
                  n, start, floor, rates, k, kb)
  {
    LastRow(before.ladder, Row(before.final, o, false));
    hide Escalations, Within, Direct;
  }

  lemma {:induction false} RaceSoFar(start: real, floor: real, agent: seq<Outcome>, rates: set<real>, k: nat, n: nat)
    returns (k': nat)
    requires n <= |agent| && 0.0 < floor <= start <= floor * Pow2(k)
    requires forall i :: 0 <= i < n ==> agent[i].hopRate == 0.0 || agent[i].hopRate in rates
    ensures SoFar(Race(Stance(Fixed, 0.0, 0), start, floor, agent, n), n, start, floor, rates, k, k')
  {
    hide Escalates, Escalated, Direct, Pow2, Within;
    var s0 := Stance(Fixed, 0.0, 0);
    k' := k;
    if n > 0 {
      k' := RaceSoFar(start, floor, agent, rates, k, n - 1);
      var before := Race(s0, start, floor, agent, n - 1);
      var o := agent[n - 1];
      if before.winner.Inconclusive? {
        assert before.rounds == n - 1;
        hide SoFar, Escalations;
        if !o.won {
          DecisionSoFar(before, o, Jammer, None, n, start, floor, rates, k, k');
        } else if Escalates(before.final, floor, o.hopRate) {
          k' := EscalationSoFar(before, o, start, floor, rates, k, k');
        } else {
          DecisionSoFar(before, o, Agent, Some(o.hopRate), n, start, floor, rates, k, k');
        }
      }
    }
  }

  /** The race ends: against finitely many hop rates and a start within 2^k floors, the jammer
      escalates at most |rates| + k + 1 times, never past its floor, and one round more decides it. */
  lemma RaceTerminates(start: real, floor: real, agent: seq<Outcome>, rates: set<real>, k: nat, maxRounds: nat)
    requires maxRounds <= |agent| && 0.0 < floor <= start <= floor * Pow2(k)
    requires forall i :: 0 <= i < maxRounds ==> agent[i].hopRate == 0.0 || agent[i].hopRate in rates
    ensures var r := Race(Stance(Fixed, 0.0, 0), start, floor, agent, maxRounds);
            Escalations(r.ladder) <= |rates| + k + 1
            && (Escalations(r.ladder) > 0 ==> floor <= r.final.reaction <= start)
            && (maxRounds > |rates| + k + 1 ==> !r.winner.Inconclusive?)
  {
    var k' := RaceSoFar(start, floor, agent, rates, k, maxRounds);
    hide Race, Direct, Pow2;
  }
}
