/** gr_autopilot/hardware/jammer.py: what the operator's commands achieve when nothing interferes. */
module JammerService {
  import opened Basics
  import opened Jammer
  import opened JammerShutdown

  /** Nobody holds the lock, nothing is queued, and the owner thread is there to serve. */
  predicate AtRest(s: State) { s.enabled && s.pc.Free? && s.bench.queue == [] && !s.bench.retired }

  /** The held interferer transmits with these parameters, and nothing else has changed its state. */
  predicate Transmits(s: State, i: nat, cfg: int) {
    s.itf == Some(i) && i < |s.bench.radios| && s.bench.radios[i] == Radio(Running, cfg)
  }

  /** Arming an idle instrument ends with one more interferer, transmitting with the parameters of the command. */
  lemma ArmingTransmits(s: State, cfg: int) returns (es: seq<Event>)
    requires AtRest(s) && !IsArmed(s)
    ensures var t := Run(Step(s, ApplyOn(cfg)), es);
            AtRest(t) && Transmits(t, |s.bench.radios|, cfg)
            && t.bench.radios[..|s.bench.radios|] == s.bench.radios
  {
    hide Run;
    var s1 := Step(s, ApplyOn(cfg));
    assert s1.bench.queue == [Item(New, s.bench.next)];
    es := FinishArming(s1);
  }

  /** A change of parameters on an armed jammer reaches the air: the old transmitter is closed and a new one transmits
      with the new parameters. */
  lemma ChangeReachesTheAir(s: State, cfg: int) returns (es: seq<Event>)
    requires AtRest(s) && IsArmed(s) && cfg != s.cfg
    ensures var t := Run(Step(s, ApplyOn(cfg)), es);
            AtRest(t) && Transmits(t, |s.bench.radios|, cfg) && !Live(t.bench, s.itf.value)
  {
    var i := s.itf.value;
    var s1 := Step(s, ApplyOn(cfg));
    var s3 := CloseServed(s1, i);
    hide Step, Run;
    var rest := FinishArming(s3);
    RunConcat(s1, [Owner(true), Reply], rest);
    es := [Owner(true), Reply] + rest;
    assert s3 == Run(s1, [Owner(true), Reply]);
  }

  /** The close of a rearm, and the build it makes way for. */
  lemma CloseServed(s1: State, i: nat) returns (t: State)
    requires s1.bench.next > 0 && s1.bench.queue == [Item(Close(i), s1.bench.next - 1)] && !s1.bench.retired
    requires s1.pc == DisarmClose(s1.bench.next - 1, Arm) && i < |s1.bench.radios|
    ensures t == Run(s1, [Owner(true), Reply])
    ensures t.pc.ArmNew? && t.bench.queue == [Item(New, t.pc.ticket)] && !t.bench.retired
            && t.bench.radios == s1.bench.radios[i := s1.bench.radios[i].(proc := Idle)] && t.cfg == s1.cfg
            && t.enabled == s1.enabled
  {
    var s2 := Step(s1, Owner(true));
    assert s2.bench.queue == [];
    t := Step(s2, Reply);
    assert t.bench.queue == [Item(New, t.pc.ticket)];
    hide Step;
    assert [Owner(true), Reply][..1] == [Owner(true)] && [Owner(true)][..0] == [];
    assert Run(s1, []) == s1 && Run(s1, [Owner(true)]) == s2;
  }

  /** The same parameters again leave a transmitting jammer alone. */
  lemma SameAgainIsIgnored(s: State)
    requires AtRest(s) && IsArmed(s)
    ensures Step(s, ApplyOn(s.cfg)).bench == s.bench && Step(s, ApplyOn(s.cfg)).itf == s.itf
  {
  }

  /** A follower's retune moves the transmitter that is held, and the parameters with it. */
  lemma FollowerArrives(s: State, f: int)
    requires AtRest(s) && IsArmed(s) && s.itf.value < |s.bench.radios| && !TunedTo(s.bench, s.itf.value, f)
    ensures var t := Run(s, [Follow(f), Owner(true), Owner(true), Owner(true), Reply]);
            AtRest(t) && Transmits(t, s.itf.value, f) && t.cfg == f && |t.bench.radios| == |s.bench.radios|
  {
    hide Run;
    var t := RetuneServed(s, f);
    RunFive(s, Follow(f), Owner(true), Owner(true), Owner(true), Reply);
  }

  lemma RetuneServed(s: State, f: int) returns (t: State)
    requires AtRest(s) && IsArmed(s) && s.itf.value < |s.bench.radios| && !TunedTo(s.bench, s.itf.value, f)
    ensures t == Step(Step(Step(Step(Step(s, Follow(f)), Owner(true)), Owner(true)), Owner(true)), Reply)
    ensures AtRest(t) && Transmits(t, s.itf.value, f) && t.cfg == f && |t.bench.radios| == |s.bench.radios|
  {
    var i, n := s.itf.value, s.bench.next;
    var s1 := Step(s, Follow(f));
    assert s1.bench.queue == [Item(Retune(i, f), n)];
    var s2 := Step(s1, Owner(true));
    assert s2.bench.queue == [Item(Start(i), n)] && s2.bench.radios[i] == Radio(Idle, f);
    var s3 := Step(s2, Owner(true));
    assert s3.bench.queue == [Item(Settle(i), n)] && s3.bench.radios[i] == Radio(Running, f);
    var s4 := Step(s3, Owner(true));
    assert s4.bench.queue == [];
    t := Step(s4, Reply);
  }

  lemma RunFive(s: State, a: Event, b: Event, c: Event, d: Event, e: Event)
    ensures Run(s, [a, b, c, d, e]) == Step(Step(Step(Step(Step(s, a), b), c), d), e)
  {
    hide Step, Run;
    RunTwo(s, a, b);
    RunMore(s, [a, b], c);
    RunMore(s, [a, b, c], d);
    RunMore(s, [a, b, c, d], e);
    assert [a, b] + [c] == [a, b, c] && [a, b, c] + [d] == [a, b, c, d] && [a, b, c, d] + [e] == [a, b, c, d, e];
  }

  // ---- disarming -------------------------------------------------------------------------------------

  /** Nothing is held and everything queued ends in silence. */
  ghost predicate Off(s: State) {
    s.itf.None? && (s.pc.Free? || (s.pc.DisarmClose? && !s.pc.next.Arm?)) && forall i: nat :: Quiet(s.bench, i)
  }

  /** The event arms the instrument. */
  predicate Arms(s: State, e: Event) { e.ApplyOn? && s.pc.Free? && s.enabled }

  lemma GoesOff(s: State, cfg: int)
    requires Inv(s) && s.pc.Free?
    ensures Off(Step(s, ApplyOff(cfg)))
  {
    if s.itf.Some? { QuietAppended(s.bench, Close(s.itf.value)); }
    hide Quiet;
  }

  lemma StaysOff(s: State, e: Event)
    requires Off(s) && !Arms(s, e)
    ensures Off(Step(s, e))
  {
    hide Quiet;
    match e
    case Owner(ok) =>
      forall i: nat ensures Quiet(OnOwner(s.bench, ok, s.cfg), i) { OwnerKeepsQuiet(s.bench, ok, s.cfg, i); }
      hide OnOwner;
    case Die(i) => DeathKeepsQuiet(s.bench, i);
    case QueueRetire => QuietAppended(s.bench, Retire);
    case _ =>
  }

  ghost predicate NeverArms(s: State, es: seq<Event>) {
    forall k :: 0 <= k < |es| ==> !Arms(Run(s, es[..k]), es[k])
  }

  lemma {:induction false} RunStaysOff(s: State, es: seq<Event>)
    requires Off(s) && NeverArms(s, es)
    ensures Off(Run(s, es))
  {
    hide Off, Step, Arms;
    if es != [] {
      var n := |es| - 1;
      assert forall k :: 0 <= k < n ==> es[..n][..k] == es[..k];
      RunStaysOff(s, es[..n]);
      assert !Arms(Run(s, es[..n]), es[n]);
      StaysOff(Run(s, es[..n]), es[n]);
    }
  }

  /** After a disarm, until the next arming, nothing is held, and nothing transmits once the owner thread has nothing
      left to do, whatever timed out, died or was queued before. */
  lemma DisarmSilences(s: State, cfg: int, es: seq<Event>)
    requires Inv(s) && s.pc.Free? && NeverArms(Step(s, ApplyOff(cfg)), es)
    ensures var t := Run(Step(s, ApplyOff(cfg)), es);
            t.itf.None? && (t.bench.queue == [] ==> forall i: nat :: !Live(t.bench, i))
  {
    hide Inv, NeverArms, Step, Run;
    GoesOff(s, cfg);
    RunStaysOff(Step(s, ApplyOff(cfg)), es);
    var t := Run(Step(s, ApplyOff(cfg)), es);
    forall i: nat | t.bench.queue == [] ensures !Live(t.bench, i) { assert Quiet(t.bench, i); }
  }

  // ---- a dead jammer is no clean band ----------------------------------------------------------------

  /** The status report raises its error: the instrument should be transmitting and is not. */
  predicate Reported(s: State) { s.intended && !IsArmed(s) }

  /** Whoever is armed, or about to be, was asked for. */
  predicate AskedFor(s: State) {
    s.itf.Some? || s.pc.ArmNew? || s.pc.ArmStart? || (s.pc.DisarmClose? && s.pc.next.Arm?) ==> s.intended
  }

  /** Once the operator has disarmed, nothing is intended any more. */
  predicate Dismissed(s: State) { s.itf.None? && !s.intended }

  lemma StepKeepsAskedFor(s: State, e: Event)
    requires AskedFor(s)
    ensures AskedFor(Step(s, e))
  {
    hide OnOwner;
  }

  lemma {:induction false} RunKeepsAskedFor(s: State, es: seq<Event>)
    requires AskedFor(s)
    ensures AskedFor(Run(s, es))
  {
    hide Step, AskedFor;
    if es != [] {
      RunKeepsAskedFor(s, es[..|es| - 1]);
      StepKeepsAskedFor(Run(s, es[..|es| - 1]), es[|es| - 1]);
    }
  }

  /** A jammer that died is reported: over all runs without exception, whenever a transmitter is held that does not
      transmit, the status raises its error. */
  lemma DeathIsReported(enabled: bool, cfg: int, deathsig: bool, es: seq<Event>)
    ensures var s := Run(Initial(enabled, cfg, deathsig), es);
            s.itf.Some? && !Live(s.bench, s.itf.value) ==> Reported(s)
  {
    hide Run;
    RunKeepsAskedFor(Initial(enabled, cfg, deathsig), es);
  }

  lemma StepStaysDismissed(s: State, e: Event)
    requires Dismissed(s) && AskedFor(s) && !Arms(s, e)
    ensures Dismissed(Step(s, e))
  {
    hide OnOwner;
  }

  /** And a disarmed one is not: no error from the disarm on, until the next arming. */
  lemma {:induction false} DisarmIsNotReported(s: State, cfg: int, es: seq<Event>)
    requires s.pc.Free? && NeverArms(Step(s, ApplyOff(cfg)), es)
    ensures var t := Run(Step(s, ApplyOff(cfg)), es);
            Dismissed(t) && AskedFor(t) && !Reported(t)
  {
    hide Step, Arms, AskedFor, Dismissed;
    if es == [] {
      Dismisses(s, cfg);
    } else {
      var n := |es| - 1;
      assert forall k :: 0 <= k < n ==> es[..n][..k] == es[..k];
      DisarmIsNotReported(s, cfg, es[..n]);
      var t := Run(Step(s, ApplyOff(cfg)), es[..n]);
      assert !Arms(t, es[n]);
      StepStaysDismissed(t, es[n]);
      StepKeepsAskedFor(t, es[n]);
    }
    NotReported(Run(Step(s, ApplyOff(cfg)), es));
  }

  lemma Dismisses(s: State, cfg: int)
    requires s.pc.Free?
    ensures Dismissed(Step(s, ApplyOff(cfg))) && AskedFor(Step(s, ApplyOff(cfg)))
  {
  }

  lemma NotReported(s: State)
    requires Dismissed(s)
    ensures !Reported(s)
  {
  }

  // ---- when something fails ----------------------------------------------------------------------------

  /** Giving up never starts anything: it queues at most the close of what was being started. */
  lemma GivingUpStartsNothing(s: State)
    ensures var b := Step(s, Timeout).bench;
            b == s.bench || (s.pc.ArmStart? && b == Push(s.bench, Close(s.pc.id)))
    ensures Step(s, Timeout).itf == s.itf
  {
    hide Push;
  }

  /** A process that exits while it settles fails its start: the instrument holds nothing, nothing transmits, and the
      status reports it. */
  lemma DeadStartIsNotHeld(s: State, cfg: int) returns (t: State)
    requires AtRest(s) && s.itf.None? && forall i: nat :: !Live(s.bench, i)
    ensures var i := |s.bench.radios|;
            t == Run(Step(s, ApplyOn(cfg)),
                     [Owner(true), Reply, Owner(true), Die(i), Owner(true)] + [Reply, Owner(true), Reply])
    ensures AtRest(t) && t.itf.None? && Reported(t) && forall j: nat :: !Live(t.bench, j)
  {
    hide Run;
    var i := |s.bench.radios|;
    var s1 := Step(s, ApplyOn(cfg));
    forall j: nat ensures !Live(s1.bench, j) { assert !Live(s.bench, j); }
    var s5 := DeathWhileSettling(s1, i);
    RunFive(s1, Owner(true), Reply, Owner(true), Die(i), Owner(true));
    t := FailureCleared(s5, i);
    RunThree(s5, Reply, Owner(true), Reply);
    RunConcat(s1, [Owner(true), Reply, Owner(true), Die(i), Owner(true)], [Reply, Owner(true), Reply]);
  }

  lemma DeathWhileSettling(s: State, i: nat) returns (t: State)
    requires s.enabled && s.pc.ArmNew? && s.bench.queue == [Item(New, s.pc.ticket)] && !s.bench.retired
    requires s.itf.None? && s.intended && i == |s.bench.radios| && forall j: nat :: !Live(s.bench, j)
    ensures t == Step(Step(Step(Step(Step(s, Owner(true)), Reply), Owner(true)), Die(i)), Owner(true))
    ensures t.enabled && t.itf.None? && t.intended && t.bench.queue == [] && !t.bench.retired
    ensures t.pc.ArmStart? && t.pc.id == i && t.pc.ticket in t.bench.answers && t.bench.answers[t.pc.ticket].Failed?
    ensures forall j: nat :: !Live(t.bench, j)
  {
    var s1 := Step(s, Owner(true));
    assert s1.bench.queue == [] && s1.bench.radios == s.bench.radios + [Radio(Idle, s.cfg)];
    var s2 := Step(s1, Reply);
    assert s2.bench.queue == [Item(Start(i), s.bench.next)];
    var s3 := Step(s2, Owner(true));
    assert s3.bench.queue == [Item(Settle(i), s.bench.next)] && Live(s3.bench, i);
    var s4 := Step(s3, Die(i));
    t := Step(s4, Owner(true));
    forall j: nat ensures !Live(t.bench, j) { assert !Live(s.bench, j); }
  }

  lemma FailureCleared(s: State, i: nat) returns (t: State)
    requires s.enabled && s.itf.None? && s.intended && s.bench.queue == [] && !s.bench.retired
    requires s.pc.ArmStart? && s.pc.id == i && s.pc.ticket in s.bench.answers && s.bench.answers[s.pc.ticket].Failed?
    requires forall j: nat :: !Live(s.bench, j)
    ensures t == Step(Step(Step(s, Reply), Owner(true)), Reply)
    ensures AtRest(t) && t.itf.None? && Reported(t) && forall j: nat :: !Live(t.bench, j)
  {
    var s1 := Step(s, Reply);
    assert s1.bench.queue == [Item(Close(i), s.bench.next)];
    var s2 := Step(s1, Owner(true));
    t := Step(s2, Reply);
    forall j: nat ensures !Live(t.bench, j) { assert !Live(s.bench, j); }
  }

  lemma RunThree(s: State, a: Event, b: Event, c: Event)
    ensures Run(s, [a, b, c]) == Step(Step(Step(s, a), b), c)
  {
    hide Step, Run;
    RunTwo(s, a, b);
    RunMore(s, [a, b], c);
    assert [a, b] + [c] == [a, b, c];
  }

  /** A retune to where the transmitter already is leaves it alone. */
  lemma RetuneInPlaceIsNothing(b: Bench, ok: bool, cfg: int, i: nat, f: int)
    requires !b.retired && b.queue != [] && b.queue[0].cmd == Retune(i, f)
    requires i < |b.radios| && b.radios[i] == Radio(Running, f)
    ensures OnOwner(b, ok, cfg).radios == b.radios && OnOwner(b, ok, cfg).queue == b.queue[1..]
  {
  }
}
