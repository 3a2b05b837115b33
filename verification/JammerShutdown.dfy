/** gr_autopilot/hardware/jammer.py, shutdown: what survives it. The None that retires the owner thread is queued
    after the lock is released, so an arming command may still come in between. */
module JammerShutdown {
  import opened Basics
  import opened Jammer

  /** Whoever holds the lock queues at most one command a step. */
  lemma AtMostOnePushed(s: State, e: Event)
    requires !e.Owner? && !e.Die?
    ensures var b := Step(s, e).bench;
            b == s.bench || exists cmd :: b == Push(s.bench, cmd)
  {
    hide Push;
  }

  // ---- processes die with the thread that started them -----------------------------------------

  /** Where the kernel signals the death of the starting thread, nothing outlives the owner thread. */
  ghost predicate DiesWithOwner(b: Bench) {
    b.deathsig && (b.retired ==> forall i: nat :: !Live(b, i))
  }

  lemma OwnerDeathStep(b: Bench, ok: bool, cfg: int)
    requires DiesWithOwner(b)
    ensures DiesWithOwner(OnOwner(b, ok, cfg))
  {
  }

  lemma DeathStep(s: State, e: Event)
    requires DiesWithOwner(s.bench)
    ensures DiesWithOwner(Step(s, e).bench)
  {
    if e.Owner? {
      OwnerDeathStep(s.bench, e.ok, s.cfg);
    } else {
      if !e.Die? { AtMostOnePushed(s, e); }
      forall i: nat | s.bench.retired ensures !Live(Step(s, e).bench, i) { assert !Live(s.bench, i); }
    }
    hide OnOwner;
  }

  /** Over all runs without exception: with the death signal in place no transmitter outlives the owner thread. */
  lemma {:induction false} RetiredIsSilent(enabled: bool, cfg: int, es: seq<Event>)
    ensures DiesWithOwner(Run(Initial(enabled, cfg, true), es).bench)
  {
    if es != [] {
      RetiredIsSilent(enabled, cfg, es[..|es| - 1]);
      DeathStep(Run(Initial(enabled, cfg, true), es[..|es| - 1]), es[|es| - 1]);
      hide Step, DiesWithOwner;
    }
  }

  // ---- once the None is queued -------------------------------------------------------------------

  /** What the owner thread will still run: the queue up to the first None. */
  function Served(q: seq<Item>): seq<Item> {
    if q == [] || q[0].cmd.Retire? then [] else [q[0]] + Served(q[1..])
  }

  ghost predicate NoneQueued(q: seq<Item>) { exists k :: 0 <= k < |q| && q[k].cmd.Retire? }

  /** The owner thread has returned or will, before anything that is queued from now on. */
  ghost predicate Closed(b: Bench) { b.retired || NoneQueued(b.queue) }

  /** Nothing the owner thread still runs will leave transmitter i running. */
  ghost predicate Fades(b: Bench, i: nat) {
    if b.retired then !Live(b, i) else !MayRun(Served(b.queue), i, Live(b, i))
  }

  ghost predicate Closing(b: Bench) { Closed(b) && forall i: nat :: Fades(b, i) }

  lemma {:induction false} ServedIgnoresTheRest(q: seq<Item>, x: Item)
    ensures NoneQueued(q) ==> Served(q + [x]) == Served(q)
    ensures !NoneQueued(q) && x.cmd.Retire? ==> Served(q + [x]) == q
    ensures !NoneQueued(q) ==> Served(q) == q
  {
    if q == [] {
      assert q + [x] == [x] && [x][1..] == [];
    } else {
      assert (q + [x])[1..] == q[1..] + [x];
      assert q == [q[0]] + q[1..];
      ServedIgnoresTheRest(q[1..], x);
      if NoneQueued(q) && !q[0].cmd.Retire? {
        var k :| 0 <= k < |q| && q[k].cmd.Retire?;
        assert q[1..][k - 1].cmd.Retire?;
      }
    }
  }

  /** A command queued behind the None changes nothing. */
  lemma PushKeepsClosing(b: Bench, cmd: Command)
    requires Closing(b)
    ensures Closing(Push(b, cmd))
  {
    hide MayRun;
    if !b.retired {
      var k :| 0 <= k < |b.queue| && b.queue[k].cmd.Retire?;
      assert Push(b, cmd).queue[k].cmd.Retire?;
      ServedIgnoresTheRest(b.queue, Item(cmd, b.next));
    }
    forall i: nat ensures Fades(Push(b, cmd), i) { assert Fades(b, i); }
  }

  lemma ServedHead(q: seq<Item>)
    requires q != [] && !q[0].cmd.Retire?
    ensures Served(q)[1..] == Served(q[1..]) && Served(q) != [] && Served(q)[0] == q[0]
    ensures NoneQueued(q) ==> NoneQueued(q[1..])
  {
    if NoneQueued(q) {
      var k :| 0 <= k < |q| && q[k].cmd.Retire?;
      assert q[1..][k - 1].cmd.Retire?;
    }
  }

  lemma OwnerFades(b: Bench, ok: bool, cfg: int, i: nat)
    requires Closing(b) && !b.retired && !b.queue[0].cmd.Retire?
    ensures Fades(OnOwner(b, ok, cfg), i) && Closed(OnOwner(b, ok, cfg)) && !OnOwner(b, ok, cfg).retired
  {
    var b' := OnOwner(b, ok, cfg);
    assert !b'.retired && Fades(b, i);
    OwnerEffect(b, ok, cfg, i);
    OwnerQueue(b, ok, cfg);
    ServedHead(b.queue);
    MayRunMonotone(Served(b.queue[1..]), i);
    hide OnOwner, Effect, Live;
    if b'.queue != b.queue[1..] {
      assert b'.queue[1..] == b.queue[1..];
      ServedHead(b'.queue);
      var k :| 0 <= k < |b.queue[1..]| && b.queue[1..][k].cmd.Retire?;
      assert b'.queue[k + 1].cmd.Retire?;
    }
  }

  lemma OwnerKeepsClosing(b: Bench, ok: bool, cfg: int)
    requires Closing(b)
    ensures Closing(OnOwner(b, ok, cfg))
  {
    if !b.retired {
      assert b.queue != [];
      if b.queue[0].cmd.Retire? {
        forall i: nat ensures Fades(OnOwner(b, ok, cfg), i) { assert Fades(b, i); }
      } else {
        OwnerFades(b, ok, cfg, 0);
        forall i: nat ensures Fades(OnOwner(b, ok, cfg), i) { OwnerFades(b, ok, cfg, i); }
      }
    }
  }

  lemma DeathKeepsClosing(b: Bench, i: nat)
    requires Closing(b) && Live(b, i)
    ensures Closing(SetProc(b, i, Exited))
  {
    hide MayRun;
    forall j: nat ensures Fades(SetProc(b, i, Exited), j) {
      assert Fades(b, j);
      MayRunMonotone(Served(b.queue), j);
    }
  }

  /** Every step keeps it: once the None is queued no command of anyone can bring a transmitter up again. */
  lemma StepKeepsClosing(s: State, e: Event)
    requires Closing(s.bench)
    ensures Closing(Step(s, e).bench)
  {
    match e
    case Owner(ok) => OwnerKeepsClosing(s.bench, ok, s.cfg);
    case Die(i) => if Live(s.bench, i) { DeathKeepsClosing(s.bench, i); }
    case _ =>
      AtMostOnePushed(s, e);
      hide Closing, Step, Push;
      if Step(s, e).bench != s.bench {
        var cmd :| Step(s, e).bench == Push(s.bench, cmd);
        PushKeepsClosing(s.bench, cmd);
      }
  }

  lemma {:induction false} RunKeepsClosing(s: State, es: seq<Event>)
    requires Closing(s.bench)
    ensures Closing(Run(s, es).bench)
  {
    hide Closing, Step;
    if es != [] {
      RunKeepsClosing(s, es[..|es| - 1]);
      StepKeepsClosing(Run(s, es[..|es| - 1]), es[|es| - 1]);
    }
  }

  // ---- between the lock and the None ---------------------------------------------------------------

  /** Past the lock part of a shutdown: nothing is held, everything queued ends in silence, no None yet. */
  ghost predicate Down(s: State) {
    && s.itf.None? && (s.pc.Free? || (s.pc.DisarmClose? && !s.pc.next.Arm?))
    && !Closed(s.bench) && (forall i: nat :: Quiet(s.bench, i))
  }

  /** The event is an arming that takes effect before the None. */
  ghost predicate ArmsEarly(s: State, e: Event) {
    e.ApplyOn? && s.pc.Free? && s.enabled && !Closed(s.bench)
  }

  lemma ShutdownGoesDown(s: State)
    requires Inv(s) && s.pc.Free? && !Closed(s.bench)
    ensures Down(Step(s, Shutdown))
  {
    if s.itf.Some? { QuietAppended(s.bench, Close(s.itf.value)); }
    hide Quiet;
  }

  lemma OwnerKeepsOpen(b: Bench, ok: bool, cfg: int)
    requires !Closed(b)
    ensures !Closed(OnOwner(b, ok, cfg))
  {
    if b.queue != [] {
      assert !b.queue[0].cmd.Retire?;
      OwnerQueue(b, ok, cfg);
    }
  }

  lemma NoneCloses(s: State)
    requires Down(s) && s.retiring > 0
    ensures Closing(Step(s, QueueRetire).bench)
  {
    var b := Step(s, QueueRetire).bench;
    ServedIgnoresTheRest(s.bench.queue, Item(Retire, s.bench.next));
    assert b.queue[|s.bench.queue|].cmd.Retire?;
    hide MayRun;
    forall i: nat ensures Fades(b, i) { assert Quiet(s.bench, i); }
  }

  lemma DownStep(s: State, e: Event)
    requires Down(s) && !ArmsEarly(s, e)
    ensures Down(Step(s, e)) || Closing(Step(s, e).bench)
  {
    hide Quiet, Closing;
    match e
    case Owner(ok) =>
      forall i: nat ensures Quiet(OnOwner(s.bench, ok, s.cfg), i) { OwnerKeepsQuiet(s.bench, ok, s.cfg, i); }
      OwnerKeepsOpen(s.bench, ok, s.cfg);
      hide OnOwner;
    case Die(i) => DeathKeepsQuiet(s.bench, i);
    case QueueRetire => if s.retiring > 0 { NoneCloses(s); }
    case _ =>
  }

  lemma DeathKeepsQuiet(b: Bench, i: nat)
    ensures forall j: nat :: Quiet(b, j) && Live(b, i) ==> Quiet(SetProc(b, i, Exited), j)
  {
    forall j: nat | Quiet(b, j) && Live(b, i) ensures Quiet(SetProc(b, i, Exited), j) { MayRunMonotone(b.queue, j); }
  }

  /** No arming takes effect between the shutdown and its None. */
  ghost predicate NeverArmsEarly(s: State, es: seq<Event>) {
    forall k :: 0 <= k < |es| ==> !ArmsEarly(Run(s, es[..k]), es[k])
  }

  lemma {:induction false} SettingDown(s: State, es: seq<Event>)
    requires Down(s) && NeverArmsEarly(s, es)
    ensures Down(Run(s, es)) || Closing(Run(s, es).bench)
  {
    hide Down, Closing, Step, ArmsEarly;
    if es != [] {
      var n := |es| - 1;
      assert forall k :: 0 <= k < n ==> es[..n][..k] == es[..k];
      assert !ArmsEarly(Run(s, es[..n]), es[n]);
      SettingDown(s, es[..n]);
      var now := Run(s, es[..n]);
      if Closing(now.bench) { StepKeepsClosing(now, es[n]); } else { DownStep(now, es[n]); }
    }
  }

  lemma DownIsSilent(s: State)
    requires Down(s) || Closing(s.bench)
    ensures s.bench.retired || s.bench.queue == [] ==> forall i: nat :: !Live(s.bench, i)
  {
    forall i: nat | s.bench.retired || s.bench.queue == [] ensures !Live(s.bench, i) {
      if Down(s) { assert Quiet(s.bench, i); } else { assert Fades(s.bench, i); }
    }
  }

  /** After a shutdown, unless an arming slips in before its None, no transmitter runs once the owner thread has
      returned or has nothing left to do, whatever timed out, died, was retuned or is commanded afterwards. */
  lemma ShutdownLeavesNothing(s: State, es: seq<Event>)
    requires Inv(s) && s.pc.Free? && !Closed(s.bench)
    requires NeverArmsEarly(Step(s, Shutdown), es)
    ensures var t := Run(Step(s, Shutdown), es);
            t.bench.retired || t.bench.queue == [] ==> forall i: nat :: !Live(t.bench, i)
  {
    hide Inv, Closed, NeverArmsEarly, Down, Closing, Step, Run;
    ShutdownGoesDown(s);
    SettingDown(Step(s, Shutdown), es);
    DownIsSilent(Run(Step(s, Shutdown), es));
  }

  // ---- the condition is exact ------------------------------------------------------------------------

  /** Whatever follows, nothing runs once the owner thread has returned. */
  ghost predicate SilentFrom(s: State) {
    forall es: seq<Event> :: Run(s, es).bench.retired ==> forall i: nat :: !Live(Run(s, es).bench, i)
  }

  /** An arming that takes effect before the None leaves its transmitter running when the owner thread returns. */
  lemma EarlyArmingSurvives(s: State, cfg: int) returns (es: seq<Event>, i: nat)
    requires Down(s) && Tickets(s.bench) && IdsKnown(s.bench)
    requires s.pc.Free? && s.enabled && s.retiring > 0 && !s.bench.deathsig
    ensures var t := Run(Step(s, ApplyOn(cfg)), es);
            t.bench.retired && Live(t.bench, i)
  {
    var s1 := Step(s, ApplyOn(cfg));
    var x := Item(New, s.bench.next);
    Appended(s.bench, New);
    var ahead := ServeAhead(s1, s.bench.queue, x, 0);
    var s2 := Run(s1, ahead);
    var arm := FinishArming(s2);
    i := |s2.bench.radios|;
    var s3 := Run(s2, arm);
    assert Live(s3.bench, i) && s3.retiring > 0 && s3.bench.queue == [] && !s3.bench.deathsig;
    var s4 := Step(s3, QueueRetire);
    assert s4.bench.queue == [Item(Retire, s3.bench.next)];
    var s5 := Step(s4, Owner(true));
    assert s5.bench.retired && Live(s5.bench, i);
    hide Step, Down, Tickets, IdsKnown, Live;
    RunConcat(s1, ahead, arm);
    RunMore(s1, ahead + arm, QueueRetire);
    RunMore(s1, ahead + arm + [QueueRetire], Owner(true));
    es := ahead + arm + [QueueRetire] + [Owner(true)];
  }

  /** The condition is exact: once a shutdown is past the lock, arming is harmless, whatever follows, if and only if
      the None is already queued. */
  lemma LateArmingIsSafeIff(s: State, cfg: int)
    requires (Down(s) && s.retiring > 0) || Closing(s.bench)
    requires Tickets(s.bench) && IdsKnown(s.bench) && s.pc.Free? && s.enabled && !s.bench.deathsig
    ensures SilentFrom(Step(s, ApplyOn(cfg))) <==> Closed(s.bench)
  {
    var s1 := Step(s, ApplyOn(cfg));
    hide Step, Run, Down, Tickets, IdsKnown;
    if Closed(s.bench) {
      assert Closing(s.bench) by { OpenWhileDown(s); }
      StepKeepsClosing(s, ApplyOn(cfg));
      forall es: seq<Event> | Run(s1, es).bench.retired ensures forall i: nat :: !Live(Run(s1, es).bench, i) {
        RunKeepsClosing(s1, es);
        DownIsSilent(Run(s1, es));
      }
    } else {
      var es, i := EarlyArmingSurvives(s, cfg);
      assert Run(s1, es).bench.retired && Live(Run(s1, es).bench, i);
    }
  }

  lemma OpenWhileDown(s: State)
    ensures Down(s) ==> !Closed(s.bench)
  {
  }

  /** The window is real: on a fresh instrument, shut down and then armed before the None, a transmitter survives. */
  lemma ShutdownCanLoseTheRace(cfg: int)
    ensures exists es: seq<Event> ::
              var t := Run(Step(Step(Initial(true, cfg, false), Shutdown), ApplyOn(cfg)), es);
              t.bench.retired && exists i: nat :: Live(t.bench, i)
  {
    var s0 := Initial(true, cfg, false);
    InitialInv(true, cfg, false);
    ShutdownGoesDown(s0);
    var s := Step(s0, Shutdown);
    assert Tickets(s.bench) && IdsKnown(s.bench) && s.retiring == 1 && s.pc.Free? && s.enabled;
    hide Step, Run, Down, Tickets, IdsKnown, Initial;
    var es, i := EarlyArmingSurvives(s, cfg);
    assert Live(Run(Step(s, ApplyOn(cfg)), es).bench, i);
  }

  /** The transmitter orphaned by an arming over a queued restart is beyond the reach of a shutdown: it runs on through
      the disarm, and past the end of the owner thread unless the kernel ends it there. */
  lemma OrphanOutlivesShutdown(cfg: int, f: int, deathsig: bool) returns (es: seq<Event>, j: nat)
    requires f != cfg
    ensures var s := Run(Initial(true, cfg, deathsig), es);
            var down := Run(s, [Shutdown, Owner(true), Reply]);
            var over := Run(down, [QueueRetire, Owner(true)]);
            s.pc.Free? && down.pc.Free? && down.itf.None? && down.bench.queue == [] && Live(down.bench, j)
            && over.bench.retired && (Live(over.bench, j) <==> !deathsig)
  {
    var i;
    es, i, j := TwoTransmitters(cfg, f, deathsig);
    var s := Run(Initial(true, cfg, deathsig), es);
    RunKeepsDeathsig(Initial(true, cfg, deathsig), es);
    hide Run, Safe;
    var down := HeldIsClosed(s, i, j);
    NoneRetires(down, j);
  }

  lemma HeldIsClosed(s: State, i: nat, j: nat) returns (t: State)
    requires s.pc.Free? && s.bench.queue == [] && !s.bench.retired && s.itf == Some(i) && i != j && Live(s.bench, j)
    ensures t == Run(s, [Shutdown, Owner(true), Reply])
    ensures t.pc.Free? && t.itf.None? && t.bench.queue == [] && !t.bench.retired && t.retiring > 0 && Live(t.bench, j)
            && t.bench.deathsig == s.bench.deathsig
  {
    t := CloseSteps(s, i, j);
    hide Step, Live;
    RunMore(s, [], Shutdown);
    RunMore(s, [Shutdown], Owner(true));
    RunMore(s, [Shutdown, Owner(true)], Reply);
    assert [] + [Shutdown] == [Shutdown] && [Shutdown] + [Owner(true)] == [Shutdown, Owner(true)];
    assert [Shutdown, Owner(true)] + [Reply] == [Shutdown, Owner(true), Reply];
    assert Run(s, []) == s;
  }

  lemma CloseSteps(s: State, i: nat, j: nat) returns (t: State)
    requires s.pc.Free? && s.bench.queue == [] && !s.bench.retired && s.itf == Some(i) && i != j && Live(s.bench, j)
    ensures t == Step(Step(Step(s, Shutdown), Owner(true)), Reply)
    ensures t.pc.Free? && t.itf.None? && t.bench.queue == [] && !t.bench.retired && t.retiring > 0 && Live(t.bench, j)
            && t.bench.deathsig == s.bench.deathsig
  {
    var s1 := Step(s, Shutdown);
    assert s1.bench.queue == [Item(Close(i), s.bench.next)];
    var s2 := Step(s1, Owner(true));
    assert s2.bench.queue == [] && s2.bench.answers[s.bench.next] == Fine && Live(s2.bench, j);
    hide OnOwner, Live;
    t := Step(s2, Reply);
  }

  lemma NoneSteps(s: State, j: nat)
    requires s.retiring > 0 && s.bench.queue == [] && !s.bench.retired && Live(s.bench, j)
    ensures var t := Step(Step(s, QueueRetire), Owner(true));
            t.bench.retired && (Live(t.bench, j) <==> !s.bench.deathsig)
  {
    assert Step(s, QueueRetire).bench.queue == [Item(Retire, s.bench.next)];
  }

  lemma NoneRetires(s: State, j: nat)
    requires s.retiring > 0 && s.bench.queue == [] && !s.bench.retired && Live(s.bench, j)
    ensures var t := Run(s, [QueueRetire, Owner(true)]);
            t.bench.retired && (Live(t.bench, j) <==> !s.bench.deathsig)
  {
    hide Step, Live, Run;
    NoneSteps(s, j);
    RunTwo(s, QueueRetire, Owner(true));
  }

  lemma RunTwo(s: State, e: Event, f: Event)
    ensures Run(s, [e, f]) == Step(Step(s, e), f)
  {
    hide Step;
    assert [e, f][..1] == [e] && [e][..0] == [];
    assert Run(s, []) == s;
    assert Run(s, [e]) == Step(s, e);
  }
}
