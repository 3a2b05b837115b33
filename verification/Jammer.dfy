/** gr_autopilot/hardware/jammer.py: the operator's jammer instrument as a protocol between the
    lock holder (an operator command or a follower), the FIFO owner thread that runs every process
    command, and transmitter processes that may die at any moment. */
module Jammer {

  import opened Basics

  // ---- state -----------------------------------------------------------------------------

  /** The subprocess handle of one interferer: absent, transmitting, or exited on its own. */
  datatype Proc = Idle | Running | Exited

  datatype Radio = Radio(proc: Proc, freq: int)

  /** What the owner thread is asked to run. Starting takes two steps, launch and settle; retuning
      stops the process and then starts it. Retire is the None that ends the thread. */
  datatype Command = New | Start(id: nat) | Settle(id: nat) | Close(id: nat) | Retune(id: nat, freq: int) | Retire

  datatype Item = Item(cmd: Command, ticket: nat)

  datatype Answer = Made(id: nat) | Fine | Failed

  /** What follows the close of a disarm. */
  datatype Then = Return | Arm | Finish

  /** Where the holder of the lock is; Free when nobody holds it. */
  datatype Pc =
    | Free
    | ArmNew(ticket: nat)
    | ArmStart(id: nat, ticket: nat)
    | ArmCleanup(ticket: nat)
    | DisarmClose(ticket: nat, next: Then)
    | Following(ticket: nat, freq: int)

  /** What the owner thread works on. */
  datatype Bench = Bench(
    radios: seq<Radio>,           // every interferer ever built, by creation order
    queue: seq<Item>,             // the command under way is still the head
    retired: bool,                // the owner thread has returned
    answers: map<nat, Answer>,    // slots that are done
    next: nat,                    // next unused slot
    deathsig: bool)               // whether the kernel ends a process when the thread that started it ends

  datatype State = State(
    enabled: bool,
    bench: Bench,
    itf: Option<nat>,             // the interferer the instrument holds
    cfg: int,
    intended: bool,
    pc: Pc,
    retiring: nat)                // shutdowns past the lock that have not queued their None yet

  function Initial(enabled: bool, cfg: int, deathsig: bool): State {
    State(enabled, Bench([], [], false, map[], 0, deathsig), None, cfg, false, Free, 0)
  }

  // ---- steps -----------------------------------------------------------------------------

  datatype Event =
    | ApplyOn(cfg: int)      // operator: arm, or change parameters while armed
    | ApplyOff(cfg: int)     // operator: disarm, keeping the parameters for the next arming
    | Shutdown
    | Follow(freq: int)      // a follower thread retunes the held interferer, unless it is there already
    | Reply                  // the lock holder sees its slot done
    | Timeout                // the lock holder gives up waiting for its slot
    | QueueRetire            // a finished shutdown queues None, outside the lock
    | Owner(ok: bool)        // the owner thread makes one step of its head command
    | Die(id: nat)           // a transmitter process exits on its own

  function ProcOf(b: Bench, i: nat): Proc { if i < |b.radios| then b.radios[i].proc else Idle }

  predicate Live(b: Bench, i: nat) { ProcOf(b, i) == Running }

  predicate TunedTo(b: Bench, i: nat, f: int) { i < |b.radios| && b.radios[i].freq == f }

  predicate IsArmed(s: State) { s.itf.Some? && Live(s.bench, s.itf.value) }

  function Push(b: Bench, cmd: Command): Bench {
    b.(queue := b.queue + [Item(cmd, b.next)], next := b.next + 1)
  }

  function Enqueue(s: State, cmd: Command): State { s.(bench := Push(s.bench, cmd)) }

  function BeginArm(s: State): State { Enqueue(s, New).(pc := ArmNew(s.bench.next)) }

  /** The held interferer is let go and its close queued. */
  function BeginDisarm(s: State, next: Then): State
    requires s.itf.Some?
  {
    Enqueue(s, Close(s.itf.value)).(itf := None, pc := DisarmClose(s.bench.next, next))
  }

  function Apply(s: State, cfg: int): State {
    if !s.enabled then s
    else
      var s1 := s.(cfg := cfg, intended := true);
      if !IsArmed(s) then BeginArm(s1)
      else if cfg != s.cfg then BeginDisarm(s1, Arm)
      else s1
  }

  /** What the lock holder does once its disarm is over, answered or given up. */
  function AfterDisarm(s: State, next: Then, closed: bool): State {
    match next
    case Return => s.(pc := Free)
    case Finish => s.(pc := Free, retiring := s.retiring + 1)
    case Arm => if closed then BeginArm(s) else s.(pc := Free)
  }

  function OnReply(s: State): State {
    match s.pc
    case Free => s
    case ArmNew(t) =>
      if t !in s.bench.answers then s
      else if s.bench.answers[t].Made? then
        Enqueue(s, Start(s.bench.answers[t].id)).(pc := ArmStart(s.bench.answers[t].id, s.bench.next))
      else s.(pc := Free)
    case ArmStart(i, t) =>
      if t !in s.bench.answers then s
      else if s.bench.answers[t].Failed? then Enqueue(s, Close(i)).(pc := ArmCleanup(s.bench.next))
      else s.(itf := Some(i), pc := Free)
    case ArmCleanup(t) => if t !in s.bench.answers then s else s.(pc := Free)
    case DisarmClose(t, next) => if t !in s.bench.answers then s else AfterDisarm(s, next, true)
    case Following(t, f) =>
      if t !in s.bench.answers then s
      else if s.bench.answers[t].Failed? then s.(pc := Free)
      else s.(pc := Free, cfg := f)
  }

  function OnTimeout(s: State): State {
    match s.pc
    case Free => s
    case ArmNew(_) => s.(pc := Free)
    case ArmStart(i, _) => Enqueue(s, Close(i)).(pc := ArmCleanup(s.bench.next))
    case ArmCleanup(_) => s.(pc := Free)
    case DisarmClose(_, next) => AfterDisarm(s, next, false)
    case Following(_, _) => s.(pc := Free)
  }

  function SetProc(b: Bench, i: nat, proc: Proc): Bench {
    if i < |b.radios| then b.(radios := b.radios[i := b.radios[i].(proc := proc)]) else b
  }

  /** The head command is over. */
  function Finished(b: Bench, a: Answer): Bench
    requires b.queue != []
  {
    b.(queue := b.queue[1..], answers := b.answers[b.queue[0].ticket := a])
  }

  /** The head command goes on as another one, for the same slot. */
  function Becomes(b: Bench, cmd: Command): Bench
    requires b.queue != []
  {
    b.(queue := [Item(cmd, b.queue[0].ticket)] + b.queue[1..])
  }

  /** The owner thread is gone, and with it every process it started. */
  function Silenced(radios: seq<Radio>): (r: seq<Radio>)
    ensures |r| == |radios|
  {
    seq(|radios|, i requires 0 <= i < |radios| =>
      if radios[i].proc.Running? then radios[i].(proc := Exited) else radios[i])
  }

  function OnOwner(b: Bench, ok: bool, cfg: int): Bench {
    if b.retired || b.queue == [] then b
    else match b.queue[0].cmd
      case New =>
        if ok then Finished(b, Made(|b.radios|)).(radios := b.radios + [Radio(Idle, cfg)]) else Finished(b, Failed)
      case Start(i) =>
        if ProcOf(b, i) != Idle then Finished(b, Fine)
        else if ok then Becomes(SetProc(b, i, Running), Settle(i))
        else Finished(b, Failed)
      case Settle(i) =>
        if ProcOf(b, i) == Exited then Finished(SetProc(b, i, Idle), Failed) else Finished(b, Fine)
      case Close(i) => Finished(SetProc(b, i, Idle), Fine)
      case Retune(i, f) =>
        if i < |b.radios| && b.radios[i] == Radio(Running, f) then Finished(b, Fine)
        else if i < |b.radios| then Becomes(b.(radios := b.radios[i := Radio(Idle, f)]), Start(i))
        else Finished(b, Failed)
      case Retire =>
        b.(queue := b.queue[1..], retired := true, radios := if b.deathsig then Silenced(b.radios) else b.radios)
  }

  function Step(s: State, e: Event): State {
    match e
    case ApplyOn(cfg) => if s.pc.Free? then Apply(s, cfg) else s
    case ApplyOff(cfg) =>
      if !s.pc.Free? then s
      else if s.itf.None? then s.(cfg := cfg, intended := false)
      else BeginDisarm(s.(cfg := cfg, intended := false), Return)
    case Shutdown =>
      if !s.pc.Free? then s
      else if s.itf.None? then s.(intended := false, retiring := s.retiring + 1)
      else BeginDisarm(s.(intended := false), Finish)
    case Follow(f) =>
      if s.pc.Free? && s.itf.Some? && !TunedTo(s.bench, s.itf.value, f) then
        Enqueue(s, Retune(s.itf.value, f)).(pc := Following(s.bench.next, f))
      else s
    case Reply => OnReply(s)
    case Timeout => OnTimeout(s)
    case QueueRetire => if s.retiring > 0 then Enqueue(s, Retire).(retiring := s.retiring - 1) else s
    case Owner(ok) => s.(bench := OnOwner(s.bench, ok, s.cfg))
    case Die(i) => if Live(s.bench, i) then s.(bench := SetProc(s.bench, i, Exited)) else s
  }

  function Run(s: State, es: seq<Event>): State {
    if es == [] then s else Step(Run(s, es[..|es| - 1]), es[|es| - 1])
  }

  // ---- what the queue will do to one transmitter -------------------------------------------

  /** Whether transmitter i may be running once cmd is done, given whether it may be before. */
  function Effect(cmd: Command, i: nat, before: bool): bool {
    match cmd
    case Start(j) => before || j == i
    case Retune(j, _) => before || j == i
    case Close(j) => before && j != i
    case _ => before
  }

  function MayRun(q: seq<Item>, i: nat, before: bool): bool {
    if q == [] then before else MayRun(q[1..], i, Effect(q[0].cmd, i, before))
  }

  lemma {:induction false} MayRunAppend(q: seq<Item>, x: Item, i: nat, before: bool)
    ensures MayRun(q + [x], i, before) == Effect(x.cmd, i, MayRun(q, i, before))
  {
    if q == [] {
      assert q + [x] == [x];
      assert MayRun([x], i, before) == MayRun([x][1..], i, Effect(x.cmd, i, before));
    } else {
      hide Effect;
      assert (q + [x])[1..] == q[1..] + [x];
      MayRunAppend(q[1..], x, i, Effect(q[0].cmd, i, before));
    }
  }

  lemma {:induction false} MayRunMonotone(q: seq<Item>, i: nat)
    ensures MayRun(q, i, false) ==> MayRun(q, i, true)
  {
    if q != [] { MayRunMonotone(q[1..], i); }
  }

  /** Nothing queued will leave transmitter i running. */
  ghost predicate Quiet(b: Bench, i: nat) { !MayRun(b.queue, i, Live(b, i)) }

  /** Held by the instrument, or started for it and not yet recorded. */
  predicate Owned(s: State, i: nat) { s.itf == Some(i) || (s.pc.ArmStart? && s.pc.id == i) }

  predicate Arming(s: State) { s.pc.ArmNew? || s.pc.ArmStart? }

  /** Slots are served in order: answered ones precede the queued ones, which precede the unused. */
  ghost predicate Tickets(b: Bench) {
    && (forall k :: 0 <= k < |b.queue| ==> b.queue[k].ticket < b.next)
    && (forall k, l :: 0 <= k < l < |b.queue| ==> b.queue[k].ticket < b.queue[l].ticket)
    && (forall t, k :: t in b.answers && 0 <= k < |b.queue| ==> t < b.queue[k].ticket)
    && (forall t :: t in b.answers ==> t < b.next)
  }

  /** The commands queued for i can only be retunes, or the start a retune has turned into. */
  ghost predicate OnlyRetunes(b: Bench, i: nat) {
    forall k :: 0 <= k < |b.queue| ==>
      b.queue[k].cmd != Close(i) && (b.queue[k].cmd == Start(i) ==> k == 0 && ProcOf(b, i) == Idle)
  }

  predicate Mentions(cmd: Command, i: nat) {
    (cmd.Start? || cmd.Settle? || cmd.Close? || cmd.Retune?) && cmd.id == i
  }

  /** Only interferers that exist have commands queued. */
  ghost predicate IdsKnown(b: Bench) {
    forall k, i: nat :: 0 <= k < |b.queue| && Mentions(b.queue[k].cmd, i) ==> i < |b.radios|
  }

  ghost predicate Untouched(b: Bench, i: nat) {
    i < |b.radios| && forall k :: 0 <= k < |b.queue| ==> !Mentions(b.queue[k].cmd, i)
  }

  /** While interferer i is being started, all that is queued for it is that start, under its slot. */
  ghost predicate StartUnderWay(b: Bench, i: nat, t: nat) {
    && i < |b.radios| && t < b.next
    && forall k :: 0 <= k < |b.queue| && Mentions(b.queue[k].cmd, i) ==>
         (b.queue[k].cmd.Start? || b.queue[k].cmd.Settle?) && b.queue[k].ticket == t
  }

  /** What the lock holder may rely on. */
  ghost predicate Waiting(b: Bench, itf: Option<nat>, pc: Pc) {
    match pc
    case ArmNew(t) =>
      t < b.next && (t in b.answers && b.answers[t].Made? ==>
                       itf != Some(b.answers[t].id) && Untouched(b, b.answers[t].id))
    case ArmStart(i, t) => itf != Some(i) && StartUnderWay(b, i, t)
    case DisarmClose(_, _) => itf.None?
    case _ => true
  }

  ghost predicate Inv(s: State) {
    && Tickets(s.bench) && IdsKnown(s.bench) && Waiting(s.bench, s.itf, s.pc)
    && (forall i: nat :: !Owned(s, i) ==> Quiet(s.bench, i))
    && (s.itf.Some? ==> s.itf.value < |s.bench.radios| && OnlyRetunes(s.bench, s.itf.value))
    && (Arming(s) && s.itf.Some? ==> Quiet(s.bench, s.itf.value))
  }

  /** The one step that can go wrong: arming while the held interferer is not transmitting, with a
      restart of it still queued by a follower that timed out. */
  ghost predicate Guard(s: State, e: Event) {
    e.ApplyOn? && s.pc.Free? && s.enabled && !IsArmed(s) && s.itf.Some? ==> Quiet(s.bench, s.itf.value)
  }

  // ---- every step keeps the invariant --------------------------------------------------------

  lemma PushedFate(b: Bench, cmd: Command, i: nat)
    ensures Quiet(Push(b, cmd), i) <==> !Effect(cmd, i, MayRun(b.queue, i, Live(b, i)))
  {
    MayRunAppend(b.queue, Item(cmd, b.next), i, Live(b, i));
    hide MayRun, Effect;
  }

  /** One owner step, for one transmitter: what may be running afterwards may have been before. */
  lemma OwnerEffect(b: Bench, ok: bool, cfg: int, i: nat)
    requires !b.retired && b.queue != []
    ensures var b', rest, before := OnOwner(b, ok, cfg), b.queue[1..], Effect(b.queue[0].cmd, i, Live(b, i));
            (b'.queue == rest && (Live(b', i) ==> before))
            || (b'.queue != [] && b'.queue == [b'.queue[0]] + rest
                && (Effect(b'.queue[0].cmd, i, Live(b', i)) ==> before))
  {
  }

  lemma MayRunHead(x: Item, rest: seq<Item>, i: nat, before: bool)
    ensures MayRun([x] + rest, i, before) == MayRun(rest, i, Effect(x.cmd, i, before))
  {
    assert ([x] + rest)[1..] == rest;
    hide Effect;
  }

  /** No step of the owner thread revives a transmitter that was quiet. */
  lemma OwnerKeepsQuiet(b: Bench, ok: bool, cfg: int, i: nat)
    requires Quiet(b, i)
    ensures Quiet(OnOwner(b, ok, cfg), i)
  {
    if !b.retired && b.queue != [] {
      var b' := OnOwner(b, ok, cfg);
      OwnerEffect(b, ok, cfg, i);
      MayRunMonotone(b.queue[1..], i);
      assert b.queue == [b.queue[0]] + b.queue[1..];
      MayRunHead(b.queue[0], b.queue[1..], i, Live(b, i));
      if b'.queue != [] && b'.queue != b.queue[1..] {
        MayRunHead(b'.queue[0], b.queue[1..], i, Live(b', i));
      }
      hide OnOwner, MayRun, Effect, Live;
    }
  }

  /** After an owner step the queue is the old one without its head, or with the head's next stage. */
  lemma OwnerQueue(b: Bench, ok: bool, cfg: int)
    requires !b.retired && b.queue != []
    ensures var b', p := OnOwner(b, ok, cfg), b.queue;
            var q := b'.queue;
            q == p[1..] || (q == [q[0]] + p[1..] && q[0].ticket == p[0].ticket &&
                            ((q[0].cmd.Settle? && p[0].cmd == Start(q[0].cmd.id)) ||
                             (q[0].cmd.Start? && p[0].cmd.Retune? && p[0].cmd.id == q[0].cmd.id
                              && ProcOf(b', q[0].cmd.id) == Idle)))
    ensures |b.radios| <= |OnOwner(b, ok, cfg).radios| && OnOwner(b, ok, cfg).next == b.next
  {
  }

  lemma OwnerAnswers(b: Bench, ok: bool, cfg: int)
    requires !b.retired && b.queue != []
    ensures var b', t := OnOwner(b, ok, cfg), b.queue[0].ticket;
            b'.answers == b.answers
            || (b'.queue == b.queue[1..] && t in b'.answers && b'.answers == b.answers[t := b'.answers[t]])
  {
  }

  lemma OwnerKeepsTickets(b: Bench, ok: bool, cfg: int)
    requires Tickets(b)
    ensures Tickets(OnOwner(b, ok, cfg))
    ensures forall t :: t in b.answers ==>
              t in OnOwner(b, ok, cfg).answers && OnOwner(b, ok, cfg).answers[t] == b.answers[t]
    ensures |b.radios| <= |OnOwner(b, ok, cfg).radios| && OnOwner(b, ok, cfg).next == b.next
  {
    if !b.retired && b.queue != [] {
      OwnerQueue(b, ok, cfg);
      OwnerAnswers(b, ok, cfg);
      hide OnOwner, ProcOf;
      assert b.queue[0].ticket !in b.answers;
    }
  }

  lemma OwnerKeepsIds(b: Bench, ok: bool, cfg: int)
    requires IdsKnown(b)
    ensures IdsKnown(OnOwner(b, ok, cfg))
  {
    if !b.retired && b.queue != [] {
      OwnerQueue(b, ok, cfg);
      hide OnOwner, ProcOf;
      var q, p := OnOwner(b, ok, cfg).queue, b.queue;
      forall k, i: nat | 0 <= k < |q| && Mentions(q[k].cmd, i) ensures i < |b.radios| {
        if |q| < |p| {
          assert q[k] == p[k + 1];
        } else if k > 0 {
          assert q[k] == p[k];
        } else {
          assert Mentions(p[0].cmd, i);
        }
      }
    }
  }

  lemma OwnerKeepsOnlyRetunes(b: Bench, ok: bool, cfg: int, i: nat)
    requires i < |b.radios| && OnlyRetunes(b, i)
    ensures OnlyRetunes(OnOwner(b, ok, cfg), i)
  {
    if !b.retired && b.queue != [] {
      OwnerQueue(b, ok, cfg);
      assert forall k :: 1 <= k < |b.queue| ==> b.queue[k].cmd != Start(i);
      assert forall k :: 0 <= k < |b.queue[1..]| ==> b.queue[1..][k] == b.queue[k + 1];
    }
  }

  lemma OwnerKeepsUntouched(b: Bench, ok: bool, cfg: int, i: nat)
    requires Untouched(b, i)
    ensures Untouched(OnOwner(b, ok, cfg), i)
  {
    if !b.retired && b.queue != [] { OwnerQueue(b, ok, cfg); }
  }

  lemma OwnerKeepsStart(b: Bench, ok: bool, cfg: int, i: nat, t: nat)
    requires StartUnderWay(b, i, t)
    ensures StartUnderWay(OnOwner(b, ok, cfg), i, t)
  {
    if !b.retired && b.queue != [] { OwnerQueue(b, ok, cfg); }
  }

  /** An interferer is new when it is announced. */
  lemma OwnerAnnounces(b: Bench, ok: bool, cfg: int, t: nat)
    requires Tickets(b) && IdsKnown(b)
    requires t !in b.answers && t in OnOwner(b, ok, cfg).answers && OnOwner(b, ok, cfg).answers[t].Made?
    ensures OnOwner(b, ok, cfg).answers[t].id == |b.radios| && Untouched(OnOwner(b, ok, cfg), |b.radios|)
  {
    OwnerQueue(b, ok, cfg);
    assert b.queue[0].cmd.New?;
  }

  lemma OwnerKeepsInv(s: State, ok: bool)
    requires Inv(s)
    ensures Inv(Step(s, Owner(ok)))
  {
    hide OnOwner, Tickets, IdsKnown, Quiet, OnlyRetunes, Untouched, StartUnderWay;
    var b, b' := s.bench, OnOwner(s.bench, ok, s.cfg);
    OwnerKeepsTickets(b, ok, s.cfg);
    OwnerKeepsIds(b, ok, s.cfg);
    forall i: nat | Quiet(b, i) ensures Quiet(b', i) { OwnerKeepsQuiet(b, ok, s.cfg, i); }
    if s.itf.Some? { OwnerKeepsOnlyRetunes(b, ok, s.cfg, s.itf.value); }
    match s.pc
    case ArmNew(t) =>
      if t in b.answers {
        if b.answers[t].Made? { OwnerKeepsUntouched(b, ok, s.cfg, b.answers[t].id); }
      } else if t in b'.answers && b'.answers[t].Made? {
        OwnerAnnounces(b, ok, s.cfg, t);
      }
    case ArmStart(i, t) => OwnerKeepsStart(b, ok, s.cfg, i, t);
    case _ =>
  }

  // ---- the other steps -----------------------------------------------------------------------

  lemma Appended(b: Bench, cmd: Command)
    requires Tickets(b) && IdsKnown(b)
    requires forall i: nat :: Mentions(cmd, i) ==> i < |b.radios|
    ensures Tickets(Push(b, cmd)) && IdsKnown(Push(b, cmd))
    ensures forall i: nat :: i < |b.radios| && !Mentions(cmd, i) && OnlyRetunes(b, i) ==> OnlyRetunes(Push(b, cmd), i)
    ensures forall i: nat :: Untouched(b, i) && !Mentions(cmd, i) ==> Untouched(Push(b, cmd), i)
    ensures forall i: nat, t :: StartUnderWay(b, i, t) && !Mentions(cmd, i) ==> StartUnderWay(Push(b, cmd), i, t)
  {
  }

  lemma QuietAppended(b: Bench, cmd: Command)
    ensures forall i: nat :: Quiet(b, i) && cmd != Start(i) && !(cmd.Retune? && cmd.id == i) ==> Quiet(Push(b, cmd), i)
    ensures cmd.Close? ==> Quiet(Push(b, cmd), cmd.id)
  {
    forall i: nat
      ensures Quiet(b, i) && cmd != Start(i) && !(cmd.Retune? && cmd.id == i) ==> Quiet(Push(b, cmd), i)
      ensures cmd == Close(i) ==> Quiet(Push(b, cmd), i)
    {
      PushedFate(b, cmd, i);
    }
    hide MayRun, Push;
  }

  lemma BeginArmKeepsInv(s: State)
    requires Inv(s) && s.pc.Free? && (s.itf.Some? ==> Quiet(s.bench, s.itf.value))
    ensures Inv(BeginArm(s))
  {
    hide Quiet, OnlyRetunes, Untouched, StartUnderWay, IdsKnown;
    Appended(s.bench, New);
    QuietAppended(s.bench, New);
    assert s.bench.next !in s.bench.answers;
  }

  lemma BeginDisarmKeepsInv(s: State, next: Then)
    requires Inv(s) && s.pc.Free? && s.itf.Some?
    ensures Inv(BeginDisarm(s, next))
  {
    hide Quiet, OnlyRetunes, Untouched, StartUnderWay, IdsKnown, Tickets, Push;
    Appended(s.bench, Close(s.itf.value));
    QuietAppended(s.bench, Close(s.itf.value));
  }

  lemma RetuneKeepsInv(s: State, f: int)
    requires Inv(s) && s.pc.Free? && s.itf.Some?
    ensures Inv(Step(s, Follow(f)))
  {
    hide Quiet, Untouched, StartUnderWay, IdsKnown, Tickets;
    var cmd := Retune(s.itf.value, f);
    Appended(s.bench, cmd);
    QuietAppended(s.bench, cmd);
  }

  lemma StartKeepsInv(s: State, t: nat)
    requires Inv(s) && s.pc == ArmNew(t) && t in s.bench.answers && s.bench.answers[t].Made?
    ensures Inv(OnReply(s))
  {
    hide Quiet, OnlyRetunes, IdsKnown, Tickets;
    var cmd := Start(s.bench.answers[t].id);
    Appended(s.bench, cmd);
    QuietAppended(s.bench, cmd);
  }

  lemma GiveUpKeepsInv(s: State)
    requires Inv(s) && s.pc.ArmStart?
    ensures Inv(Enqueue(s, Close(s.pc.id)).(pc := ArmCleanup(s.bench.next)))
  {
    hide Quiet, OnlyRetunes, Untouched, IdsKnown, Tickets;
    Appended(s.bench, Close(s.pc.id));
    QuietAppended(s.bench, Close(s.pc.id));
  }

  lemma RecordKeepsInv(s: State, i: nat, t: nat)
    requires Inv(s) && s.pc == ArmStart(i, t) && t in s.bench.answers
    ensures Inv(s.(itf := Some(i), pc := Free))
  {
    hide Quiet, IdsKnown;
    assert forall k :: 0 <= k < |s.bench.queue| ==> !Mentions(s.bench.queue[k].cmd, i);
  }

  lemma ReplyKeepsInv(s: State)
    requires Inv(s)
    ensures Inv(OnReply(s))
  {
    match s.pc
    case ArmNew(t) => if t in s.bench.answers && s.bench.answers[t].Made? { StartKeepsInv(s, t); }
    case ArmStart(i, t) =>
      if t in s.bench.answers {
        if s.bench.answers[t].Failed? { GiveUpKeepsInv(s); } else { RecordKeepsInv(s, i, t); }
      }
    case DisarmClose(t, next) => AfterDisarmKeepsInv(s, next, true);
    case _ =>
    hide Quiet, IdsKnown, Tickets, OnlyRetunes, Untouched, StartUnderWay, Push;
  }

  lemma AfterDisarmKeepsInv(s: State, next: Then, closed: bool)
    requires Inv(s) && s.pc.DisarmClose?
    ensures Inv(AfterDisarm(s, next, closed))
  {
    if next.Arm? && closed { BeginArmKeepsInv(s.(pc := Free)); }
    hide Quiet, IdsKnown, Tickets, OnlyRetunes, Untouched, StartUnderWay, Push;
  }

  lemma DeathKeepsInv(s: State, i: nat)
    requires Inv(s)
    ensures Inv(Step(s, Die(i)))
  {
    var s' := Step(s, Die(i));
    forall j: nat | Quiet(s.bench, j) ensures Quiet(s'.bench, j) {
      MayRunMonotone(s.bench.queue, j);
    }
    hide Quiet, MayRun;
  }

  lemma QueueRetireKeepsInv(s: State)
    requires Inv(s)
    ensures Inv(Step(s, QueueRetire))
  {
    hide Quiet, IdsKnown, Tickets, OnlyRetunes, Untouched, StartUnderWay;
    Appended(s.bench, Retire);
    QuietAppended(s.bench, Retire);
  }

  lemma TimeoutKeepsInv(s: State)
    requires Inv(s)
    ensures Inv(OnTimeout(s))
  {
    match s.pc
    case ArmStart(i, t) => GiveUpKeepsInv(s);
    case DisarmClose(t, next) => AfterDisarmKeepsInv(s, next, false);
    case _ =>
    hide Quiet, IdsKnown, Tickets, OnlyRetunes, Untouched, StartUnderWay, Push;
  }

  lemma ApplyKeepsInv(s: State, cfg: int)
    requires Inv(s) && Guard(s, ApplyOn(cfg))
    ensures Inv(Step(s, ApplyOn(cfg)))
  {
    if s.pc.Free? && s.enabled {
      var s1 := s.(cfg := cfg, intended := true);
      if !IsArmed(s) { BeginArmKeepsInv(s1); } else if cfg != s.cfg { BeginDisarmKeepsInv(s1, Arm); }
    }
    hide Quiet, IdsKnown, Tickets, OnlyRetunes, Untouched, StartUnderWay, Push;
  }

  lemma StepKeepsInv(s: State, e: Event)
    requires Inv(s) && Guard(s, e)
    ensures Inv(Step(s, e))
  {
    match e
    case ApplyOn(cfg) => ApplyKeepsInv(s, cfg);
    case ApplyOff(cfg) =>
      if s.pc.Free? && s.itf.Some? { BeginDisarmKeepsInv(s.(cfg := cfg, intended := false), Return); }
    case Shutdown => if s.pc.Free? && s.itf.Some? { BeginDisarmKeepsInv(s.(intended := false), Finish); }
    case Follow(f) => if s.pc.Free? && s.itf.Some? { RetuneKeepsInv(s, f); }
    case Reply => ReplyKeepsInv(s);
    case Timeout => TimeoutKeepsInv(s);
    case QueueRetire => QueueRetireKeepsInv(s);
    case Owner(ok) => OwnerKeepsInv(s, ok);
    case Die(i) => DeathKeepsInv(s, i);
    hide OnReply, OnTimeout, Quiet, IdsKnown, Tickets, OnlyRetunes, Waiting, Push, Owned;
  }

  // ---- safety over whole runs ------------------------------------------------------------------

  /** Every step of the run is taken with its guard. */
  ghost predicate Guarded(s: State, es: seq<Event>) {
    forall k :: 0 <= k < |es| ==> Guard(Run(s, es[..k]), es[k])
  }

  /** With nothing queued, whatever transmits is the interferer held or the one being recorded, and
      there is at most one. */
  ghost predicate Safe(s: State) {
    s.bench.queue == [] ==>
      && (forall i: nat :: Live(s.bench, i) ==> Owned(s, i))
      && (forall i: nat, j: nat :: Live(s.bench, i) && Live(s.bench, j) ==> i == j)
  }

  lemma InvIsSafe(s: State)
    requires Inv(s)
    ensures Safe(s)
  {
    if s.bench.queue == [] {
      assert forall i: nat :: !Owned(s, i) ==> !Live(s.bench, i);
    }
  }

  lemma InitialInv(enabled: bool, cfg: int, deathsig: bool)
    ensures Inv(Initial(enabled, cfg, deathsig))
  {
  }

  lemma {:induction false} RunKeepsInv(s: State, es: seq<Event>)
    requires Inv(s) && Guarded(s, es)
    ensures Inv(Run(s, es))
  {
    hide Inv, Guard, Step;
    if es != [] {
      var n := |es| - 1;
      assert forall k :: 0 <= k < n ==> es[..n][..k] == es[..k];
      RunKeepsInv(s, es[..n]);
      assert Guard(Run(s, es[..n]), es[n]);
      StepKeepsInv(Run(s, es[..n]), es[n]);
    }
  }

  /** Over every interleaving of operator commands, follower retunes, timeouts, process deaths and owner
      steps: whenever nothing is queued, no transmitter runs but the one the instrument holds. */
  lemma AlwaysSafe(enabled: bool, cfg: int, deathsig: bool, es: seq<Event>)
    requires Guarded(Initial(enabled, cfg, deathsig), es)
    ensures Safe(Run(Initial(enabled, cfg, deathsig), es))
    ensures var s := Run(Initial(enabled, cfg, deathsig), es);
            s.bench.queue == [] && s.pc.Free? ==>
              forall i: nat :: Live(s.bench, i) ==> s.itf == Some(i)
  {
    hide Inv, Guarded, Run;
    InitialInv(enabled, cfg, deathsig);
    RunKeepsInv(Initial(enabled, cfg, deathsig), es);
    InvIsSafe(Run(Initial(enabled, cfg, deathsig), es));
  }

  // ---- the interlock -----------------------------------------------------------------------------

  /** Nothing was ever built. */
  ghost predicate Inert(s: State) {
    !s.enabled && s.itf.None? && s.pc.Free? && s.bench.radios == []
    && forall k :: 0 <= k < |s.bench.queue| ==> s.bench.queue[k].cmd.Retire?
  }

  lemma {:induction false} DisabledNeverTransmits(cfg: int, deathsig: bool, es: seq<Event>)
    ensures Inert(Run(Initial(false, cfg, deathsig), es))
  {
    if es != [] {
      DisabledNeverTransmits(cfg, deathsig, es[..|es| - 1]);
      InertStep(Run(Initial(false, cfg, deathsig), es[..|es| - 1]), es[|es| - 1]);
      hide Inert, Step;
    }
  }

  lemma InertStep(s: State, e: Event)
    requires Inert(s)
    ensures Inert(Step(s, e))
  {
  }

  // ---- progress ----------------------------------------------------------------------------------

  /** How many owner steps are still to come. */
  function Work(q: seq<Item>): nat {
    if q == [] then 0
    else Work(q[1..]) + (match q[0].cmd case Retune(_, _) => 3 case Start(_) => 2 case _ => 1)
  }

  /** The owner thread never stalls: every step of it uses up queued work. */
  lemma OwnerMakesProgress(b: Bench, ok: bool, cfg: int)
    requires !b.retired && b.queue != []
    ensures Work(OnOwner(b, ok, cfg).queue) < Work(b.queue)
  {
    OwnerQueue(b, ok, cfg);
    hide OnOwner;
    var q := OnOwner(b, ok, cfg).queue;
    if q != b.queue[1..] { assert q[1..] == b.queue[1..]; }
  }

  // ---- the guard is exact --------------------------------------------------------------------------

  lemma {:induction false} RunConcat(s: State, a: seq<Event>, c: seq<Event>)
    ensures Run(s, a + c) == Run(Run(s, a), c)
  {
    hide Step;
    if c == [] {
      assert a + c == a;
    } else {
      assert (a + c)[..|a + c| - 1] == a + c[..|c| - 1];
      RunConcat(s, a, c[..|c| - 1]);
    }
  }

  /** The process of transmitter i once the queue is served with every launch succeeding. */
  function WillBe(q: seq<Item>, i: nat, p: Proc): Proc {
    if q == [] then p
    else WillBe(q[1..], i,
                match q[0].cmd
                case Start(j) => if j == i && p == Idle then Running else p
                case Settle(j) => if j == i && p == Exited then Idle else p
                case Close(j) => if j == i then Idle else p
                case Retune(j, _) => if j == i then Running else p
                case _ => p)
  }

  lemma {:induction false} StaysRunning(q: seq<Item>, i: nat)
    requires forall k :: 0 <= k < |q| ==> q[k].cmd != Close(i)
    ensures WillBe(q, i, Running) == Running
  {
    if q != [] {
      assert q[0].cmd != Close(i);
      StaysRunning(q[1..], i);
    }
  }

  /** A queued restart that nothing cancels brings the transmitter back. */
  lemma {:induction false} RestartWins(q: seq<Item>, i: nat, p: Proc)
    requires MayRun(q, i, false) && p != Running
    requires forall k :: 0 <= k < |q| ==> q[k].cmd != Close(i) && (q[k].cmd == Start(i) ==> k == 0 && p == Idle)
    ensures WillBe(q, i, p) == Running
  {
    assert q[0].cmd != Close(i);
    assert forall k :: 0 <= k < |q[1..]| ==> q[1..][k] == q[k + 1];
    if q[0].cmd == Start(i) || (q[0].cmd.Retune? && q[0].cmd.id == i) {
      StaysRunning(q[1..], i);
    } else {
      RestartWins(q[1..], i, if q[0].cmd == Settle(i) && p == Exited then Idle else p);
    }
  }

  ghost predicate AllOwner(es: seq<Event>) { forall k :: 0 <= k < |es| ==> es[k] == Owner(true) }

  /** The last item waits while what is ahead of it is served. */
  lemma {:induction false} ServeAhead(s: State, q: seq<Item>, x: Item, j: nat) returns (es: seq<Event>)
    requires s.bench.queue == q + [x] && !s.bench.retired && Tickets(s.bench)
    requires forall k :: 0 <= k < |q| ==> !q[k].cmd.Retire?
    ensures AllOwner(es)
    ensures var t := Run(s, es);
            t == s.(bench := t.bench) && t.bench.queue == [x] && !t.bench.retired && Tickets(t.bench)
            && t.bench.deathsig == s.bench.deathsig
            && (j < |s.bench.radios| ==>
                  j < |t.bench.radios| && ProcOf(t.bench, j) == WillBe(q, j, ProcOf(s.bench, j)))
    decreases Work(s.bench.queue)
  {
    if q == [] {
      es := [];
    } else {
      var s1 := Step(s, Owner(true));
      OwnerMakesProgress(s.bench, true, s.cfg);
      OwnerKeepsTickets(s.bench, true, s.cfg);
      var q1 := ServeOne(s, q, x, j);
      var rest := ServeAhead(s1, q1, x, j);
      es := [Owner(true)] + rest;
      assert Run(s, [Owner(true)]) == s1 by { assert Run(s, []) == s; }
      RunConcat(s, [Owner(true)], rest);
      hide Run, Step, Tickets, WillBe;
    }
  }

  lemma ServeOne(s: State, q: seq<Item>, x: Item, j: nat) returns (q1: seq<Item>)
    requires q != [] && s.bench.queue == q + [x] && !s.bench.retired
    requires forall k :: 0 <= k < |q| ==> !q[k].cmd.Retire?
    ensures var b1 := OnOwner(s.bench, true, s.cfg);
            b1.queue == q1 + [x] && !b1.retired && b1.deathsig == s.bench.deathsig
            && (forall k :: 0 <= k < |q1| ==> !q1[k].cmd.Retire?)
            && (j < |s.bench.radios| ==>
                  j < |b1.radios| && WillBe(q1, j, ProcOf(b1, j)) == WillBe(q, j, ProcOf(s.bench, j)))
  {
    var b1 := OnOwner(s.bench, true, s.cfg);
    assert q[0] == s.bench.queue[0] && !q[0].cmd.Retire?;
    assert s.bench.queue[1..] == q[1..] + [x];
    OwnerQueue(s.bench, true, s.cfg);
    if b1.queue == s.bench.queue[1..] {
      q1 := q[1..];
    } else {
      q1 := [b1.queue[0]] + q[1..];
      assert q1[1..] == q[1..];
    }
  }

  /** Arming over a held interferer that a queued restart will bring back ends with two transmitters:
      the restarted one is no longer held, so nothing will ever close it. */
  lemma ArmingOverRestart(s: State, cfg: int) returns (es: seq<Event>, j: nat, i: nat)
    requires Inv(s) && s.enabled && s.pc.Free? && s.itf.Some? && !IsArmed(s) && !s.bench.retired
    requires forall k :: 0 <= k < |s.bench.queue| ==> !s.bench.queue[k].cmd.Retire?
    requires !Quiet(s.bench, s.itf.value)
    ensures forall k :: 0 <= k < |es| ==> es[k].Owner? || es[k].Reply?
    ensures var t := Run(Step(s, ApplyOn(cfg)), es);
            s.itf == Some(j) && t.itf == Some(i) && i != j
            && t.bench.queue == [] && t.pc.Free? && !t.bench.retired && Live(t.bench, i) && Live(t.bench, j)
  {
    j := s.itf.value;
    var s1 := Step(s, ApplyOn(cfg));
    var x := Item(New, s.bench.next);
    Appended(s.bench, New);
    RestartWins(s.bench.queue, j, ProcOf(s.bench, j));
    var ahead := ServeAhead(s1, s.bench.queue, x, j);
    var s2 := Run(s1, ahead);
    assert s2.pc == ArmNew(x.ticket) && ProcOf(s2.bench, j) == Running;
    var tail;
    tail := FinishArming(s2);
    i := |s2.bench.radios|;
    RunConcat(s1, ahead, tail);
    es := ahead + tail;
    hide Run, Step, Inv, Tickets, Quiet;
  }

  lemma RunMore(s: State, es: seq<Event>, e: Event)
    ensures Run(s, es + [e]) == Step(Run(s, es), e)
  {
    hide Step;
    assert (es + [e])[..|es|] == es;
  }

  /** An undisturbed arming: one more interferer, running and held. */
  lemma FinishArming(s2: State) returns (es: seq<Event>)
    requires s2.pc.ArmNew? && s2.bench.queue == [Item(New, s2.pc.ticket)] && !s2.bench.retired
    ensures es == [Owner(true), Reply, Owner(true), Owner(true), Reply]
    ensures var t := Run(s2, es);
            t.itf == Some(|s2.bench.radios|) && t.pc.Free? && t.bench.queue == [] && !t.bench.retired
            && t.bench.radios == s2.bench.radios + [Radio(Running, s2.cfg)] && t.bench.next == s2.bench.next + 1
            && t.retiring == s2.retiring && t.bench.deathsig == s2.bench.deathsig && t.enabled == s2.enabled
  {
    var i := |s2.bench.radios|;
    var s3 := Step(s2, Owner(true));
    assert s3.bench.queue == [] && s3.bench.radios == s2.bench.radios + [Radio(Idle, s2.cfg)];
    var s4 := Step(s3, Reply);
    assert s4.bench.queue == [Item(Start(i), s2.bench.next)] && s4.pc == ArmStart(i, s2.bench.next);
    var s7 := FinishStart(s4, i);
    es := [Owner(true), Reply, Owner(true), Owner(true), Reply];
    hide Step;
    RunMore(s2, [], Owner(true));
    RunMore(s2, [Owner(true)], Reply);
    assert [] + [Owner(true)] == [Owner(true)] && [Owner(true)] + [Reply] == [Owner(true), Reply];
    RunConcat(s2, [Owner(true), Reply], [Owner(true), Owner(true), Reply]);
    assert es == [Owner(true), Reply] + [Owner(true), Owner(true), Reply];
    assert Run(s2, []) == s2;
  }

  lemma FinishStart(s4: State, i: nat) returns (t: State)
    requires s4.pc.ArmStart? && s4.pc.id == i && s4.bench.queue == [Item(Start(i), s4.pc.ticket)] && !s4.bench.retired
    requires |s4.bench.radios| == i + 1 && s4.bench.radios[i].proc.Idle?
    ensures t == Run(s4, [Owner(true), Owner(true), Reply])
    ensures t.itf == Some(i) && t.pc.Free? && t.bench.queue == [] && !t.bench.retired
            && t.bench.radios == s4.bench.radios[..i] + [Radio(Running, s4.bench.radios[i].freq)]
            && t.bench.next == s4.bench.next && t.retiring == s4.retiring
            && t.bench.deathsig == s4.bench.deathsig && t.enabled == s4.enabled
  {
    t := StartSteps(s4, i);
    hide Step;
    RunMore(s4, [], Owner(true));
    RunMore(s4, [Owner(true)], Owner(true));
    RunMore(s4, [Owner(true), Owner(true)], Reply);
    assert [] + [Owner(true)] == [Owner(true)] && [Owner(true)] + [Owner(true)] == [Owner(true), Owner(true)];
    assert [Owner(true), Owner(true)] + [Reply] == [Owner(true), Owner(true), Reply];
    assert Run(s4, []) == s4;
  }

  lemma StartSteps(s4: State, i: nat) returns (t: State)
    requires s4.pc.ArmStart? && s4.pc.id == i && s4.bench.queue == [Item(Start(i), s4.pc.ticket)] && !s4.bench.retired
    requires |s4.bench.radios| == i + 1 && s4.bench.radios[i].proc.Idle?
    ensures t == Step(Step(Step(s4, Owner(true)), Owner(true)), Reply)
    ensures t.itf == Some(i) && t.pc.Free? && t.bench.queue == [] && !t.bench.retired
            && t.bench.radios == s4.bench.radios[..i] + [Radio(Running, s4.bench.radios[i].freq)]
            && t.bench.next == s4.bench.next && t.retiring == s4.retiring
            && t.bench.deathsig == s4.bench.deathsig && t.enabled == s4.enabled
  {
    var s5 := Step(s4, Owner(true));
    assert s5.bench.queue == [Item(Settle(i), s4.pc.ticket)];
    var s6 := Step(s5, Owner(true));
    assert s6.bench.queue == [] && s6.bench.answers[s4.pc.ticket] == Fine;
    t := Step(s6, Reply);
  }

  lemma {:induction false} StaysPossible(q: seq<Item>, i: nat)
    requires forall k :: 0 <= k < |q| ==> q[k].cmd != Close(i)
    ensures MayRun(q, i, true)
  {
    if q != [] {
      assert q[0].cmd != Close(i);
      StaysPossible(q[1..], i);
    }
  }

  /** A command that starts transmitter i, a retune or the second half of one, waits in the queue. */
  ghost predicate RestartQueued(q: seq<Item>, i: nat) {
    exists k :: 0 <= k < |q| && (q[k].cmd == Start(i) || (q[k].cmd.Retune? && q[k].cmd.id == i))
  }

  /** What the guard means for the held interferer, once it is not transmitting. */
  lemma {:induction false} QuietMeansNoRestart(q: seq<Item>, i: nat)
    requires forall k :: 0 <= k < |q| ==> q[k].cmd != Close(i)
    ensures MayRun(q, i, false) <==> RestartQueued(q, i)
  {
    if q != [] {
      if Effect(q[0].cmd, i, false) {
        StaysPossible(q[1..], i);
      } else {
        QuietMeansNoRestart(q[1..], i);
        assert q == [q[0]] + q[1..];
      }
    }
  }

  /** Every guarded continuation of this state is safe. */
  ghost predicate SafeFrom(s: State) {
    forall es: seq<Event> :: Guarded(s, es) ==> Safe(Run(s, es))
  }

  /** The guard is exact: arming while the held interferer is not transmitting stays safe if and only
      if no restart of that interferer is still queued. */
  lemma ArmingIsSafeIff(s: State, cfg: int)
    requires Inv(s) && s.enabled && s.pc.Free? && s.itf.Some? && !IsArmed(s) && !s.bench.retired
    requires forall k :: 0 <= k < |s.bench.queue| ==> !s.bench.queue[k].cmd.Retire?
    ensures SafeFrom(Step(s, ApplyOn(cfg))) <==> !RestartQueued(s.bench.queue, s.itf.value)
  {
    var s1 := Step(s, ApplyOn(cfg));
    QuietMeansNoRestart(s.bench.queue, s.itf.value);
    assert Quiet(s.bench, s.itf.value) <==> !RestartQueued(s.bench.queue, s.itf.value);
    hide RestartQueued, MayRun;
    if Quiet(s.bench, s.itf.value) {
      StepKeepsInv(s, ApplyOn(cfg));
      forall es: seq<Event> | Guarded(s1, es) ensures Safe(Run(s1, es)) {
        RunKeepsInv(s1, es);
        InvIsSafe(Run(s1, es));
      }
    } else {
      var es, j, i := ArmingOverRestart(s, cfg);
      assert Guarded(s1, es);
      assert Live(Run(s1, es).bench, i) && Live(Run(s1, es).bench, j);
      assert !Safe(Run(s1, es));
    }
    hide Inv, Quiet, Step, Run;
  }

  /** The first arming of a fresh instrument. */
  lemma FirstArming(cfg: int, deathsig: bool) returns (es: seq<Event>, s: State)
    ensures es == [ApplyOn(cfg), Owner(true), Reply, Owner(true), Owner(true), Reply]
    ensures s == Run(Initial(true, cfg, deathsig), es)
    ensures s.itf == Some(0) && s.pc.Free? && s.bench.queue == [] && !s.bench.retired
            && s.bench.radios == [Radio(Running, cfg)] && s.bench.next == 2 && s.enabled
  {
    var s0 := Initial(true, cfg, deathsig);
    var s1 := Step(s0, ApplyOn(cfg));
    assert s1.bench.queue == [Item(New, 0)] && s1.pc == ArmNew(0);
    var rest := FinishArming(s1);
    hide Step, Initial;
    RunMore(s0, [], ApplyOn(cfg));
    assert [] + [ApplyOn(cfg)] == [ApplyOn(cfg)];
    assert Run(s0, []) == s0;
    RunConcat(s0, [ApplyOn(cfg)], rest);
    es := [ApplyOn(cfg)] + rest;
    s := Run(s1, rest);
  }

  lemma DeadBeforeItsRetune(s6: State, f: int) returns (es: seq<Event>)
    requires s6.itf == Some(0) && s6.pc.Free? && s6.bench.queue == [] && |s6.bench.radios| == 1 && Live(s6.bench, 0)
    requires !TunedTo(s6.bench, 0, f)
    ensures es == [Follow(f), Timeout, Die(0)]
    ensures var s := Run(s6, es);
            s.pc.Free? && s.itf == Some(0) && !IsArmed(s) && s.bench.retired == s6.bench.retired
            && |s.bench.queue| == 1 && s.bench.queue[0].cmd == Retune(0, f) && !Quiet(s.bench, 0)
            && s.enabled == s6.enabled
  {
    es := [Follow(f), Timeout, Die(0)];
    var s7 := Step(s6, Follow(f));
    assert s7.bench.queue == [Item(Retune(0, f), s6.bench.next)];
    var s8 := Step(s7, Timeout);
    var s9 := Step(s8, Die(0));
    assert MayRun(s9.bench.queue, 0, false) by { assert s9.bench.queue[1..] == []; }
    hide Step, MayRun;
    assert es[..2][..1] == es[..1] && es[..1][..0] == [];
    assert Run(s6, []) == s6 && Run(s6, es[..1]) == s7;
    assert Run(s6, es[..2]) == s8;
  }

  /** Such a state is reachable: arm, let a retune time out before the owner thread gets to it, and
      the transmitter die. */
  lemma UnguardedStateIsReachable(cfg: int, f: int, deathsig: bool) returns (es: seq<Event>)
    requires f != cfg
    ensures Guarded(Initial(true, cfg, deathsig), es)
    ensures var s := Run(Initial(true, cfg, deathsig), es);
            s.enabled && s.pc.Free? && s.itf == Some(0) && !IsArmed(s) && !s.bench.retired
            && |s.bench.queue| == 1 && s.bench.queue[0].cmd == Retune(0, f) && !Quiet(s.bench, 0)
  {
    var s0 := Initial(true, cfg, deathsig);
    var first, s6 := FirstArming(cfg, deathsig);
    var last := DeadBeforeItsRetune(s6, f);
    RunConcat(s0, first, last);
    es := first + last;
    assert Run(s0, []) == s0;
    hide Run, Step, Quiet;
    forall k | 0 <= k < |es| ensures Guard(Run(s0, es[..k]), es[k]) {
      if k == 0 { assert es[..0] == []; }
    }
  }

  /** The failure in one run: from a fresh instrument, an arming over a queued restart ends with two transmitters, one
      of which the instrument does not hold. */
  lemma TwoTransmitters(cfg: int, f: int, deathsig: bool) returns (es: seq<Event>, i: nat, j: nat)
    requires f != cfg
    ensures var t := Run(Initial(true, cfg, deathsig), es);
            !Safe(t) && t.pc.Free? && t.bench.queue == [] && !t.bench.retired
            && t.itf == Some(i) && i != j && Live(t.bench, i) && Live(t.bench, j)
  {
    var s0 := Initial(true, cfg, deathsig);
    var before := UnguardedStateIsReachable(cfg, f, deathsig);
    var s := Run(s0, before);
    InitialInv(true, cfg, deathsig);
    RunKeepsInv(s0, before);
    var after;
    after, j, i := ArmingOverRestart(s, cfg);
    hide Run, Step, Inv, Guarded, Initial, Quiet, IsArmed;
    RunMore(s0, before, ApplyOn(cfg));
    RunConcat(s0, before + [ApplyOn(cfg)], after);
    es := before + [ApplyOn(cfg)] + after;
    hide Live;
  }

  lemma {:induction false} RunKeepsDeathsig(s: State, es: seq<Event>)
    ensures Run(s, es).bench.deathsig == s.bench.deathsig
  {
    if es != [] {
      RunKeepsDeathsig(s, es[..|es| - 1]);
      StepKeepsDeathsig(Run(s, es[..|es| - 1]), es[|es| - 1]);
      hide Step;
    }
  }

  lemma StepKeepsDeathsig(s: State, e: Event)
    ensures Step(s, e).bench.deathsig == s.bench.deathsig
  {
    if e.Owner? { OwnerKeepsDeathsig(s.bench, e.ok, s.cfg); }
    hide OnOwner;
  }

  lemma OwnerKeepsDeathsig(b: Bench, ok: bool, cfg: int)
    ensures OnOwner(b, ok, cfg).deathsig == b.deathsig
  {
  }
}
