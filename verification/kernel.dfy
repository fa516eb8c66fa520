/** The kernel as one state machine: scheduler, timer interrupt, timer list, work queue and worker loop
    (kernel/core/kernel.c, timer.c, task.c, workqueue.c). A step is what runs with interrupts off; between
    steps any interrupt may arrive on top of the current task. */
module Kernels {
  import S = Sched
  import T = Timers

  const WORKER: nat := 0     // task_init's task, which runs the loop of kstart
  const WQ: S.Cause := 1     // the address of the work queue, the cause the worker sleeps on

  /** Where a suspended task goes on: at its entry point, behind the task_switch of int_pit, or behind
      that of task_sleep. */
  datatype Resume = Fresh | InPit | InSleep

  datatype Firing = Firing(entry: T.Entry, at: nat)

  /** `pushing` are the tasks that have appended to the queue and not yet called its wakeup; `armed`, `since` and
      `fired` are histories: every timer ever set, the tick at which it was, and every callback with its tick. */
  datatype Kernel = Kernel(
    sched: S.State, resume: seq<Resume>,
    tick: nat, timers: seq<T.Entry>, nextId: nat,
    wq: seq<nat>, pushing: set<nat>,
    armed: seq<T.Entry>, since: seq<nat>, fired: seq<Firing>)

  predicate Shape(k: Kernel) {
    k.sched.current < |k.sched.tasks| == |k.resume|
  }

  /** One turn of the drain loop: pop the head, wq_push_timer_func on its work. */
  function Fire(k: Kernel): Kernel
    requires k.timers != []
  {
    k.(timers := k.timers[1..], wq := k.wq + [k.timers[0].id], sched := S.Wakeup(k.sched, WQ),
       fired := k.fired + [Firing(k.timers[0], k.tick)])
  }

  function Drain(k: Kernel): Kernel
    decreases |k.timers|
  {
    if k.timers == [] || k.timers[0].tick > k.tick then k else Drain(Fire(k))
  }

  /** After a switch: a task suspended inside int_pit goes on with the drain loop, any other with its own code. */
  function Arrive(k: Kernel): Kernel {
    if k.sched.current < |k.resume| && k.resume[k.sched.current] == InPit then Drain(k) else k
  }

  /** task_switch to state s, leaving the old current task suspended at r. */
  function Suspend(k: Kernel, s: S.State, r: Resume): Kernel
    requires Shape(k)
  {
    k.(sched := s, resume := k.resume[k.sched.current := r])
  }

  function IntPit(k: Kernel): Kernel
    requires Shape(k)
  {
    var k1 := k.(tick := k.tick + 1);
    var s := S.Schedule(k.sched);
    if k1.tick % 10 == 0 && s.current != k.sched.current then Arrive(Suspend(k1, s, InPit)) else Drain(k1)
  }

  function SleepOn(k: Kernel, c: S.Cause): Kernel
    requires Shape(k)
  {
    Arrive(Suspend(k, S.Sleep(k.sched, c), InSleep))
  }

  datatype Step =
    | Tick                        // the timer interrupt
    | Turn                        // the worker loop tests the queue, and sleeps or takes the first work
    | Sleep(c: S.Cause)           // a blocking system call
    | Wake(c: S.Cause)            // task_wakeup by the current task or a handler
    | Start(p: S.Priority)
    | SetTimer(at: nat)           // wq_push_with_delay, for a deadline that may have been reached already
    | PushIrq(w: nat)             // wq_push by an interrupt handler: append and wakeup in one step
    | PushBegin(w: nat)           // wq_push with interrupts on: the append ...
    | PushEnd                     // ... and, later, the wakeup

  /** What the code of the current task and the handlers can do. The idle task never sleeps, the worker sleeps
      only in its loop, nobody else sleeps on the queue, and a task inside wq_push finishes it first. */
  predicate Enabled(k: Kernel, idle: nat, st: Step) {
    var cur := k.sched.current;
    match st
    case Tick => k.tick + 1 < T.SENTINEL
    case Turn => cur == WORKER && cur !in k.pushing
    case Sleep(c) => cur != idle && cur != WORKER && cur !in k.pushing && c != WQ
    case Wake(c) => true
    case Start(p) => |k.sched.tasks| < S.MAX_TASK
    case SetTimer(at) => at < T.SENTINEL && cur !in k.pushing
    case PushIrq(w) => true
    case PushBegin(w) => cur !in k.pushing
    case PushEnd => cur in k.pushing
  }

  function Next(k: Kernel, st: Step): Kernel
    requires Shape(k)
  {
    match st
    case Tick => IntPit(k)
    case Turn => if k.wq == [] then SleepOn(k, WQ) else k.(wq := k.wq[1..])
    case Sleep(c) => SleepOn(k, c)
    case Wake(c) => k.(sched := S.Wakeup(k.sched, c))
    case Start(p) => k.(sched := S.Start(k.sched, p), resume := k.resume + [Fresh])
    case SetTimer(at) =>
      var e := T.Entry(at, k.nextId);
      k.(timers := T.Insert(k.timers, e), nextId := k.nextId + 1, armed := k.armed + [e], since := k.since + [k.tick])
    case PushIrq(w) => k.(wq := k.wq + [w], sched := S.Wakeup(k.sched, WQ))
    case PushBegin(w) => k.(wq := k.wq + [w], pushing := k.pushing + {k.sched.current})
    case PushEnd => k.(sched := S.Wakeup(k.sched, WQ), pushing := k.pushing - {k.sched.current})
  }

  // ----- invariant -----

  /** The tick by which a timer should fire: its deadline, or the next tick if it was set when that had come. */
  function Goal(since: seq<nat>, e: T.Entry): nat {
    if 1 <= e.id <= |since| && since[e.id - 1] + 1 > e.tick then since[e.id - 1] + 1 else e.tick
  }

  /** Fired not before its deadline and not after its goal, or one tick later if the goal is a multiple of ten. */
  predicate Punctual(since: seq<nat>, f: Firing) {
    var goal := Goal(since, f.entry);
    f.entry.tick <= f.at && (f.at <= goal || (f.at == goal + 1 && goal % 10 == 0))
  }

  /** No goal has passed, and one that has come is waiting for a task that skipped its drain. */
  predicate OnTime(timers: seq<T.Entry>, since: seq<nat>, tick: nat) {
    forall i :: 0 <= i < |timers| ==> Pending(since, timers[i], tick)
  }

  predicate Pending(since: seq<nat>, e: T.Entry, tick: nat) {
    Goal(since, e) >= tick && (Goal(since, e) == tick ==> tick % 10 == 0)
  }

  /** Firing any due entry now would be punctual. */
  predicate InTime(timers: seq<T.Entry>, since: seq<nat>, tick: nat) {
    forall i :: 0 <= i < |timers| ==> Timely(since, timers[i], tick)
  }

  predicate Timely(since: seq<nat>, e: T.Entry, tick: nat) {
    e.tick > tick || Punctual(since, Firing(e, tick))
  }

  /** Every firing was punctual, of a timer that had been set. */
  ghost predicate FiredOk(fired: seq<Firing>, since: seq<nat>) {
    forall f :: f in fired ==> f.entry.id <= |since| && Punctual(since, f)
  }

  ghost predicate TimersOk(timers: seq<T.Entry>, nextId: nat) {
    && T.Ordered(timers) && T.Guarded(timers)
    && (forall i :: 0 <= i < |timers| - 1 ==> timers[i].id < nextId) && timers[|timers| - 1].id == 0
  }

  function Entries(fs: seq<Firing>): (r: seq<T.Entry>)
    ensures |r| == |fs| && forall i :: 0 <= i < |r| ==> r[i] == fs[i].entry
  {
    seq(|fs|, i requires 0 <= i < |fs| => fs[i].entry)
  }

  /** Every timer ever set is still in the list or has fired, exactly once in all. */
  ghost predicate Accounted(armed: seq<T.Entry>, timers: seq<T.Entry>, fired: seq<Firing>) {
    timers != [] && multiset(armed) == multiset(timers[..|timers| - 1]) + multiset(Entries(fired))
  }

  /** The worker sleeps only on the queue, and then the queue is empty or a pusher has yet to wake it. */
  predicate WorkerOk(s: S.State, wq: seq<nat>, pushing: set<nat>) {
    && WORKER < |s.tasks| && s.tasks[WORKER].priority == S.HIGH
    && (s.tasks[WORKER].flag == S.WAITING ==> s.tasks[WORKER].cause == WQ && (wq == [] || pushing != {}))
  }

  predicate SchedOk(s: S.State, idle: nat) {
    S.Inv(s) && S.IdleReady(s, idle) && idle != WORKER
  }

  /** The n-th timer ever set has id n. */
  predicate Numbered(armed: seq<T.Entry>, since: seq<nat>, nextId: nat) {
    nextId == |armed| + 1 == |since| + 1 && forall i :: 0 <= i < |armed| ==> armed[i].id == i + 1
  }

  ghost predicate Base(k: Kernel, idle: nat) {
    && Shape(k)
    && Numbered(k.armed, k.since, k.nextId)
    && SchedOk(k.sched, idle)
    && WorkerOk(k.sched, k.wq, k.pushing)
    && k.tick < T.SENTINEL && TimersOk(k.timers, k.nextId)
    && Accounted(k.armed, k.timers, k.fired)
    && FiredOk(k.fired, k.since)
  }

  ghost predicate Inv(k: Kernel, idle: nat) {
    Base(k, idle) && OnTime(k.timers, k.since, k.tick)
  }

  // ----- each step keeps it -----

  /** A wakeup of the queue leaves the worker RUNNING. */
  lemma WakeupKeeps(s: S.State, idle: nat, c: S.Cause, wq: seq<nat>, pushing: set<nat>)
    requires SchedOk(s, idle) && WorkerOk(s, wq, pushing)
    ensures var r := S.Wakeup(s, c);
      && SchedOk(r, idle) && WorkerOk(r, wq, pushing)
      && r.current == s.current && |r.tasks| == |s.tasks|
      && (c == WQ ==> forall w, p :: WorkerOk(r, w, p))
  {
    S.WakeUpToKeeps(s, c, |s.tasks|);
    S.WakeUpToEffect(s, c, |s.tasks|);
  }

  lemma FireKeeps(k: Kernel, idle: nat)
    requires Base(k, idle) && InTime(k.timers, k.since, k.tick) && k.timers[0].tick <= k.tick
    ensures Base(Fire(k), idle) && InTime(Fire(k).timers, k.since, k.tick)
  {
    WakeupKeeps(k.sched, idle, WQ, k.wq, k.pushing);
    TailOk(k.timers, k.nextId, k.since, k.tick);
    FireAccounted(k.armed, k.timers, k.fired, k.tick);
    assert Timely(k.since, k.timers[0], k.tick);
  }

  lemma TailOk(timers: seq<T.Entry>, nextId: nat, since: seq<nat>, tick: nat)
    requires TimersOk(timers, nextId) && InTime(timers, since, tick) && timers[0].tick <= tick < T.SENTINEL
    ensures |timers| > 1 && TimersOk(timers[1..], nextId) && InTime(timers[1..], since, tick)
  {
  }

  lemma FireAccounted(armed: seq<T.Entry>, timers: seq<T.Entry>, fired: seq<Firing>, at: nat)
    requires Accounted(armed, timers, fired) && |timers| > 1
    ensures Accounted(armed, timers[1..], fired + [Firing(timers[0], at)])
  {
    var n := |timers|;
    assert timers[..n - 1] == [timers[0]] + timers[1..][..n - 2];
    assert Entries(fired + [Firing(timers[0], at)]) == Entries(fired) + [timers[0]];
  }

  /** A drain leaves only timers that are not due, and everything it fires is punctual. */
  lemma {:induction false} DrainKeeps(k: Kernel, idle: nat)
    requires Base(k, idle) && InTime(k.timers, k.since, k.tick)
    ensures Inv(Drain(k), idle)
    decreases |k.timers|
  {
    if k.timers[0].tick <= k.tick {
      FireKeeps(k, idle);
      WakeupKeeps(k.sched, idle, WQ, k.wq, k.pushing);
      DrainKeeps(Fire(k), idle);
    } else {
      forall i | 0 <= i < |k.timers| ensures Pending(k.since, k.timers[i], k.tick) {
        assert i > 0 ==> T.Before(k.timers[0], k.timers[i]);
      }
    }
  }

  function Ids(es: seq<T.Entry>): (r: seq<nat>)
    ensures |r| == |es| && forall i :: 0 <= i < |r| ==> r[i] == es[i].id
  {
    seq(|es|, i requires 0 <= i < |es| => es[i].id)
  }

  /** The firings of es, all at one tick. */
  function Fired(es: seq<T.Entry>, at: nat): (r: seq<Firing>)
    ensures |r| == |es| && forall i :: 0 <= i < |r| ==> r[i] == Firing(es[i], at)
  {
    seq(|es|, i requires 0 <= i < |es| => Firing(es[i], at))
  }

  /** A drain fires exactly the due entries, in list order, and queues their work in that order. */
  lemma {:induction false} DrainFires(k: Kernel)
    ensures var d, r := T.Due(k.timers, k.tick), Drain(k);
      && r.timers == k.timers[d..]
      && r.fired == k.fired + Fired(k.timers[..d], k.tick)
      && r.wq == k.wq + Ids(k.timers[..d])
    decreases |k.timers|
  {
    if k.timers != [] && k.timers[0].tick <= k.tick {
      DrainFires(Fire(k));
      FiresOne(k.timers, T.Due(k.timers[1..], k.tick), k.tick, k.fired, k.wq);
    } else {
      assert Fired(k.timers[..0], k.tick) == [] && Ids(k.timers[..0]) == [];
    }
  }

  lemma FiresOne(ts: seq<T.Entry>, d: nat, at: nat, fired: seq<Firing>, wq: seq<nat>)
    requires d + 1 <= |ts|
    ensures ts[1..][d..] == ts[d + 1..]
    ensures fired + [Firing(ts[0], at)] + Fired(ts[1..][..d], at) == fired + Fired(ts[..d + 1], at)
    ensures wq + [ts[0].id] + Ids(ts[1..][..d]) == wq + Ids(ts[..d + 1])
  {
    assert ts[..d + 1] == [ts[0]] + ts[1..][..d];
  }

  lemma TickInTime(timers: seq<T.Entry>, since: seq<nat>, tick: nat)
    requires OnTime(timers, since, tick)
    ensures InTime(timers, since, tick) && InTime(timers, since, tick + 1)
    ensures (tick + 1) % 10 == 0 ==> OnTime(timers, since, tick + 1)
  {
    forall i | 0 <= i < |timers|
      ensures Timely(since, timers[i], tick) && Timely(since, timers[i], tick + 1)
      ensures (tick + 1) % 10 == 0 ==> Pending(since, timers[i], tick + 1)
    {
      assert Pending(since, timers[i], tick);
    }
  }

  lemma TickBase(k: Kernel, idle: nat)
    requires Inv(k, idle) && k.tick + 1 < T.SENTINEL
    ensures var k1 := k.(tick := k.tick + 1);
      && Base(k1, idle) && InTime(k1.timers, k1.since, k1.tick)
      && (k1.tick % 10 == 0 ==> OnTime(k1.timers, k1.since, k1.tick))
  {
    TickInTime(k.timers, k.since, k.tick);
  }

  predicate Switches(k: Kernel)
    requires Shape(k)
  {
    (k.tick + 1) % 10 == 0 && S.Schedule(k.sched).current != k.sched.current
  }

  /** The two ways through the timer interrupt. */
  lemma PitIs(k: Kernel, k1: Kernel)
    requires Shape(k) && k1 == k.(tick := k.tick + 1)
    ensures IntPit(k) == if Switches(k) then Arrive(Suspend(k1, S.Schedule(k.sched), InPit)) else Drain(k1)
  {
  }

  lemma PitSwitches(k1: Kernel, idle: nat)
    requires Base(k1, idle) && InTime(k1.timers, k1.since, k1.tick) && OnTime(k1.timers, k1.since, k1.tick)
    ensures Inv(Arrive(Suspend(k1, S.Schedule(k1.sched), InPit)), idle)
  {
    SuspendKeeps(k1, idle, S.Schedule(k1.sched), InPit, S.SwitchOp);
  }

  /** Whichever task the timer interrupt resumes, nothing becomes later than one tick. */
  lemma IntPitKeeps(k: Kernel, k': Kernel, idle: nat)
    requires Shape(k) && k.tick + 1 < T.SENTINEL && k' == IntPit(k)
    ensures Inv(k', idle) || !Inv(k, idle)
  {
    if Inv(k, idle) {
      var k1 := k.(tick := k.tick + 1);
      TickBase(k, idle);
      PitIs(k, k1);
      if Switches(k) { PitSwitches(k1, idle); } else { DrainKeeps(k1, idle); }
    }
  }

  /** A switch by the timer or by a sleeping task changes nothing but who runs, and lets that task drain. */
  lemma SuspendKeeps(k: Kernel, idle: nat, s: S.State, r: Resume, op: S.Op)
    requires Base(k, idle) && InTime(k.timers, k.since, k.tick) && OnTime(k.timers, k.since, k.tick)
    requires S.IsCall(op) && S.Allowed(k.sched, idle, op) && s == S.Step(k.sched, op)
    requires op.SleepOp? && k.sched.current == WORKER ==> op.c == WQ && k.wq == []
    ensures Inv(Arrive(Suspend(k, s, r)), idle)
  {
    S.StepKeeps(k.sched, idle, op);
    if op.SleepOp? { S.ScheduleTasks(S.MarkWaiting(k.sched, op.c)); } else { S.ScheduleTasks(k.sched); }
    var k' := Suspend(k, s, r);
    assert Base(k', idle);
    DrainKeeps(k', idle);
  }

  lemma SleepOnKeeps(k: Kernel, idle: nat, c: S.Cause)
    requires Inv(k, idle) && k.sched.current != idle
    requires k.sched.current == WORKER ==> c == WQ && k.wq == []
    ensures Inv(SleepOn(k, c), idle)
  {
    TickInTime(k.timers, k.since, k.tick);
    SuspendKeeps(k, idle, S.Sleep(k.sched, c), InSleep, S.SleepOp(c));
  }

  /** A timer keeps everything in order exactly when its deadline is not the sentinel's. */
  lemma SetTimerKeeps(k: Kernel, idle: nat, at: nat)
    requires Inv(k, idle) && at <= T.SENTINEL
    ensures Inv(Next(k, SetTimer(at)), idle) <==> at != T.SENTINEL
  {
    if at == T.SENTINEL { T.BehindSentinel(k.timers, T.Entry(at, k.nextId)); } else { TimerKeeps(k, idle, at); }
  }

  lemma TimerKeeps(k: Kernel, idle: nat, at: nat)
    requires Inv(k, idle) && at < T.SENTINEL
    ensures Inv(Next(k, SetTimer(at)), idle)
  {
    var e := T.Entry(at, k.nextId);
    TimersInserted(k.timers, k.since, k.nextId, k.tick, e);
    ArmedToo(k.armed, k.timers, T.Insert(k.timers, e), k.fired, e);
    SinceGrows(k.fired, k.since, k.tick);
  }

  lemma TimersInserted(timers: seq<T.Entry>, since: seq<nat>, nextId: nat, tick: nat, e: T.Entry)
    requires TimersOk(timers, nextId) && OnTime(timers, since, tick) && nextId == |since| + 1 && tick < T.SENTINEL
    requires e.tick < T.SENTINEL && e.id == nextId
    ensures var r := T.Insert(timers, e);
      && TimersOk(r, nextId + 1) && OnTime(r, since + [tick], tick)
      && |r| == |timers| + 1 && r[|timers|] == timers[|timers| - 1] && multiset(r) == multiset(timers) + multiset{e}
  {
    T.InsertGuarded(timers, e);
    T.InsertOrdered(timers, e);
    InsertPending(timers, T.Insert(timers, e), e, since, tick);
  }

  lemma ArmedToo(armed: seq<T.Entry>, s: seq<T.Entry>, r: seq<T.Entry>, fired: seq<Firing>, e: T.Entry)
    requires Accounted(armed, s, fired)
    requires |r| == |s| + 1 && r[|s|] == s[|s| - 1] && multiset(r) == multiset(s) + multiset{e}
    ensures Accounted(armed + [e], r, fired)
  {
    InsertAccounted(s, r, e);
  }

  lemma SetTimerIs(k: Kernel, at: nat)
    requires Shape(k)
    ensures var e := T.Entry(at, k.nextId);
      Next(k, SetTimer(at)) == k.(timers := T.Insert(k.timers, e), nextId := k.nextId + 1, armed := k.armed + [e],
                                  since := k.since + [k.tick])
  {
  }

  /** What was promised about timers set before does not depend on the new one. */
  lemma SinceGrows(fired: seq<Firing>, since: seq<nat>, tick: nat)
    requires FiredOk(fired, since)
    ensures FiredOk(fired, since + [tick])
  {
    forall f | f in fired ensures Punctual(since + [tick], f) {
      assert Goal(since + [tick], f.entry) == Goal(since, f.entry);
    }
  }

  lemma InsertPending(s: seq<T.Entry>, r: seq<T.Entry>, e: T.Entry, since: seq<nat>, tick: nat)
    requires T.Guarded(s) && T.Guarded(r) && multiset(r) == multiset(s) + multiset{e} && OnTime(s, since, tick)
    requires e.id == |since| + 1 && tick < T.SENTINEL && s[|s| - 1].id == 0
    requires forall i :: 0 <= i < |s| - 1 ==> s[i].id < e.id
    ensures OnTime(r, since + [tick], tick) && forall i :: 0 <= i < |r| - 1 ==> r[i].id < e.id + 1
  {
    forall i | 0 <= i < |r| ensures Pending(since + [tick], r[i], tick) && (i < |r| - 1 ==> r[i].id < e.id + 1) {
      assert r[i] in multiset(r);
      if r[i] != e {
        assert r[i] in s;
        var j :| 0 <= j < |s| && s[j] == r[i];
        assert Pending(since, s[j], tick);
        assert Goal(since + [tick], s[j]) == Goal(since, s[j]);
      }
    }
  }

  lemma InsertAccounted(s: seq<T.Entry>, r: seq<T.Entry>, e: T.Entry)
    requires s != [] && |r| == |s| + 1 && r[|s|] == s[|s| - 1] && multiset(r) == multiset(s) + multiset{e}
    ensures multiset(r[..|s|]) == multiset(s[..|s| - 1]) + multiset{e}
  {
    var last := s[|s| - 1];
    assert s == s[..|s| - 1] + [last] && r == r[..|s|] + [last];
    assert multiset(r[..|s|]) == multiset(r) - multiset{last};
  }

  lemma StepKeeps(k: Kernel, idle: nat, st: Step)
    requires Inv(k, idle) && Enabled(k, idle, st)
    ensures Inv(Next(k, st), idle)
  {
    match st
    case Tick => IntPitKeeps(k, IntPit(k), idle);
    case Turn => if k.wq == [] { SleepOnKeeps(k, idle, WQ); }
    case Sleep(c) => SleepOnKeeps(k, idle, c);
    case Wake(c) => WakeupKeeps(k.sched, idle, c, k.wq, k.pushing);
    case Start(p) => S.StepKeeps(k.sched, idle, S.StartOp(p));
    case SetTimer(at) => TimerKeeps(k, idle, at);
    case PushIrq(w) => WakeupKeeps(k.sched, idle, WQ, k.wq, k.pushing);
    case PushBegin(w) =>
    case PushEnd => WakeupKeeps(k.sched, idle, WQ, k.wq, k.pushing);
  }

  /** The state after init_timer, wq_init and task_init. */
  const SETUP := Kernel(S.BOOT, [Fresh], 0, [T.Entry(T.SENTINEL, 0)], 1, [], {}, [], [], [])

  /** The state in which kstart enables interrupts, with the user task 1 and the idle task 2 started. */
  const BOOT := SETUP.(sched := S.Start(S.Start(S.BOOT, S.HIGH), S.LOW), resume := [Fresh, Fresh, Fresh])

  const IDLE: nat := 2

  lemma BootOk()
    ensures Inv(BOOT, IDLE)
  {
    assert S.Ready(S.BOOT.tasks, 0, S.HIGH) == {} == S.Ready(S.BOOT.tasks, 0, S.LOW);
    S.StartKeeps(S.BOOT, S.HIGH);
    S.StartKeeps(S.Start(S.BOOT, S.HIGH), S.LOW);
    assert BOOT.timers[..0] == [];
  }

  /** A run of the machine: each state follows from the one before by an enabled step. */
  ghost predicate IsRun(ks: seq<Kernel>, sts: seq<Step>, idle: nat) {
    |ks| == |sts| + 1 && forall i: nat :: i < |sts| ==> StepAt(ks, sts, idle, i)
  }

  predicate StepAt(ks: seq<Kernel>, sts: seq<Step>, idle: nat, i: nat) {
    && i < |sts| && i + 1 < |ks|
    && Shape(ks[i]) && Enabled(ks[i], idle, sts[i]) && ks[i + 1] == Next(ks[i], sts[i])
  }

  lemma {:induction false} RunKeeps(ks: seq<Kernel>, sts: seq<Step>, idle: nat, n: nat)
    requires IsRun(ks, sts, idle) && Inv(ks[0], idle) && n < |ks|
    ensures Inv(ks[n], idle)
  {
    if n > 0 {
      RunKeeps(ks, sts, idle, n - 1);
      assert StepAt(ks, sts, idle, n - 1);
      StepKeeps(ks[n - 1], idle, sts[n - 1]);
    }
  }

  /** No lost wakeup: in every run, whenever work is queued and no pusher is between append and wakeup, the
      worker is current or in the HIGH ready queue. */
  lemma NoLostWakeup(ks: seq<Kernel>, sts: seq<Step>, n: nat)
    requires IsRun(ks, sts, IDLE) && ks[0] == BOOT && n < |ks|
    ensures var k := ks[n];
      WORKER < |k.sched.tasks| &&
      (k.sched.tasks[WORKER].flag == S.WAITING ==> k.wq == [] || k.pushing != {}) &&
      (k.wq != [] && k.pushing == {} ==> k.sched.current == WORKER || WORKER in k.sched.high)
  {
    BootOk();
    RunKeeps(ks, sts, IDLE, n);
    var k := ks[n];
    if k.wq != [] && k.pushing == {} && k.sched.current != WORKER {
      assert WORKER in S.Ready(k.sched.tasks, k.sched.current, S.HIGH);
      assert WORKER in multiset(k.sched.high);
    }
  }

  /** Timer lateness bound, for every timer ever set in every run: once its goal lies a tick back it has fired exactly
      once; every firing was punctual, which for a timer set before its deadline means at the deadline or, if that is a
      multiple of ten, possibly at the next tick; and the list stays sorted, stable and guarded by the sentinel. */
  lemma TimersPunctual(ks: seq<Kernel>, sts: seq<Step>, n: nat, j: nat)
    requires IsRun(ks, sts, IDLE) && ks[0] == BOOT && n < |ks|
    ensures var k := ks[n];
      && (forall f :: f in k.fired ==> Punctual(k.since, f))
      && T.Ordered(k.timers) && T.Guarded(k.timers) && |k.since| == |k.armed|
      && (j < |k.armed| && Goal(k.since, k.armed[j]) < k.tick ==> multiset(Entries(k.fired))[k.armed[j]] == 1)
  {
    BootOk();
    RunKeeps(ks, sts, IDLE, n);
    var k := ks[n];
    if j < |k.armed| && Goal(k.since, k.armed[j]) < k.tick { FiredOnce(k, j); }
  }

  lemma FiredOnce(k: Kernel, j: nat)
    requires Inv(k, IDLE) && j < |k.armed| && Goal(k.since, k.armed[j]) < k.tick
    ensures multiset(Entries(k.fired))[k.armed[j]] == 1
  {
    var live, e := k.timers[..|k.timers| - 1], k.armed[j];
    forall i | 0 <= i < |live| ensures live[i] != e {
      assert Pending(k.since, k.timers[i], k.tick);
    }
    assert e !in live;
    assert k.armed == k.armed[..j] + [e] + k.armed[j + 1..];
    assert e !in k.armed[..j] && e !in k.armed[j + 1..];
    assert multiset(k.armed)[e] == 1;
  }

  /** For a timer set before its deadline the goal is the deadline, so it fires then, or one tick later if that is a
      multiple of ten. */
  lemma SetInTime(since: seq<nat>, f: Firing)
    requires Punctual(since, f) && 1 <= f.entry.id <= |since| && since[f.entry.id - 1] < f.entry.tick
    ensures f.at == f.entry.tick || (f.at == f.entry.tick + 1 && f.entry.tick % 10 == 0)
  {
  }

  // ----- how soon the worker runs -----

  /** The step calls schedule. */
  predicate Calls(k: Kernel, st: Step) {
    (st.Tick? && (k.tick + 1) % 10 == 0) || st.Sleep? || (st.Turn? && k.wq == [])
  }

  /** A drain wakes tasks at the back of their queues and does not switch. */
  lemma {:induction false} DrainFront(k: Kernel, q: seq<nat>)
    requires q <= k.sched.high
    ensures q <= Drain(k).sched.high && Drain(k).sched.current == k.sched.current
    decreases |k.timers|
  {
    if k.timers != [] && k.timers[0].tick <= k.tick {
      S.WakeUpToEffect(k.sched, WQ, |k.sched.tasks|);
      DrainFront(Fire(k), q);
    }
  }

  /** A step that calls schedule makes the front of a non-empty HIGH queue current; any other step leaves the queue
      as a prefix and the current task where it is. */
  lemma FrontStep(k: Kernel, idle: nat, st: Step, q: seq<nat>)
    requires Inv(k, idle) && Enabled(k, idle, st) && q != [] && q <= k.sched.high
    ensures var r := Next(k, st).sched;
      if Calls(k, st) then r.current == q[0] && q[1..] <= r.high else q <= r.high && r.current == k.sched.current
  {
    if Calls(k, st) {
      CallFront(k, st, q);
    } else {
      match st
      case Tick => DrainFront(k.(tick := k.tick + 1), q);
      case Wake(c) => S.WakeUpToEffect(k.sched, c, |k.sched.tasks|);
      case PushIrq(w) => S.WakeUpToEffect(k.sched, WQ, |k.sched.tasks|);
      case PushEnd => S.WakeUpToEffect(k.sched, WQ, |k.sched.tasks|);
      case _ =>
    }
  }

  lemma CallFront(k: Kernel, st: Step, q: seq<nat>)
    requires Shape(k) && S.Inv(k.sched) && q != [] && q <= k.sched.high && Calls(k, st)
    ensures var r := Next(k, st).sched; r.current == q[0] && q[1..] <= r.high
  {
    match st
    case Tick =>
      S.FrontStep(k.sched, S.SwitchOp, q);
      S.SwitchToKeeps(k.sched, S.HIGH);
      ArriveFront(Suspend(k.(tick := k.tick + 1), S.Schedule(k.sched), InPit), q[1..]);
    case Sleep(c) =>
      S.FrontStep(k.sched, S.SleepOp(c), q);
      ArriveFront(Suspend(k, S.Sleep(k.sched, c), InSleep), q[1..]);
    case Turn =>
      S.FrontStep(k.sched, S.SleepOp(WQ), q);
      ArriveFront(Suspend(k, S.Sleep(k.sched, WQ), InSleep), q[1..]);
  }

  lemma ArriveFront(k: Kernel, q: seq<nat>)
    requires q <= k.sched.high
    ensures q <= Arrive(k).sched.high && Arrive(k).sched.current == k.sched.current
  {
    DrainFront(k, q);
  }

  /** The task made current by each call of schedule in the steps from n to m, in order. */
  ghost function Turns(ks: seq<Kernel>, sts: seq<Step>, n: nat, m: nat): seq<nat>
    requires |ks| == |sts| + 1 && n <= m <= |sts|
    decreases m - n
  {
    if n == m then []
    else (if Calls(ks[n], sts[n]) then [ks[n + 1].sched.current] else []) + Turns(ks, sts, n + 1, m)
  }

  /** In every run the next calls of schedule, whichever step they come from, run the tasks waiting in the HIGH queue
      in order. */
  lemma {:induction false} FifoTurns(ks: seq<Kernel>, sts: seq<Step>, idle: nat, n: nat, m: nat, q: seq<nat>)
    requires IsRun(ks, sts, idle) && Inv(ks[0], idle) && n <= m <= |sts| && q <= ks[n].sched.high
    ensures S.Agree(Turns(ks, sts, n, m), q)
    decreases m - n
  {
    if n < m && q != [] {
      RunKeeps(ks, sts, idle, n);
      assert StepAt(ks, sts, idle, n);
      FrontStep(ks[n], idle, sts[n], q);
      var calls := Calls(ks[n], sts[n]);
      FifoTurns(ks, sts, idle, n + 1, m, if calls then q[1..] else q);
      S.OneTurn(calls, ks[n + 1].sched.current, Turns(ks, sts, n + 1, m), q);
    }
  }

  /** The worker is never far away: in every run from boot, whenever work is queued and no pusher is between append and
      wakeup, the worker is current, or it waits at some position p of the HIGH queue and is the task that call p + 1
      of schedule from then on makes current. */
  lemma WorkerSoon(ks: seq<Kernel>, sts: seq<Step>, n: nat, m: nat) returns (p: nat)
    requires IsRun(ks, sts, IDLE) && ks[0] == BOOT && n <= m <= |sts| && ks[n].wq != [] && ks[n].pushing == {}
    ensures ks[n].sched.current == WORKER || (p < |ks[n].sched.high| && ks[n].sched.high[p] == WORKER &&
      (p < |Turns(ks, sts, n, m)| ==> Turns(ks, sts, n, m)[p] == WORKER))
  {
    p := 0;
    NoLostWakeup(ks, sts, n);
    var q := ks[n].sched.high;
    if ks[n].sched.current != WORKER {
      p :| p < |q| && q[p] == WORKER;
      BootOk();
      FifoTurns(ks, sts, IDLE, n, m, q);
    }
  }

  // ----- sleeping -----

  predicate Asleep(s: S.State, t: nat, c: S.Cause) {
    t < |s.tasks| && s.tasks[t].flag == S.WAITING && s.tasks[t].cause == c
  }

  /** The step calls task_wakeup for c: outright, or for the work queue by a push or a timer that fires. */
  predicate Wakes(k: Kernel, st: Step, c: S.Cause)
    requires Shape(k)
  {
    st == Wake(c) || (c == WQ && (st.PushIrq? || st.PushEnd? || Next(k, st).fired != k.fired))
  }

  /** A drain that fires nothing, or that wakes another cause, leaves the task asleep. */
  lemma {:induction false} DrainAsleep(k: Kernel, t: nat, c: S.Cause)
    requires Asleep(k.sched, t, c)
    ensures |Drain(k).fired| >= |k.fired|
    ensures c != WQ || Drain(k).fired == k.fired ==> Asleep(Drain(k).sched, t, c)
    decreases |k.timers|
  {
    if k.timers != [] && k.timers[0].tick <= k.tick {
      S.WakeUpToEffect(k.sched, WQ, |k.sched.tasks|);
      DrainFires(Fire(k));
      if c != WQ { DrainAsleep(Fire(k), t, c); }
    }
  }

  lemma SwitchAsleep(k: Kernel, s: S.State, r: Resume, t: nat, c: S.Cause)
    requires Shape(k) && Asleep(s, t, c)
    ensures var k' := Arrive(Suspend(k, s, r)); c != WQ || k'.fired == k.fired ==> Asleep(k'.sched, t, c)
  {
    DrainAsleep(Suspend(k, s, r), t, c);
  }

  lemma StepAsleep(k: Kernel, idle: nat, st: Step, t: nat, c: S.Cause)
    requires Inv(k, idle) && Enabled(k, idle, st) && Asleep(k.sched, t, c) && !Wakes(k, st, c)
    ensures Asleep(Next(k, st).sched, t, c)
  {
    match st
    case Tick =>
      var k1 := k.(tick := k.tick + 1);
      PitIs(k, k1);
      S.ScheduleTasks(k.sched);
      if Switches(k) { SwitchAsleep(k1, S.Schedule(k.sched), InPit, t, c); } else { DrainAsleep(k1, t, c); }
    case Turn => if k.wq == [] { SleepAsleep(k, WQ, t, c); }
    case Sleep(d) => SleepAsleep(k, d, t, c);
    case Wake(d) => S.WakeUpToEffect(k.sched, d, |k.sched.tasks|);
    case PushIrq(w) => S.WakeUpToEffect(k.sched, WQ, |k.sched.tasks|);
    case PushEnd => S.WakeUpToEffect(k.sched, WQ, |k.sched.tasks|);
    case _ =>
  }

  /** Another task goes to sleep. */
  lemma SleepAsleep(k: Kernel, d: S.Cause, t: nat, c: S.Cause)
    requires Shape(k) && S.Inv(k.sched) && Asleep(k.sched, t, c)
    ensures var k' := SleepOn(k, d); c != WQ || k'.fired == k.fired ==> Asleep(k'.sched, t, c)
  {
    S.ScheduleTasks(S.MarkWaiting(k.sched, d));
    SwitchAsleep(k, S.Sleep(k.sched, d), InSleep, t, c);
  }

  predicate QuietAt(ks: seq<Kernel>, sts: seq<Step>, c: S.Cause, i: nat) {
    i < |sts| && i < |ks| && Shape(ks[i]) && !Wakes(ks[i], sts[i], c)
  }

  lemma AsleepStep(ks: seq<Kernel>, sts: seq<Step>, idle: nat, i: nat, t: nat, c: S.Cause)
    requires StepAt(ks, sts, idle, i) && QuietAt(ks, sts, c, i) && Inv(ks[i], idle) && Asleep(ks[i].sched, t, c)
    ensures Asleep(ks[i + 1].sched, t, c)
  {
    StepAsleep(ks[i], idle, sts[i], t, c);
  }

  /** Sleep really sleeps, over every run of the kernel: a task asleep on c is not current until a step wakes c. */
  lemma {:induction false} StaysAsleep(ks: seq<Kernel>, sts: seq<Step>, idle: nat, n: nat, m: nat, t: nat, c: S.Cause)
    requires IsRun(ks, sts, idle) && Inv(ks[0], idle) && n <= m < |ks| && Asleep(ks[n].sched, t, c)
    requires forall i: nat :: n <= i < m ==> QuietAt(ks, sts, c, i)
    ensures Asleep(ks[m].sched, t, c) && ks[m].sched.current != t
    decreases m
  {
    if m > n {
      StaysAsleep(ks, sts, idle, n, m - 1, t, c);
      RunKeeps(ks, sts, idle, m - 1);
      AsleepStep(ks, sts, idle, m - 1, t, c);
    }
    NotCurrent(ks, sts, idle, m, t, c);
  }

  lemma NotCurrent(ks: seq<Kernel>, sts: seq<Step>, idle: nat, m: nat, t: nat, c: S.Cause)
    requires IsRun(ks, sts, idle) && Inv(ks[0], idle) && m < |ks| && Asleep(ks[m].sched, t, c)
    ensures ks[m].sched.current != t
  {
    RunKeeps(ks, sts, idle, m);
  }
}
