/** What the steps of Kernels leave undone, exactly: which ticks let a timer wait, which work is in the queue, and where
    a suspended task goes on. Everything here is told from the steps of a run alone. */
module KernelRuns {
  import S = Sched
  import T = Timers
  import opened Kernels

  // ----- drains -----

  /** A drain changes nothing but the timers, the queue and who is ready. */
  lemma {:induction false} DrainRest(k: Kernel)
    ensures var r := Drain(k);
      && r.sched.current == k.sched.current && |r.sched.tasks| == |k.sched.tasks|
      && r == k.(sched := r.sched, timers := r.timers, wq := r.wq, fired := r.fired)
    decreases |k.timers|
  {
    if k.timers != [] && k.timers[0].tick <= k.tick {
      S.WakeUpToEffect(k.sched, WQ, |k.sched.tasks|);
      DrainRest(Fire(k));
    }
  }

  ghost predicate NoneDue(timers: seq<T.Entry>, tick: nat) {
    forall e :: e in timers ==> e.tick > tick
  }

  /** Either all timers that are due have fired, in order, and none is left, or none has. */
  ghost predicate Leaves(k: Kernel, r: Kernel, drained: bool) {
    if drained then
      && NoneDue(r.timers, r.tick)
      && (exists d :: 0 <= d <= |k.timers| && r.timers == k.timers[d..]
                      && r.fired == k.fired + Fired(k.timers[..d], r.tick))
    else r.timers == k.timers && r.fired == k.fired
  }

  lemma DrainLeaves(k: Kernel)
    requires T.Ordered(k.timers)
    ensures Leaves(k, Drain(k), true)
  {
    DrainFires(k);
    DrainRest(k);
    T.DueIs(k.timers, k.tick);
    var d, r := T.Due(k.timers, k.tick), Drain(k);
    assert r.timers == k.timers[d..] && r.fired == k.fired + Fired(k.timers[..d], r.tick);
  }

  lemma ArriveLeaves(k: Kernel)
    requires T.Ordered(k.timers) && k.sched.current < |k.resume|
    ensures var r := Arrive(k);
      Leaves(k, r, k.resume[k.sched.current] == InPit) && r.sched.current == k.sched.current && r.tick == k.tick
  {
    DrainLeaves(k);
    DrainRest(k);
  }

  /** Whether a tick or a call of schedule ends in a drain: a tick that does not switch, and any switch to a task that
      was itself suspended by a tick. */
  predicate Drains(k: Kernel, st: Step, t: nat)
    requires Shape(k) && t < |k.resume|
  {
    if t == k.sched.current then st.Tick? else k.resume[t] == InPit
  }

  lemma SwitchLeaves(k: Kernel, k1: Kernel, s: S.State, r: Resume)
    requires Shape(k) && T.Ordered(k.timers) && s.current < |k.resume| && s.current != k.sched.current
    requires k1 == k.(tick := k1.tick)
    ensures var k' := Arrive(Suspend(k1, s, r));
      k'.sched.current == s.current && Leaves(k, k', k.resume[s.current] == InPit) && k'.tick == k1.tick
  {
    ArriveLeaves(Suspend(k1, s, r));
  }

  /** A sleep always switches. */
  lemma SleepLeaves(k: Kernel, idle: nat, c: S.Cause)
    requires Inv(k, idle) && k.sched.current != idle
    ensures var k' := SleepOn(k, c); var t := k'.sched.current;
      t < |k.resume| && t != k.sched.current && Leaves(k, k', k.resume[t] == InPit) && k'.tick == k.tick
  {
    S.StepKeeps(k.sched, idle, S.SleepOp(c));
    S.ScheduleTasks(S.MarkWaiting(k.sched, c));
    SwitchLeaves(k, k, S.Sleep(k.sched, c), InSleep);
  }

  lemma TickLeaves(k: Kernel, idle: nat)
    requires Inv(k, idle) && k.tick + 1 < T.SENTINEL
    ensures var k' := IntPit(k); var t := k'.sched.current;
      t < |k.resume| && Leaves(k, k', Drains(k, Tick, t)) && k'.tick == k.tick + 1
      && (t != k.sched.current <==> Switches(k))
  {
    var k1 := k.(tick := k.tick + 1);
    PitIs(k, k1);
    S.StepKeeps(k.sched, idle, S.SwitchOp);
    S.ScheduleTasks(k.sched);
    if Switches(k) {
      SwitchLeaves(k, k1, S.Schedule(k.sched), InPit);
    } else {
      DrainLeaves(k1);
      DrainRest(k1);
    }
  }

  /** Exactly which steps drain: after every tick and every call of schedule, either no due timer is left, or the list
      is untouched, and it is untouched exactly when the step has switched to a task that was not suspended by a
      tick. */
  lemma DrainsExactly(k: Kernel, idle: nat, st: Step)
    requires Inv(k, idle) && Enabled(k, idle, st) && (st.Tick? || Calls(k, st))
    ensures var r := Next(k, st); var t := r.sched.current;
      t < |k.resume| && Leaves(k, r, Drains(k, st, t)) && r.tick == k.tick + (if st.Tick? then 1 else 0)
  {
    match st
    case Tick => TickLeaves(k, idle);
    case Sleep(c) => SleepLeaves(k, idle, c);
    case Turn => SleepLeaves(k, idle, WQ);
  }

  /** Which timers are late: one that is due at a tick is still in the list behind it exactly when that tick is a
      multiple of ten and switches to a task that was not itself suspended by a tick. */
  lemma LateIff(k: Kernel, idle: nat, e: T.Entry)
    requires Inv(k, idle) && k.tick + 1 < T.SENTINEL && e in k.timers && e.tick <= k.tick + 1
    ensures var r := Next(k, Tick); var t := r.sched.current;
      t < |k.resume| &&
      (e in r.timers <==> (k.tick + 1) % 10 == 0 && t != k.sched.current && k.resume[t] != InPit)
  {
    DrainsExactly(k, idle, Tick);
    TickLeaves(k, idle);
  }

  // ----- where a task goes on -----

  /** The continuation of a task that is not current after a step. */
  lemma ResumeStep(k: Kernel, idle: nat, st: Step, t: nat)
    requires Inv(k, idle) && Enabled(k, idle, st) && t < |k.resume| && t != Next(k, st).sched.current
    ensures var r := Next(k, st);
      t < |r.resume| &&
      r.resume[t] == if t != k.sched.current then k.resume[t] else if st.Tick? then InPit else InSleep
  {
    match st
    case Tick => TickResume(k, t);
    case Sleep(c) => SleepResume(k, c);
    case Turn => if k.wq == [] { SleepResume(k, WQ); }
    case Wake(c) => S.WakeUpToEffect(k.sched, c, |k.sched.tasks|);
    case PushIrq(w) => S.WakeUpToEffect(k.sched, WQ, |k.sched.tasks|);
    case PushEnd => S.WakeUpToEffect(k.sched, WQ, |k.sched.tasks|);
    case _ =>
  }

  lemma TickResume(k: Kernel, t: nat)
    requires Shape(k) && t < |k.resume| && t != IntPit(k).sched.current
    ensures |IntPit(k).resume| == |k.resume|
    ensures IntPit(k).resume[t] == if t == k.sched.current then InPit else k.resume[t]
  {
    var k1 := k.(tick := k.tick + 1);
    PitIs(k, k1);
    DrainRest(k1);
    DrainRest(Suspend(k1, S.Schedule(k.sched), InPit));
  }

  lemma SleepResume(k: Kernel, c: S.Cause)
    requires Shape(k)
    ensures SleepOn(k, c).resume == k.resume[k.sched.current := InSleep]
  {
    DrainRest(Suspend(k, S.Sleep(k.sched, c), InSleep));
  }

  lemma FreshStep(k: Kernel, idle: nat, st: Step, t: nat)
    requires Inv(k, idle) && Enabled(k, idle, st) && t >= |k.resume| && t < |Next(k, st).resume|
    ensures Next(k, st).resume[t] == Fresh
  {
    match st
    case Tick =>
      var k1 := k.(tick := k.tick + 1);
      PitIs(k, k1);
      DrainRest(k1);
      DrainRest(Suspend(k1, S.Schedule(k.sched), InPit));
      assert false;
    case Sleep(c) => SleepResume(k, c); assert false;
    case Turn => if k.wq == [] { SleepResume(k, WQ); } assert false;
    case Start(p) =>
    case _ => assert false;
  }

  /** How task t last lost the processor in the first n steps, if it ever had it: to a tick, or by sleeping. */
  ghost function Left(ks: seq<Kernel>, sts: seq<Step>, n: nat, t: nat): Resume
    requires |ks| == |sts| + 1 && n < |ks|
  {
    if n == 0 then Fresh
    else if ks[n - 1].sched.current == t && ks[n].sched.current != t then
      if sts[n - 1].Tick? then InPit else InSleep
    else Left(ks, sts, n - 1, t)
  }

  /** In every state of every run from boot a task that is not current goes on where it last left off. */
  lemma {:induction false} ResumeIs(ks: seq<Kernel>, sts: seq<Step>, n: nat, t: nat)
    requires IsRun(ks, sts, IDLE) && ks[0] == BOOT && n < |ks|
    requires t < |ks[n].resume| && t != ks[n].sched.current
    ensures ks[n].resume[t] == Left(ks, sts, n, t)
  {
    if n > 0 {
      var k := ks[n - 1];
      BootOk();
      RunKeeps(ks, sts, IDLE, n - 1);
      assert StepAt(ks, sts, IDLE, n - 1);
      if t >= |k.resume| {
        FreshStep(k, IDLE, sts[n - 1], t);
        LeftFresh(ks, sts, n - 1, t);
      } else {
        ResumeStep(k, IDLE, sts[n - 1], t);
        if t != k.sched.current { ResumeIs(ks, sts, n - 1, t); }
      }
    }
  }

  /** A task that has not been started has never been current. */
  lemma {:induction false} LeftFresh(ks: seq<Kernel>, sts: seq<Step>, n: nat, t: nat)
    requires IsRun(ks, sts, IDLE) && ks[0] == BOOT && n < |ks| && t >= |ks[n].resume|
    ensures Left(ks, sts, n, t) == Fresh
  {
    if n > 0 {
      BootOk();
      RunKeeps(ks, sts, IDLE, n - 1);
      assert StepAt(ks, sts, IDLE, n - 1);
      NeverFewer(ks[n - 1], sts[n - 1]);
      LeftFresh(ks, sts, n - 1, t);
    }
  }

  lemma NeverFewer(k: Kernel, st: Step)
    requires Shape(k)
    ensures |Next(k, st).resume| >= |k.resume|
  {
    match st
    case Tick =>
      var k1 := k.(tick := k.tick + 1);
      PitIs(k, k1);
      DrainRest(k1);
      DrainRest(Suspend(k1, S.Schedule(k.sched), InPit));
    case Sleep(c) => SleepResume(k, c);
    case Turn => if k.wq == [] { SleepResume(k, WQ); }
    case _ =>
  }

  /** Lateness told from the run alone: a timer due at a tick waits for the next one exactly when the tick is a multiple
      of ten and switches to a task that has never run or last gave up the processor by sleeping. */
  lemma LateInRuns(ks: seq<Kernel>, sts: seq<Step>, n: nat, e: T.Entry)
    requires IsRun(ks, sts, IDLE) && ks[0] == BOOT && n < |sts| && sts[n] == Tick
    requires e in ks[n].timers && e.tick <= ks[n].tick + 1
    ensures var t := ks[n + 1].sched.current;
      e in ks[n + 1].timers <==>
      ks[n + 1].tick % 10 == 0 && t != ks[n].sched.current && Left(ks, sts, n, t) != InPit
  {
    BootOk();
    RunKeeps(ks, sts, IDLE, n);
    assert StepAt(ks, sts, IDLE, n);
    LateIff(ks[n], IDLE, e);
    TickLeaves(ks[n], IDLE);
    if ks[n + 1].sched.current != ks[n].sched.current { ResumeIs(ks, sts, n, ks[n + 1].sched.current); }
  }

  // ----- the work queue -----

  /** The works a step appends to the queue: a pushed one, or those of the timers it fires. */
  function Pushes(k: Kernel, st: Step): seq<nat>
    requires Shape(k)
  {
    match st
    case PushIrq(w) => [w]
    case PushBegin(w) => [w]
    case _ =>
      var r := Next(k, st);
      if |r.fired| >= |k.fired| then Ids(Entries(r.fired[|k.fired|..])) else []
  }

  /** The work the worker takes, which Machine.Turn hands out. */
  function Takes(k: Kernel, st: Step): seq<nat> { if st.Turn? && k.wq != [] then [k.wq[0]] else [] }

  lemma DrainPushes(k: Kernel)
    ensures var r := Drain(k);
      |r.fired| >= |k.fired| && r.wq == k.wq + Ids(Entries(r.fired[|k.fired|..]))
  {
    DrainFires(k);
    var due := k.timers[..T.Due(k.timers, k.tick)];
    assert Drain(k).fired[|k.fired|..] == Fired(due, k.tick);
    assert Entries(Fired(due, k.tick)) == due;
  }

  lemma NonePushed(k: Kernel, r: Kernel)
    requires r.fired == k.fired && r.wq == k.wq
    ensures |r.fired| >= |k.fired| && r.wq == k.wq + Ids(Entries(r.fired[|k.fired|..]))
  {
    assert r.fired[|k.fired|..] == [];
    assert k.wq + [] == k.wq;
  }

  lemma ArrivePushes(k: Kernel, k1: Kernel)
    requires k1.fired == k.fired && k1.wq == k.wq
    ensures var r := Arrive(k1);
      |r.fired| >= |k.fired| && r.wq == k.wq + Ids(Entries(r.fired[|k.fired|..]))
  {
    DrainPushes(k1);
    NonePushed(k, k1);
  }

  /** Nothing leaves the queue but what is taken, and that from the front. */
  lemma QueueStep(k: Kernel, st: Step)
    requires Shape(k)
    ensures k.wq + Pushes(k, st) == Takes(k, st) + Next(k, st).wq
  {
    match st
    case Tick =>
      var k1 := k.(tick := k.tick + 1);
      PitIs(k, k1);
      DrainPushes(k1);
      ArrivePushes(k, Suspend(k1, S.Schedule(k.sched), InPit));
    case Sleep(c) => ArrivePushes(k, Suspend(k, S.Sleep(k.sched, c), InSleep));
    case Turn => TurnPushes(k);
    case PushIrq(w) =>
    case PushBegin(w) =>
    case _ => NonePushed(k, Next(k, st));
  }

  lemma TurnPushes(k: Kernel)
    requires Shape(k)
    ensures k.wq + Pushes(k, Turn) == Takes(k, Turn) + Next(k, Turn).wq
  {
    if k.wq == [] {
      ArrivePushes(k, Suspend(k, S.Sleep(k.sched, WQ), InSleep));
    } else {
      var r := Next(k, Turn);
      assert r.fired[|k.fired|..] == [];
      assert k.wq + [] == [k.wq[0]] + k.wq[1..];
    }
  }

  /** All works pushed in the first n steps, in order, and all works taken. */
  ghost function Pushed(ks: seq<Kernel>, sts: seq<Step>, n: nat): seq<nat>
    requires |ks| == |sts| + 1 && n < |ks| && forall i :: 0 <= i < n ==> Shape(ks[i])
  {
    if n == 0 then [] else Pushed(ks, sts, n - 1) + Pushes(ks[n - 1], sts[n - 1])
  }

  ghost function Taken(ks: seq<Kernel>, sts: seq<Step>, n: nat): seq<nat>
    requires |ks| == |sts| + 1 && n < |ks|
  {
    if n == 0 then [] else Taken(ks, sts, n - 1) + Takes(ks[n - 1], sts[n - 1])
  }

  lemma Moved(taken: seq<nat>, wq: seq<nat>, pushes: seq<nat>, takes: seq<nat>, rest: seq<nat>)
    requires wq + pushes == takes + rest
    ensures taken + wq + pushes == taken + takes + rest
  {
    assert taken + wq + pushes == taken + (wq + pushes);
  }

  lemma RunShapes(ks: seq<Kernel>, sts: seq<Step>, n: nat)
    requires IsRun(ks, sts, IDLE) && n < |ks|
    ensures forall i :: 0 <= i < n ==> Shape(ks[i])
  {
    forall i | 0 <= i < n ensures Shape(ks[i]) { assert StepAt(ks, sts, IDLE, i); }
  }

  lemma QueueAt(ks: seq<Kernel>, sts: seq<Step>, i: nat)
    requires IsRun(ks, sts, IDLE) && i < |sts|
    ensures Shape(ks[i]) && ks[i].wq + Pushes(ks[i], sts[i]) == Takes(ks[i], sts[i]) + ks[i + 1].wq
  {
    assert StepAt(ks, sts, IDLE, i);
    QueueStep(ks[i], sts[i]);
  }

  /** Every work is executed once, in the order of the pushes: in every state of every run from boot what the worker has
      taken, followed by what is in the queue, is all that interrupt handlers, tasks and timers have pushed. */
  lemma {:induction false} TakenInOrder(ks: seq<Kernel>, sts: seq<Step>, n: nat)
    requires IsRun(ks, sts, IDLE) && ks[0] == BOOT && n < |ks|
    ensures forall i :: 0 <= i < n ==> Shape(ks[i])
    ensures Taken(ks, sts, n) + ks[n].wq == Pushed(ks, sts, n)
  {
    RunShapes(ks, sts, n);
    if n > 0 {
      TakenInOrder(ks, sts, n - 1);
      QueueAt(ks, sts, n - 1);
      Moved(Taken(ks, sts, n - 1), ks[n - 1].wq, Pushes(ks[n - 1], sts[n - 1]), Takes(ks[n - 1], sts[n - 1]), ks[n].wq);
    }
  }

  // ----- sleeping and waking -----

  /** Going to sleep: the task is asleep on its cause, and not current. */
  lemma FallsAsleep(k: Kernel, idle: nat, c: S.Cause)
    requires Inv(k, idle) && Enabled(k, idle, Sleep(c))
    ensures var r := Next(k, Sleep(c)); Asleep(r.sched, k.sched.current, c) && r.sched.current != k.sched.current
  {
    S.StepKeeps(k.sched, idle, S.SleepOp(c));
    SwitchAsleep(k, S.Sleep(k.sched, c), InSleep, k.sched.current, c);
    DrainRest(Suspend(k, S.Sleep(k.sched, c), InSleep));
  }

  predicate Awake(s: S.State, t: nat) { t < |s.tasks| && s.tasks[t].flag == S.RUNNING }

  lemma {:induction false} StaysAwake(k: Kernel, t: nat)
    requires Awake(k.sched, t)
    ensures Awake(Drain(k).sched, t)
    decreases |k.timers|
  {
    if k.timers != [] && k.timers[0].tick <= k.tick {
      S.WakeUpToEffect(k.sched, WQ, |k.sched.tasks|);
      StaysAwake(Fire(k), t);
    }
  }

  /** A drain that fires anything readies whoever sleeps on the queue. */
  lemma DrainWakes(k: Kernel, t: nat)
    requires Asleep(k.sched, t, WQ)
    ensures Drain(k).fired != k.fired ==> Awake(Drain(k).sched, t)
  {
    if k.timers != [] && k.timers[0].tick <= k.tick {
      S.WakeUpToEffect(k.sched, WQ, |k.sched.tasks|);
      StaysAwake(Fire(k), t);
    }
  }

  lemma SwitchWakes(k: Kernel, s: S.State, r: Resume, t: nat)
    requires Shape(k) && Asleep(s, t, WQ)
    ensures var k' := Arrive(Suspend(k, s, r)); k'.fired != k.fired ==> Awake(k'.sched, t)
  {
    DrainWakes(Suspend(k, s, r), t);
  }

  lemma SleepWakes(k: Kernel, c: S.Cause, t: nat)
    requires Shape(k) && Asleep(k.sched, t, WQ) && k.sched.tasks[k.sched.current].flag == S.RUNNING
    ensures var k' := SleepOn(k, c); k'.fired != k.fired ==> Awake(k'.sched, t)
  {
    S.ScheduleTasks(S.MarkWaiting(k.sched, c));
    SwitchWakes(k, S.Sleep(k.sched, c), InSleep, t);
  }

  /** One step: a task asleep on c stays asleep exactly if the step does not wake c, and otherwise is ready again. */
  lemma AsleepIff(k: Kernel, idle: nat, st: Step, t: nat, c: S.Cause)
    requires Inv(k, idle) && Enabled(k, idle, st) && Asleep(k.sched, t, c)
    ensures if Wakes(k, st, c) then Awake(Next(k, st).sched, t) else Asleep(Next(k, st).sched, t, c)
  {
    if !Wakes(k, st, c) {
      StepAsleep(k, idle, st, t, c);
    } else {
      match st
      case Tick => TickWakes(k, t);
      case Turn => SleepWakes(k, WQ, t);
      case Sleep(d) => SleepWakes(k, d, t);
      case Wake(d) => S.WakeUpToEffect(k.sched, d, |k.sched.tasks|);
      case PushIrq(w) => S.WakeUpToEffect(k.sched, WQ, |k.sched.tasks|);
      case PushEnd => S.WakeUpToEffect(k.sched, WQ, |k.sched.tasks|);
    }
  }

  lemma TickWakes(k: Kernel, t: nat)
    requires Shape(k) && Asleep(k.sched, t, WQ)
    ensures IntPit(k).fired != k.fired ==> Awake(IntPit(k).sched, t)
  {
    var k1 := k.(tick := k.tick + 1);
    PitIs(k, k1);
    S.ScheduleTasks(k.sched);
    if Switches(k) { SwitchWakes(k1, S.Schedule(k.sched), InPit, t); } else { DrainWakes(k1, t); }
  }

  /** The worker sleeps when it finds the queue empty: another task runs, and the worker is ready again only if that
      task has fired a timer on resuming. */
  lemma WorkerSleeps(k: Kernel, idle: nat)
    requires Inv(k, idle) && Enabled(k, idle, Turn) && k.wq == []
    ensures var r := Next(k, Turn);
      && r.sched.current != WORKER
      && if r.fired == k.fired then Asleep(r.sched, WORKER, WQ) else Awake(r.sched, WORKER)
  {
    S.StepKeeps(k.sched, idle, S.SleepOp(WQ));
    SwitchAsleep(k, S.Sleep(k.sched, WQ), InSleep, WORKER, WQ);
    SwitchWakes(k, S.Sleep(k.sched, WQ), InSleep, WORKER);
    DrainRest(Suspend(k, S.Sleep(k.sched, WQ), InSleep));
  }

  /** A task that sleeps on c in step n of any run is not current until a later step wakes c, and ready behind that. */
  lemma SleepsUntilWoken(ks: seq<Kernel>, sts: seq<Step>, n: nat, m: nat, c: S.Cause)
    requires IsRun(ks, sts, IDLE) && ks[0] == BOOT && n < m < |ks| && sts[n] == Sleep(c)
    requires forall i: nat :: n < i < m ==> QuietAt(ks, sts, c, i)
    ensures var t := ks[n].sched.current;
      && ks[m].sched.current != t
      && (m < |sts| && Shape(ks[m]) && Wakes(ks[m], sts[m], c) ==> Awake(ks[m + 1].sched, t))
  {
    var t := ks[n].sched.current;
    BootOk();
    RunKeeps(ks, sts, IDLE, n);
    assert StepAt(ks, sts, IDLE, n);
    FallsAsleep(ks[n], IDLE, c);
    StaysAsleep(ks, sts, IDLE, n + 1, m, t, c);
    if m < |sts| {
      RunKeeps(ks, sts, IDLE, m);
      assert StepAt(ks, sts, IDLE, m);
      AsleepIff(ks[m], IDLE, sts[m], t, c);
    }
  }

  /** What no other step touches: the tick counts ticks, timers are recorded when they are set and leave the list only
      in a drain, and a task is inside wq_push from its append to its wakeup. */
  lemma Untouched(k: Kernel, st: Step)
    requires Shape(k)
    ensures var r, cur := Next(k, st), k.sched.current;
      && r.tick == k.tick + (if st.Tick? then 1 else 0)
      && r.armed == k.armed + (if st.SetTimer? then [T.Entry(st.at, k.nextId)] else [])
      && r.since == k.since + (if st.SetTimer? then [k.tick] else [])
      && r.pushing ==
         (if st.PushBegin? then k.pushing + {cur} else if st.PushEnd? then k.pushing - {cur} else k.pushing)
      && (st.Tick? || st.SetTimer? || Calls(k, st) || (r.timers == k.timers && r.fired == k.fired))
  {
    match st
    case Tick =>
      var k1 := k.(tick := k.tick + 1);
      PitIs(k, k1);
      DrainRest(k1);
      DrainRest(Suspend(k1, S.Schedule(k.sched), InPit));
    case Sleep(c) => DrainRest(Suspend(k, S.Sleep(k.sched, c), InSleep));
    case Turn => DrainRest(Suspend(k, S.Sleep(k.sched, WQ), InSleep));
    case _ =>
  }
}
