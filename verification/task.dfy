/** The two-priority round-robin scheduler of kernel/core/task.c, as functions on a value. */
module Sched {
  const MAX_TASK := 100

  datatype Flag = RUNNING | WAITING
  datatype Priority = LOW | HIGH
  type Cause = nat // the address passed to task_sleep and task_wakeup
  datatype Task = Task(id: nat, flag: Flag, priority: Priority, cause: Cause)

  /** `tasks` are the started tasks by id; the ready queues hold ids. */
  datatype State = State(tasks: seq<Task>, current: nat, high: seq<nat>, low: seq<nat>)

  /** The RUNNING tasks of priority p that are not current: those that should wait in its queue. */
  function Ready(ts: seq<Task>, current: nat, p: Priority): set<nat> {
    set t: nat | t < |ts| && t != current && ts[t].flag == RUNNING && ts[t].priority == p
  }

  /** Each started non-current task is in exactly one ready queue, once, at its own priority, if and only if
      it is RUNNING; the current task is in none. */
  predicate Partition(s: State) {
    && s.current < |s.tasks|
    && (forall t :: 0 <= t < |s.tasks| ==> s.tasks[t].id == t)
    && multiset(s.high) == multiset(Ready(s.tasks, s.current, HIGH))
    && multiset(s.low) == multiset(Ready(s.tasks, s.current, LOW))
  }

  predicate Inv(s: State) {
    Partition(s) && s.tasks[s.current].flag == RUNNING
  }

  /** task_init. */
  const BOOT := State([Task(0, RUNNING, HIGH, 0)], 0, [], [])

  /** list_pushback on the queue of the task's own priority. */
  function Enqueue(s: State, t: nat): State
    requires t < |s.tasks|
  {
    if s.tasks[t].priority == HIGH then s.(high := s.high + [t]) else s.(low := s.low + [t])
  }

  function Start(s: State, p: Priority): State {
    Enqueue(s.(tasks := s.tasks + [Task(|s.tasks|, RUNNING, p, 0)]), |s.tasks|)
  }

  function WakeOne(s: State, c: Cause, t: nat): State
    requires t < |s.tasks|
  {
    if s.tasks[t].cause == c && s.tasks[t].flag != RUNNING
    then Enqueue(s.(tasks := s.tasks[t := s.tasks[t].(flag := RUNNING)]), t)
    else s
  }

  /** The first n iterations of the loop of task_wakeup. */
  function WakeUpTo(s: State, c: Cause, n: nat): (r: State)
    requires n <= |s.tasks|
    ensures |r.tasks| == |s.tasks|
  {
    if n == 0 then s else WakeOne(WakeUpTo(s, c, n - 1), c, n - 1)
  }

  function Wakeup(s: State, c: Cause): State {
    WakeUpTo(s, c, |s.tasks|)
  }

  function Queue(s: State, p: Priority): seq<nat> {
    if p == HIGH then s.high else s.low
  }

  /** Pops the front of the queue of priority p and makes it current; a current task that is not WAITING
      goes to the back of its own queue. */
  function SwitchTo(s: State, p: Priority): State
    requires s.current < |s.tasks| && Queue(s, p) != []
  {
    var s' := if p == HIGH then s.(high := s.high[1..]) else s.(low := s.low[1..]);
    (if s.tasks[s.current].flag != WAITING then Enqueue(s', s.current) else s').(current := Queue(s, p)[0])
  }

  function Schedule(s: State): State
    requires s.current < |s.tasks|
  {
    var cur := s.tasks[s.current];
    if s.high != [] then SwitchTo(s, HIGH)
    else if (cur.flag == WAITING || cur.priority == LOW) && s.low != [] then SwitchTo(s, LOW)
    else s
  }

  function MarkWaiting(s: State, c: Cause): State
    requires s.current < |s.tasks|
  {
    s.(tasks := s.tasks[s.current := s.tasks[s.current].(flag := WAITING, cause := c)])
  }

  function Sleep(s: State, c: Cause): State
    requires s.current < |s.tasks|
  {
    Schedule(MarkWaiting(s, c))
  }

  // ----- one call -----

  /** Putting a task that has just become ready at the back of its queue keeps the partition. */
  lemma EnqueueKeeps(s: State, r: State, t: nat)
    requires Partition(s) && t < |r.tasks| && r.high == s.high && r.low == s.low
    requires r.current < |r.tasks| && forall u :: 0 <= u < |r.tasks| ==> r.tasks[u].id == u
    requires forall p: Priority ::
      Ready(r.tasks, r.current, p) == Ready(s.tasks, s.current, p) + if r.tasks[t].priority == p then {t} else {}
    requires forall p: Priority :: t !in Ready(s.tasks, s.current, p)
    ensures Partition(Enqueue(r, t))
  {
    var e := Enqueue(r, t);
    assert Ready(e.tasks, e.current, HIGH) == Ready(r.tasks, r.current, HIGH);
    assert Ready(e.tasks, e.current, LOW) == Ready(r.tasks, r.current, LOW);
  }

  lemma StartKeeps(s: State, p: Priority)
    requires Inv(s)
    ensures Inv(Start(s, p))
  {
    EnqueueKeeps(s, s.(tasks := s.tasks + [Task(|s.tasks|, RUNNING, p, 0)]), |s.tasks|);
  }

  lemma WakeOneKeeps(s: State, r: State, c: Cause, t: nat)
    requires t < |s.tasks| && r == WakeOne(s, c, t)
    ensures Inv(r) || !Inv(s)
  {
    if Inv(s) && s.tasks[t].cause == c && s.tasks[t].flag != RUNNING {
      EnqueueKeeps(s, s.(tasks := s.tasks[t := s.tasks[t].(flag := RUNNING)]), t);
    }
  }

  lemma {:induction false} WakeUpToKeeps(s: State, c: Cause, n: nat)
    requires n <= |s.tasks|
    ensures Inv(WakeUpTo(s, c, n)) || !Inv(s)
  {
    if n > 0 {
      WakeOneKeeps(WakeUpTo(s, c, n - 1), WakeUpTo(s, c, n), c, n - 1);
      WakeUpToKeeps(s, c, n - 1);
    }
  }

  /** A wakeup readies exactly the tasks that sleep on its cause; every queue only grows at its back. */
  lemma {:induction false} WakeUpToEffect(s: State, c: Cause, n: nat)
    requires n <= |s.tasks|
    ensures var r := WakeUpTo(s, c, n);
      && r.current == s.current && s.high <= r.high && s.low <= r.low
      && (forall t :: 0 <= t < |s.tasks| ==>
            r.tasks[t] == if t < n && s.tasks[t].cause == c then s.tasks[t].(flag := RUNNING) else s.tasks[t])
  {
    if n > 0 { WakeUpToEffect(s, c, n - 1); }
  }

  lemma PopFront(q: seq<nat>, a: set<nat>)
    requires q != [] && multiset(q) == multiset(a)
    ensures q[0] in a && multiset(q[1..]) == multiset(a - {q[0]})
  {
    assert q == [q[0]] + q[1..];
    assert q[0] in multiset(q);
    assert multiset(a - {q[0]}) == multiset(a) - multiset{q[0]};
  }

  lemma SwitchToKeeps(s: State, p: Priority)
    requires Partition(s) && Queue(s, p) != []
    ensures var r := SwitchTo(s, p);
      && Inv(r) && r.tasks == s.tasks && r.current != s.current && r.tasks[r.current].priority == p
  {
    var q, r := Queue(s, p), SwitchTo(s, p);
    PopFront(q, Ready(s.tasks, s.current, p));
    SwitchedQueue(s, p, HIGH, q[0]);
    SwitchedQueue(s, p, LOW, q[0]);
  }

  /** The queue of priority o after the switch: the front is gone if it was popped there, and the old current
      task is at the back if it goes on running and belongs there. */
  lemma SwitchedQueue(s: State, p: Priority, o: Priority, x: nat)
    requires s.current < |s.tasks| && x < |s.tasks| && x != s.current && s.tasks[x].priority == p
    requires Queue(s, p) != [] && Queue(s, p)[0] == x
    requires multiset(Queue(s, o)) == multiset(Ready(s.tasks, s.current, o))
    ensures multiset(Queue(SwitchTo(s, p), o)) == multiset(Ready(s.tasks, x, o))
  {
    var here := Ready(s.tasks, s.current, o);
    var stays := s.tasks[s.current].flag == RUNNING && s.tasks[s.current].priority == o;
    var rest := if o == p then Queue(s, o)[1..] else Queue(s, o);
    calc {
      multiset(Queue(SwitchTo(s, p), o));
      { assert Queue(SwitchTo(s, p), o) == rest + if stays then [s.current] else []; }
      multiset(rest + if stays then [s.current] else []);
      { if o == p { PopFront(Queue(s, o), here); } else { assert here - {x} == here; }
        Moved(rest, here - {x}, s.current, stays); }
      multiset(here - {x} + if stays then {s.current} else {});
      { ReadyAfter(s.tasks, s.current, x, o, stays); }
      multiset(Ready(s.tasks, x, o));
    }
  }

  lemma Moved(q: seq<nat>, a: set<nat>, t: nat, stays: bool)
    requires multiset(q) == multiset(a) && t !in a
    ensures multiset(q + if stays then [t] else []) == multiset(a + if stays then {t} else {})
  {
  }

  lemma ReadyAfter(ts: seq<Task>, was: nat, now: nat, o: Priority, stays: bool)
    requires was < |ts| && now < |ts| && was != now
    requires stays == (ts[was].flag == RUNNING && ts[was].priority == o)
    ensures Ready(ts, now, o) == Ready(ts, was, o) - {now} + if stays then {was} else {}
  {
  }

  /** The scheduler finds a successor for a WAITING task unless both queues are empty, and restores the
      partition; a LOW task runs only when no HIGH task is ready. */
  lemma ScheduleKeeps(s: State)
    requires Partition(s)
    requires s.tasks[s.current].flag == RUNNING || s.high != [] || s.low != []
    ensures var r := Schedule(s);
      && Inv(r) && r.tasks == s.tasks
      && (s.tasks[s.current].flag == WAITING ==> r.current != s.current)
      && (r.current == s.current ==> r == s)
      && (r.tasks[r.current].priority == LOW ==> r.high == [])
  {
    if s.high != [] { SwitchToKeeps(s, HIGH); }
    else if s.low != [] { SwitchToKeeps(s, LOW); }
  }

  /** task_sleep returns on the same task, which then runs on although WAITING, exactly when nobody is ready. */
  lemma SleepSwitchesIff(s: State, c: Cause)
    requires Inv(s)
    ensures Sleep(s, c).current != s.current <==> s.high != [] || s.low != []
  {
    var m := MarkWaiting(s, c);
    assert forall p: Priority :: Ready(m.tasks, m.current, p) == Ready(s.tasks, s.current, p);
    if s.high != [] || s.low != [] { ScheduleKeeps(m); }
  }

  // ----- whole runs -----

  /** A call that reaches the scheduler's state: task_start, task_wakeup, task_sleep by the current task, and
      the task_switch of the timer interrupt. */
  datatype Op = StartOp(p: Priority) | WakeOp(c: Cause) | SleepOp(c: Cause) | SwitchOp

  function Step(s: State, op: Op): State
    requires s.current < |s.tasks|
  {
    match op
    case StartOp(p) => Start(s, p)
    case WakeOp(c) => Wakeup(s, c)
    case SleepOp(c) => Sleep(s, c)
    case SwitchOp => Schedule(s)
  }

  /** The idle task has been started and has not slept. */
  predicate IdleReady(s: State, idle: nat) {
    idle < |s.tasks| && s.tasks[idle].priority == LOW && s.tasks[idle].flag == RUNNING
  }

  /** Tasks other than `idle` may sleep; the task array has room. */
  predicate Allowed(s: State, idle: nat, op: Op) {
    && (op.SleepOp? ==> s.current != idle)
    && (op.StartOp? ==> |s.tasks| < MAX_TASK)
  }

  predicate Legal(s: State, idle: nat, ops: seq<Op>)
    decreases |ops|
  {
    s.current < |s.tasks| &&
    (ops != [] ==> Allowed(s, idle, ops[0]) && Legal(Step(s, ops[0]), idle, ops[1..]))
  }

  function Run(s: State, idle: nat, ops: seq<Op>): State
    requires Legal(s, idle, ops)
    decreases |ops|
  {
    if ops == [] then s else Run(Step(s, ops[0]), idle, ops[1..])
  }

  /** Every allowed call keeps the partition; a sleep always hands the processor to another task. */
  lemma StepKeeps(s: State, idle: nat, op: Op)
    requires Inv(s) && IdleReady(s, idle) && Allowed(s, idle, op)
    ensures Inv(Step(s, op)) && IdleReady(Step(s, op), idle)
    ensures op.SleepOp? ==>
      var r := Step(s, op);
      && r.current != s.current && r.tasks[s.current].flag == WAITING && r.tasks[s.current].cause == op.c
    ensures op.SleepOp? || op.SwitchOp? ==>
      var r := Step(s, op);
      r.tasks[r.current].priority == LOW ==> r.high == []
  {
    match op
    case StartOp(p) => StartKeeps(s, p);
    case WakeOp(c) =>
      WakeUpToKeeps(s, c, |s.tasks|);
      WakeUpToEffect(s, c, |s.tasks|);
    case SleepOp(c) =>
      var m := MarkWaiting(s, c);
      assert forall p: Priority :: Ready(m.tasks, m.current, p) == Ready(s.tasks, s.current, p);
      assert idle in Ready(s.tasks, s.current, LOW);
      assert idle in multiset(m.low);
      ScheduleKeeps(m);
    case SwitchOp => ScheduleKeeps(s);
  }

  /** Scheduler partition over every run. */
  lemma {:induction false} RunKeeps(s: State, idle: nat, ops: seq<Op>)
    requires Inv(s) && IdleReady(s, idle) && Legal(s, idle, ops)
    ensures Inv(Run(s, idle, ops)) && IdleReady(Run(s, idle, ops), idle)
    decreases |ops|
  {
    if ops != [] {
      StepKeeps(s, idle, ops[0]);
      RunKeeps(Step(s, ops[0]), idle, ops[1..]);
    }
  }

  /** Sleep really sleeps: a task that sleeps on c stays asleep, on c and not current, through any run without
      a wakeup of c. */
  lemma {:induction false} StaysAsleep(s: State, idle: nat, ops: seq<Op>, t: nat, c: Cause)
    requires Inv(s) && IdleReady(s, idle) && Legal(s, idle, ops)
    requires t < |s.tasks| && s.tasks[t].flag == WAITING && s.tasks[t].cause == c
    requires WakeOp(c) !in ops
    ensures var r := Run(s, idle, ops);
      t < |r.tasks| && r.tasks[t] == s.tasks[t] && r.current != t
    decreases |ops|
  {
    if ops != [] {
      StepKeeps(s, idle, ops[0]);
      match ops[0] {
        case StartOp(p) =>
        case WakeOp(d) => WakeUpToEffect(s, d, |s.tasks|);
        case SleepOp(d) => ScheduleTasks(MarkWaiting(s, d));
        case SwitchOp => ScheduleTasks(s);
      }
      StaysAsleep(Step(s, ops[0]), idle, ops[1..], t, c);
    }
  }

  lemma ScheduleTasks(s: State)
    requires s.current < |s.tasks|
    ensures Schedule(s).tasks == s.tasks
  {
  }

  predicate IsCall(op: Op) { op.SleepOp? || op.SwitchOp? }

  /** The task made current by each call of schedule, in order. */
  function Turns(s: State, idle: nat, ops: seq<Op>): seq<nat>
    requires Legal(s, idle, ops)
    decreases |ops|
  {
    if ops == [] then []
    else (if IsCall(ops[0]) then [Step(s, ops[0]).current] else []) + Turns(Step(s, ops[0]), idle, ops[1..])
  }

  /** Bounded FIFO waiting: whatever wakeups, sleeps and starts interleave, the next calls of schedule run exactly
      the tasks waiting in the HIGH queue, once each, in queue order. The task at position k therefore becomes
      current at call k+1 and not before. */
  lemma {:induction false} FifoTurns(s: State, idle: nat, ops: seq<Op>, q: seq<nat>)
    requires Inv(s) && IdleReady(s, idle) && Legal(s, idle, ops)
    requires q <= s.high
    ensures Agree(Turns(s, idle, ops), q)
    decreases |ops|
  {
    if ops != [] && q != [] {
      var r, calls := Step(s, ops[0]), IsCall(ops[0]);
      StepKeeps(s, idle, ops[0]);
      FrontStep(s, ops[0], q);
      FifoTurns(r, idle, ops[1..], if calls then q[1..] else q);
      OneTurn(calls, r.current, Turns(r, idle, ops[1..]), q);
    }
  }

  /** Either sequence is a prefix of the other. */
  predicate Agree(turns: seq<nat>, q: seq<nat>) { if |turns| <= |q| then turns <= q else q <= turns }

  lemma OneTurn(calls: bool, x: nat, rest: seq<nat>, q: seq<nat>)
    requires q != [] && (calls ==> x == q[0]) && Agree(rest, if calls then q[1..] else q)
    ensures Agree((if calls then [x] else []) + rest, q)
  {
    if calls { assert q == [q[0]] + q[1..]; } else { assert [] + rest == rest; }
  }

  /** A call of schedule takes the front of a non-empty HIGH queue; any other call leaves the queue as a prefix. */
  lemma FrontStep(s: State, op: Op, q: seq<nat>)
    requires s.current < |s.tasks| && q != [] && q <= s.high
    ensures var r := Step(s, op);
      if IsCall(op) then r.current == q[0] && q[1..] <= r.high else q <= r.high
  {
    match op {
      case StartOp(p) =>
      case WakeOp(c) => WakeUpToEffect(s, c, |s.tasks|);
      case SleepOp(c) => assert q[1..] <= s.high[1..] <= Step(s, op).high;
      case SwitchOp => assert q[1..] <= s.high[1..] <= Step(s, op).high;
    }
  }

  /** The tasks of a queue are pairwise different, so no task runs twice in one pass of FifoTurns. */
  lemma QueueDistinct(s: State, p: Priority, i: nat, j: nat)
    requires Partition(s) && i < j < |Queue(s, p)|
    ensures Queue(s, p)[i] != Queue(s, p)[j]
  {
    var q := Queue(s, p);
    assert q == q[..j] + [q[j]] + q[j + 1..];
    assert q[i] == q[..j][i];
    assert q[i] in multiset(q[..j]);
    assert multiset(Ready(s.tasks, s.current, p))[q[j]] <= 1;
  }

  /** The task at position k of the HIGH queue becomes current at exactly the (k+1)-th call of schedule, and no
      task becomes current twice up to then. */
  lemma BoundedWait(s: State, idle: nat, ops: seq<Op>, k: nat)
    requires Inv(s) && IdleReady(s, idle) && Legal(s, idle, ops)
    requires k < |s.high| && k < |Turns(s, idle, ops)|
    ensures var turns := Turns(s, idle, ops);
      turns[k] == s.high[k] && forall i, j :: 0 <= i < j <= k ==> turns[i] != turns[j]
  {
    var turns := Turns(s, idle, ops);
    FifoTurns(s, idle, ops, s.high);
    forall i, j | 0 <= i < j <= k ensures turns[i] != turns[j] {
      QueueDistinct(s, HIGH, i, j);
      assert turns[i] == s.high[i] && turns[j] == s.high[j];
    }
  }

  lemma {:induction false} FewIds(a: set<nat>, n: nat)
    requires forall t :: t in a ==> t < n
    ensures |a| <= n
  {
    if n > 0 {
      FewIds(a - {n - 1}, n - 1);
      assert a <= (a - {n - 1}) + {n - 1};
    } else {
      assert a == {};
    }
  }

  lemma QueueShort(s: State, p: Priority)
    requires Partition(s)
    ensures |Queue(s, p)| <= |s.tasks|
  {
    FewIds(Ready(s.tasks, s.current, p), |s.tasks|);
    assert |multiset(Queue(s, p))| == |multiset(Ready(s.tasks, s.current, p))|;
  }

  // ----- what schedule chooses, and in what order it goes round -----

  /** schedule switches exactly when a HIGH task is ready, or a LOW one is and the current task is asleep or LOW itself;
      then the front of that queue runs. */
  lemma ScheduleSwitchesIff(s: State)
    requires Partition(s)
    ensures var r, cur := Schedule(s), s.tasks[s.current];
      && (r.current != s.current <==> s.high != [] || (s.low != [] && (cur.flag == WAITING || cur.priority == LOW)))
      && (r.current != s.current ==> r.current == (if s.high != [] then s.high[0] else s.low[0]))
  {
    if s.high != [] { SwitchToKeeps(s, HIGH); } else if s.low != [] { SwitchToKeeps(s, LOW); }
  }

  /** The tasks of priority p that take turns, the current one first. */
  function Line(s: State, p: Priority): seq<nat> { [s.current] + Queue(s, p) }

  predicate AllReady(ts: seq<Task>, line: seq<nat>, p: Priority) {
    forall i :: 0 <= i < |line| ==> line[i] < |ts| && ts[line[i]].flag == RUNNING && ts[line[i]].priority == p
  }

  /** Those waiting are ready, and no HIGH task keeps LOW ones waiting. */
  predicate TakesTurns(s: State, p: Priority) {
    AllReady(s.tasks, Line(s, p), p) && (p == LOW ==> s.high == [])
  }

  function Rotate(l: seq<nat>, n: nat): seq<nat>
    requires n <= |l|
  {
    l[n..] + l[..n]
  }

  lemma RotateOne(l: seq<nat>, n: nat)
    requires n < |l|
    ensures Rotate(l, n)[1..] + [Rotate(l, n)[0]] == Rotate(l, n + 1)
  {
  }

  /** s and r differ at most in the turns of priority p. */
  predicate SameBut(s: State, r: State, p: Priority) {
    r.tasks == s.tasks && forall o: Priority :: o != p ==> Queue(r, o) == Queue(s, o)
  }

  lemma LineRotates(s: State, r: State, p: Priority)
    requires TakesTurns(s, p) && s.current < |s.tasks| && r == Schedule(s)
    ensures SameBut(s, r, p) && Line(r, p) == Line(s, p)[1..] + [s.current]
  {
    var q := Queue(s, p);
    assert Line(s, p)[0] == s.current && Line(s, p)[1..] == q;
    if q != [] { assert [q[0]] + (q[1..] + [s.current]) == q + [s.current]; }
  }

  /** n calls of schedule, as ticks make them. */
  function Ticks(s: State, n: nat): State
    requires s.current < |s.tasks|
    decreases n
  {
    if n == 0 then s
    else
      var r := Ticks(s, n - 1);
      if r.current < |r.tasks| then Schedule(r) else r
  }

  lemma RotatesReady(s: State, r: State, p: Priority, n: nat)
    requires TakesTurns(s, p) && SameBut(s, r, p) && n <= |Line(s, p)| && Line(r, p) == Rotate(Line(s, p), n)
    ensures TakesTurns(r, p) && r.current < |r.tasks|
  {
    assert Line(r, p)[0] == r.current;
    assert Queue(r, HIGH) == Queue(s, HIGH) || p == HIGH;
  }

  lemma LineNext(s: State, r: State, r': State, p: Priority, n: nat)
    requires TakesTurns(s, p) && SameBut(s, r, p) && n < |Line(s, p)| && Line(r, p) == Rotate(Line(s, p), n)
    requires r.current < |r.tasks| ==> r' == Schedule(r)
    ensures SameBut(s, r', p) && Line(r', p) == Rotate(Line(s, p), n + 1)
  {
    RotatesReady(s, r, p, n);
    LineRotates(r, r', p);
    RotateOne(Line(s, p), n);
    assert Line(r, p)[0] == r.current;
  }

  lemma {:induction false} LineAfter(s: State, p: Priority, n: nat)
    requires TakesTurns(s, p) && s.current < |s.tasks| && n <= |Line(s, p)|
    ensures SameBut(s, Ticks(s, n), p) && Line(Ticks(s, n), p) == Rotate(Line(s, p), n)
  {
    if n == 0 {
      assert Rotate(Line(s, p), 0) == Line(s, p);
    } else {
      LineAfter(s, p, n - 1);
      LineNext(s, Ticks(s, n - 1), Ticks(s, n), p, n - 1);
    }
  }

  lemma SameLine(s: State, r: State, p: Priority)
    requires SameBut(s, r, p) && Line(r, p) == Line(s, p)
    ensures r == s
  {
    assert r.current == Line(r, p)[0] && Queue(r, p) == Line(r, p)[1..];
    assert s.current == Line(s, p)[0] && Queue(s, p) == Line(s, p)[1..];
    assert Queue(r, HIGH) == Queue(s, HIGH) && Queue(r, LOW) == Queue(s, LOW);
  }

  lemma InvTakesTurns(s: State, p: Priority)
    requires Inv(s) && s.tasks[s.current].priority == p && (p == LOW ==> s.high == [])
    ensures TakesTurns(s, p)
  {
    var q := Queue(s, p);
    forall i | 0 <= i < |q| ensures q[i] in Ready(s.tasks, s.current, p) { assert q[i] in multiset(q); }
  }

  /** Round robin within each priority: while nobody sleeps or wakes, tick k gives the processor to the task that stood
      k places behind, so that each runs once in a round, and a full round changes nothing. */
  lemma RoundRobin(s: State, p: Priority, k: nat)
    requires Inv(s) && s.tasks[s.current].priority == p && (p == LOW ==> s.high == []) && k <= |Queue(s, p)|
    ensures Ticks(s, k).current == Line(s, p)[k]
    ensures Ticks(s, |Queue(s, p)| + 1) == s
  {
    var l := Line(s, p);
    InvTakesTurns(s, p);
    LineAfter(s, p, k);
    assert Rotate(l, k)[0] == l[k] && Line(Ticks(s, k), p)[0] == Ticks(s, k).current;
    LineAfter(s, p, |l|);
    assert Rotate(l, |l|) == l;
    SameLine(s, Ticks(s, |l|), p);
  }

  /** A started task is ready, at the back of the queue of its own priority. */
  lemma StartAtBack(s: State, p: Priority)
    ensures var r, t := Start(s, p), |s.tasks|;
      && |r.tasks| == t + 1 && r.tasks[..t] == s.tasks && r.current == s.current
      && r.tasks[t].id == t && r.tasks[t].flag == RUNNING && r.tasks[t].priority == p
      && Queue(r, p) == Queue(s, p) + [t]
      && forall o: Priority :: o != p ==> Queue(r, o) == Queue(s, o)
  {
  }

  /** New in q behind r: ids below n, in increasing order. */
  predicate Rising(q: seq<nat>, r: seq<nat>, n: nat) {
    && |q| <= |r| && (forall i :: |q| <= i < |r| ==> r[i] < n)
    && forall i, j :: |q| <= i < j < |r| ==> r[i] < r[j]
  }

  /** Tasks that wake together queue up in the order of their ids. */
  lemma {:induction false} WakeInOrder(s: State, c: Cause, n: nat)
    requires n <= |s.tasks|
    ensures var r := WakeUpTo(s, c, n); Rising(s.high, r.high, n) && Rising(s.low, r.low, n)
  {
    if n > 0 { WakeInOrder(s, c, n - 1); }
  }
}
