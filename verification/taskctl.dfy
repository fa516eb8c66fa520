/** The global task table of kernel/core/task.c, updated in place. Every method is proved against the function
    of the same name in Sched. The ready lists are sequences here: module Lists proves that the intrusive list
    behaves as one. */
module TaskTable {
  import S = Sched

  class TaskCtl {
    const tasks: array<S.Task>
    var nextId: nat
    var current: nat
    var high: seq<nat>
    var low: seq<nat>

    ghost function Abs(): S.State
      reads this, tasks
      requires nextId <= tasks.Length
    {
      S.State(tasks[..nextId], current, high, low)
    }

    ghost predicate Sized()
      reads this
    {
      tasks.Length == S.MAX_TASK && current < nextId <= S.MAX_TASK
    }

    ghost predicate Valid()
      reads this, tasks
    {
      Sized() && S.Inv(Abs())
    }

    /** task_init. */
    constructor ()
      ensures Valid() && Abs() == S.BOOT && fresh(tasks)
    {
      tasks := new S.Task[S.MAX_TASK](_ => S.Task(0, S.WAITING, S.LOW, 0));
      nextId, current, high, low := 0, 0, [], [];
      new;
      tasks[nextId] := S.Task(0, S.RUNNING, S.HIGH, 0);
      current := nextId;
      nextId := nextId + 1;
      assert tasks[..nextId] == S.BOOT.tasks;
      assert S.Ready(S.BOOT.tasks, 0, S.HIGH) == {} == S.Ready(S.BOOT.tasks, 0, S.LOW);
    }

    /** list_pushback(&lists[task->priority], &task->link). */
    method PushBack(t: nat)
      requires nextId <= tasks.Length && t < nextId
      modifies this`high, this`low
      ensures Abs() == S.Enqueue(old(Abs()), t)
    {
      if tasks[t].priority == S.HIGH { high := high + [t]; } else { low := low + [t]; }
    }

    method Start(p: S.Priority) returns (id: nat)
      requires Valid() && nextId < S.MAX_TASK
      modifies this, tasks
      ensures Valid() && Abs() == S.Start(old(Abs()), p) && id == old(nextId)
    {
      S.StartKeeps(Abs(), p);
      id := nextId;
      tasks[id] := S.Task(id, S.RUNNING, p, 0);
      nextId := nextId + 1;
      assert tasks[..nextId] == old(tasks[..nextId]) + [S.Task(id, S.RUNNING, p, 0)];
      PushBack(id);
    }

    method Wakeup(c: S.Cause)
      requires Valid()
      modifies this, tasks
      ensures Valid() && Abs() == S.Wakeup(old(Abs()), c)
    {
      ghost var was := Abs();
      var i := 0;
      while i < nextId
        invariant i <= nextId == old(nextId) && Sized()
        invariant Abs() == S.WakeUpTo(was, c, i)
      {
        ghost var now := Abs();
        if tasks[i].cause == c && tasks[i].flag != S.RUNNING {
          tasks[i] := tasks[i].(flag := S.RUNNING);
          assert tasks[..nextId] == now.tasks[i := tasks[i]];
          PushBack(i);
        }
        i := i + 1;
      }
      S.WakeUpToKeeps(was, c, nextId);
    }

    method Schedule()
      requires Sized() && S.Partition(Abs())
      modifies this
      ensures Sized() && nextId == old(nextId)
      ensures old(tasks[current].flag == S.RUNNING || high != [] || low != []) ==> Valid()
      ensures Abs() == S.Schedule(old(Abs())) && (current == old(current) ==> Abs() == old(Abs()))
    {
      ghost var was := Abs();
      if tasks[current].flag == S.RUNNING || high != [] || low != [] { S.ScheduleKeeps(was); }
      var next: int := -1;
      if high != [] {
        next, high := high[0], high[1..];
      }
      if next == -1 && (tasks[current].flag == S.WAITING || tasks[current].priority == S.LOW) && low != [] {
        next, low := low[0], low[1..];
      }
      if next != -1 {
        if tasks[current].flag != S.WAITING {
          PushBack(current);
        }
        current := next;
      }
      assert Abs() == S.Schedule(was);
    }

    /** task_sleep. When a task other than the ready idle task sleeps, another one runs afterwards. */
    method Sleep(c: S.Cause, ghost idle: nat)
      requires Valid()
      modifies this, tasks
      ensures Sized() && Abs() == S.Sleep(old(Abs()), c)
      ensures S.IdleReady(old(Abs()), idle) && idle != old(current) ==> Valid() && current != old(current)
    {
      ghost var was := Abs();
      if S.IdleReady(was, idle) && idle != current { SleepFinds(was, c, idle); }
      tasks[current] := tasks[current].(flag := S.WAITING, cause := c);
      assert Abs() == S.MarkWaiting(was, c);
      assert forall p: S.Priority :: S.Ready(Abs().tasks, current, p) == S.Ready(was.tasks, was.current, p);
      Schedule();
    }
  }

  lemma SleepFinds(s: S.State, c: S.Cause, idle: nat)
    requires S.Inv(s) && S.IdleReady(s, idle) && idle != s.current
    ensures s.low != [] && S.Sleep(s, c).current != s.current
  {
    S.StepKeeps(s, idle, S.SleepOp(c));
    assert idle in S.Ready(s.tasks, s.current, S.LOW);
    assert idle in multiset(s.low);
  }
}
