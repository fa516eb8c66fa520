/** The same kernel in the heap: task table, timer list and work queue, driven by the code of int_pit
    (kernel/core/timer.c), workqueue.c and the worker loop of kernel.c. Every method is proved against the step
    of the same name in Kernels, so the laws over runs proved there hold of it. */
module Machines {
  import S = Sched
  import K = Kernels
  import T = Timers
  import opened Lists
  import opened Words
  import opened TaskTable

  predicate IsDue(timers: seq<T.Entry>, tick: nat) {
    timers != [] && timers[0].tick <= tick
  }

  lemma DrainIs(k: K.Kernel)
    ensures K.Drain(k) == if IsDue(k.timers, k.tick) then K.Drain(K.Fire(k)) else k
  {
  }

  /** The state after the first half of int_pit leads to the state after all of it. */
  lemma PitResult(k: K.Kernel, k1: K.Kernel, k2: K.Kernel, switched: bool)
    requires K.Shape(k) && k1 == k.(tick := k.tick + 1)
    requires var s := S.Schedule(k.sched);
      && switched == (k1.tick % 10 == 0 && s.current != k.sched.current)
      && k2 == if switched then K.Suspend(k1, s, K.InPit) else k1
    ensures K.IntPit(k) == if switched then K.Arrive(k2) else K.Drain(k2)
  {
    K.PitIs(k, k1);
  }

  class Machine {
    const ctl: TaskCtl
    const timers: T.TimerList
    var wq: seq<nat>
    var resume: seq<K.Resume>
    var nextId: nat
    ghost var pushing: set<nat>
    ghost var armed: seq<T.Entry>
    ghost var since: seq<nat>
    ghost var fired: seq<K.Firing>

    ghost predicate Valid()
      reads this, ctl, ctl.tasks, timers, timers.list, timers.list.items
    {
      ctl.Valid() && timers.Valid()
    }

    ghost function Value(): K.Kernel
      reads this, ctl, ctl.tasks, timers, timers.list
      requires ctl.nextId <= ctl.tasks.Length
    {
      K.Kernel(ctl.Abs(), resume, timers.tick, timers.list.Contents(), nextId, wq, pushing, armed, since, fired)
    }

    /** kstart up to task_init. */
    constructor ()
      ensures Valid() && Value() == K.SETUP
    {
      timers := new T.TimerList();
      wq, nextId, resume := [], 1, [K.Fresh];
      ctl := new TaskCtl();
      pushing, armed, since, fired := {}, [], [], [];
    }

    /** kstart from there to the worker loop: the user task and the idle task are started. */
    method StartTasks()
      requires Valid() && Value() == K.SETUP
      modifies this`resume, ctl, ctl.tasks
      ensures Valid() && Value() == K.BOOT
    {
      var user := ctl.Start(S.HIGH);
      var idle := ctl.Start(S.LOW);
      resume := resume + [K.Fresh, K.Fresh];
    }

    /** wq_push_timer_func, and wq_push when interrupts are off. */
    method Push(w: nat)
      requires Valid()
      modifies this`wq, ctl, ctl.tasks
      ensures Valid()
      ensures Value() == old(Value()).(wq := old(wq) + [w], sched := S.Wakeup(old(ctl.Abs()), K.WQ))
    {
      wq := wq + [w];
      ctl.Wakeup(K.WQ);
    }

    /** The condition of the drain loop of int_pit. */
    method HeadDue() returns (due: bool)
      requires timers.list.Valid()
      ensures due == IsDue(timers.list.Contents(), timers.tick)
    {
      var empty := timers.list.Empty();
      due := !empty && timers.list.head.data.tick <= timers.tick;
    }

    /** One turn of the drain loop. */
    method Fire()
      requires Valid() && IsDue(timers.list.Contents(), timers.tick) && timers.tick < T.SENTINEL
      modifies this`wq, this`fired, ctl, ctl.tasks, timers.list, timers.list.head`next
      ensures Valid() && Value() == K.Fire(old(Value())) && timers.list.items == old(timers.list.items)[1..]
    {
      var first := timers.list.PopFront();
      Push(first.data.id);
      fired := fired + [K.Firing(first.data, timers.tick)];
    }

    /** What the drain loop keeps: finishing it from here gives `goal`, after n pops from `nodes`. */
    ghost predicate Draining(goal: K.Kernel, nodes: seq<Node<T.Entry>>, n: nat, due: bool)
      reads this, ctl, ctl.tasks, timers, timers.list, timers.list.items
    {
      && Valid() && timers.tick < T.SENTINEL && due == IsDue(timers.list.Contents(), timers.tick)
      && K.Drain(Value()) == goal
      && n <= |nodes| && timers.list.items == nodes[n..]
    }

    method FireNext(ghost goal: K.Kernel, ghost nodes: seq<Node<T.Entry>>, ghost n: nat) returns (due: bool)
      requires Draining(goal, nodes, n, true)
      modifies this`wq, this`fired, ctl, ctl.tasks, timers.list, timers.list.head`next
      ensures n < |nodes| && Draining(goal, nodes, n + 1, due)
    {
      DrainIs(Value());
      assert nodes[n..][1..] == nodes[n + 1..];
      Fire();
      due := HeadDue();
    }

    /** The drain loop. */
    method Drain()
      requires Valid() && timers.tick < T.SENTINEL
      modifies this`wq, this`fired, ctl, ctl.tasks, timers.list, timers.list.items`next
      ensures Valid() && Value() == K.Drain(old(Value()))
    {
      ghost var goal, nodes, n := K.Drain(Value()), timers.list.items, 0;
      var due := HeadDue();
      while due
        invariant Draining(goal, nodes, n, due)
        decreases |nodes| - n
      {
        due := FireNext(goal, nodes, n);
        n := n + 1;
      }
      DrainIs(Value());
    }

    /** What a task resumed by a switch does first. */
    method Arrive()
      requires Valid() && timers.tick < T.SENTINEL && K.Shape(Value())
      modifies this`wq, this`fired, ctl, ctl.tasks, timers.list, timers.list.items`next
      ensures Valid() && Value() == K.Arrive(old(Value()))
    {
      if resume[ctl.current] == K.InPit {
        Drain();
      }
    }

    method Tick()
      requires Valid() && timers.tick + 1 < T.SENTINEL
      modifies timers`tick
      ensures Valid() && Value() == old(Value()).(tick := old(timers.tick) + 1)
    {
      timers.tick := timers.tick + 1;
    }

    /** task_switch inside int_pit. */
    method TaskSwitch() returns (switched: bool)
      requires Valid() && K.Shape(Value())
      modifies this`resume, ctl, ctl.tasks
      ensures Valid() && K.Shape(Value())
      ensures var s := S.Schedule(old(ctl.Abs()));
        && switched == (s.current != old(ctl.current))
        && Value() == if switched then K.Suspend(old(Value()), s, K.InPit) else old(Value())
    {
      var was := ctl.current;
      ctl.Schedule();
      switched := ctl.current != was;
      if switched {
        resume := resume[was := K.InPit];
      }
    }

    /** The first half of int_pit: afterwards another task may run, at its own continuation. */
    method TickAndSwitch() returns (switched: bool)
      requires Valid() && timers.tick + 1 < T.SENTINEL && K.Shape(Value())
      modifies this`resume, ctl, ctl.tasks, timers`tick
      ensures Valid() && timers.tick == old(timers.tick) + 1 && K.Shape(Value())
      ensures K.IntPit(old(Value())) == if switched then K.Arrive(Value()) else K.Drain(Value())
    {
      ghost var k, k1 := Value(), Value().(tick := timers.tick + 1);
      switched := false;
      Tick();
      if timers.tick % 10 == 0 {
        switched := TaskSwitch();
      }
      PitResult(k, k1, Value(), switched);
    }

    /** int_pit. */
    method IntPit()
      requires Valid() && timers.tick + 1 < T.SENTINEL && K.Shape(Value())
      modifies this`wq, this`fired, this`resume, ctl, ctl.tasks, timers`tick, timers.list, timers.list.items`next
      ensures Valid() && Value() == K.IntPit(old(Value()))
    {
      var switched := TickAndSwitch();
      if switched {
        Arrive();
      } else {
        Drain();
      }
    }

    /** task_sleep. */
    method SleepOn(c: S.Cause, ghost idle: nat)
      requires Valid() && timers.tick < T.SENTINEL && K.Shape(Value())
      requires S.IdleReady(ctl.Abs(), idle) && ctl.current != idle
      modifies this`wq, this`fired, this`resume, ctl, ctl.tasks, timers.list, timers.list.items`next
      ensures Valid() && Value() == K.SleepOn(old(Value()), c)
    {
      resume := resume[ctl.current := K.InSleep];
      ctl.Sleep(c, idle);
      Arrive();
    }

    /** One turn of the loop of kstart, up to the call of the work taken from the queue. */
    method Turn(ghost idle: nat) returns (work: seq<nat>)
      requires Valid() && timers.tick < T.SENTINEL && K.Shape(Value())
      requires S.IdleReady(ctl.Abs(), idle) && ctl.current != idle
      modifies this`wq, this`fired, this`resume, ctl, ctl.tasks, timers.list, timers.list.items`next
      ensures Valid() && Value() == K.Next(old(Value()), K.Turn)
      ensures work == if old(wq) == [] then [] else [old(wq)[0]]
    {
      if wq == [] {
        SleepOn(K.WQ, idle);
        work := [];
      } else {
        work, wq := [wq[0]], wq[1..];
      }
    }

    /** A new id and the history of the timer about to be set. */
    method Record(at: nat) returns (id: nat)
      requires Valid()
      modifies this`nextId, this`armed, this`since
      ensures Valid() && id == old(nextId) && var k := old(Value());
        Value() == k.(nextId := k.nextId + 1, armed := k.armed + [T.Entry(at, id)], since := k.since + [k.tick])
    {
      id := nextId;
      nextId := nextId + 1;
      armed := armed + [T.Entry(at, id)];
      since := since + [timers.tick];
    }

    /** wq_push_with_delay; the deadline wraps like uint32, and the sentinel's own would break the list. */
    method PushWithDelay(delay: nat)
      requires Valid() && |timers.list.items| + 1 < UINT16 && K.Shape(Value())
      modifies this`nextId, this`armed, this`since, timers.list, timers.list.items`next
      ensures Valid() <==> Add32(timers.tick, delay) != T.SENTINEL
      ensures ctl.Valid() && Value() == K.Next(old(Value()), K.SetTimer(Add32(timers.tick, delay)))
    {
      var at := Add32(timers.tick, delay);
      K.SetTimerIs(Value(), at);
      var id := Record(at);
      SetTimer(id, delay);
    }

    /** set_timer. */
    method SetTimer(id: nat, delay: nat)
      requires Valid() && |timers.list.items| + 1 < UINT16
      modifies timers.list, timers.list.items`next
      ensures Valid() <==> Add32(timers.tick, delay) != T.SENTINEL
      ensures ctl.Valid()
      ensures Value() == old(Value()).(timers := T.Insert(old(Value()).timers, T.Entry(Add32(timers.tick, delay), id)))
    {
      timers.SetTimer(id, delay);
    }

    /** The first half of wq_push by a task that runs with interrupts on. */
    method PushBegin(w: nat)
      requires Valid() && K.Shape(Value())
      modifies this`wq, this`pushing
      ensures Valid() && Value() == K.Next(old(Value()), K.PushBegin(w))
    {
      wq := wq + [w];
      pushing := pushing + {ctl.current};
    }

    /** Its second half. */
    method PushEnd()
      requires Valid() && K.Shape(Value())
      modifies this`pushing, ctl, ctl.tasks
      ensures Valid() && Value() == K.Next(old(Value()), K.PushEnd)
    {
      pushing := pushing - {ctl.current};
      ctl.Wakeup(K.WQ);
    }
  }
}
