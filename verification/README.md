# Verification of the mosmos kernel

mosmos is a small x86_64 kernel written in C. This project models its hard core in Dafny and proves what it is
meant to guarantee. `dafny verify dfyconfig.toml` checks everything.

| file | module | models |
|---|---|---|
| `list.dfy` | `Lists` | the intrusive list, in the heap |
| `memory.dfy` | `Memory` | the 1 MB block allocator: values, and the table in the heap |
| `task.dfy`, `taskctl.dfy` | `Sched`, `TaskTable` | the scheduler: values and runs, and the task table in the heap |
| `timer.dfy` | `Timers` | the sorted timer list, in the heap on `Lists` |
| `kernel.dfy`, `kernelruns.dfy`, `machine.dfy` | `Kernels`, `KernelRuns`, `Machines` | timer interrupt, work queue and worker loop together: a state machine, its runs, and the code in the heap |
| `tcp.dfy`, `tcpsocket.dfy` | `Tcp`, `TcpSockets` | one TCP endpoint: values, and the socket with its retransmission list in the heap |
| `tcpsession.dfy` | `TcpSession` | a whole session of two sockets when every segment arrives |
| `tcpqueue.dfy` | `TcpQueue` | the retransmission queue of one socket, over runs with any segments |
| `tcphist.dfy`, `tcpnet.dfy` | `TcpHist`, `TcpNet` | two endpoints that may close and open again, over a network that loses, duplicates and reorders: their openings, and what each step keeps |
| `tcpruns.dfy`, `tcpprogress.dfy`, `tcpfaults.dfy` | `TcpRuns`, `TcpProgress`, `TcpFaults` | the laws over every run of the two, what the two can always get done, exact conditions, and runs that break the laws |
| `tcptx.dfy` | `TcpTx` | all sockets of a machine with timers, work queue, worker and heap blocks |
| `netutil.dfy` | `NetUtil` | byte order and Internet checksum |
| `number.dfy`, `labels.dfy`, `ipaddr.dfy`, `dns.dfy` | `Numbers`, `Labels`, `Addresses`, `Dns` | decimal numbers, dotted text, addresses, domain names |

Code that changes state is a class or a method with the source's loops, proved equal to a function on values; the
laws are then proved of those functions, over every run where they are about runs. Interrupt gates keep handlers
and system calls whole between task switches, so one handler, call or worker turn is one step; `int_pit` is split
where it may switch tasks, `wq_push` between its append and its wakeup, and a retransmission timeout between its pop,
its decision and its re-arming.

Premises of the laws over runs, each visible in an `Enabled`, `Allowed`, `Ready` or `Room` predicate or in a `requires`:

- fewer than 2^32 sequence numbers per socket, a tick below 2^32 - 1, and no timer with the sentinel's own deadline
  (`Kernels.SetTimerKeeps` shows that this is exactly what is needed);
- the idle task never sleeps, the worker sleeps only in its loop, and nothing else sleeps on the work queue;
- at most `MAX_TASK` tasks are started, and user calls that would panic are not made (`Tcp.PanicsExactly` says
  which those are);
- data on the segment that completes `SYN_RCVD` is in order.

Two laws about TCP need more, which `TcpNet.Proper` states: a FIN is taken only at `ack_num`, and no SYN is taken that an
earlier opening of the socket has taken. The code checks none of these three. For each there is a run that breaks the law
(`TcpFaults.HandshakeDataOutOfOrder`, `TcpFaults.FinOvertakes`, `TcpFaults.AcceptedTwice`, `TcpFaults.StaleSynForgets`) and
the exact condition (`TcpRuns.HandshakeDataIff`, `TcpRuns.FinIff`, `TcpRuns.TwiceIff` with `TcpRuns.FreshIff`).
Old segments do come back to a socket that is opened again: the port it draws repeats (`TcpFaults.PortRepeats`).

Where the code does less than it seems to promise, the model follows the code and states when the promise holds:

- `handle_ack` removes at most two entries per call, because `list_remove` clears the link its loop follows;
- `list_insert` behind the last node breaks the list, so a timer with the sentinel's own deadline would
  (`Lists.List.Insert`, `Timers.TimerList.SetTimer`);
- `mem_alloc` accepts sizes up to 1 MB although 48 bytes of the block hold its header (`Memory.FitsIff`);
- `FIN_WAIT_1` drops data, so closing while the peer's data is on the way loses it even on a perfect network
  (`TcpRuns.FinWait1Drops`, `TcpRuns.ClosesTooEarly`, `TcpFaults.CloseLosesData`);
- `CLOSING` does not call `handle_ack`, so the FIN of the side that closes second stays queued, with its three heap
  blocks, until an acknowledgement of a later opening covers it (`TcpSession.GoodbyeWorks`);
- a timer due at a multiple of ten fires a tick late when that tick switches to a task that slept or has never run
  (`KernelRuns.LateInRuns`);
- `tcp_socket_recv` drops what does not fit the caller's buffer (`TcpRuns.ReadIff`);
- a label whose length is 0, 192 or above 255 does not survive `set_qsection` and `parse_domain_name`, and the
  parser writes one byte more than the length it is given (`Dns.NameRoundTrip`, `Dns.ParseDomainName`);
- `generate_arpa_address` clears the byte after the one that should end the text (`Dns.GenerateArpaAddress`).

## Model

| member | source | states |
|---|---|---|
| `Lists.List.PopFront` | kernel/lib/list.c:16-26 | removes and returns the first node, cut off from the rest; null on an empty list; the fields and links represent the remaining sequence |
| `Lists.List.PushFront` | kernel/lib/list.c:28-41 | the represented sequence gets the node in front |
| `Lists.List.PushBack` | kernel/lib/list.c:43-56 | the represented sequence gets the node at the end |
| `Lists.List.Insert` | kernel/lib/list.c:58-70 | the chain from `head` is the spliced sequence; the structure is a valid list again if and only if the predecessor was not the last node, and otherwise represents no sequence at all |
| `Lists.List.Remove` | kernel/lib/list.c:72-93 | the successor of the given node is gone and its own link cleared; nothing happens without one |
| `Lists.List.Empty` | kernel/lib/list.c:12-14 | true exactly for the empty sequence |
| `Lists.ChainUnique` | kernel/lib/list.h:10-14 | the links determine the sequence |
| `Lists.ChainDistinct` | kernel/lib/list.h:10-14 | a null-terminated chain visits no node twice |
| `Memory.LayOut` | kernel/core/memory.c:33-56 | the table holds exactly the 1490 blocks, each with a fresh FREE header |
| `Memory.Table.constructor` | kernel/core/memory.c:33-56 | the allocator starts with every block free |
| `Memory.Table.MemAlloc` | kernel/core/memory.c:95-130 | takes the top of the stack, flips its flag, or panics, as `Memory.Alloc` says; the rest is unchanged |
| `Memory.Table.MemFree` | kernel/core/memory.c:69-93 | returns a used block to the stack, or panics, as `Memory.Free` says |
| `Memory.AllocKeeps` | kernel/core/memory.c:95-130 | an allocation keeps free and live blocks a partition of all blocks and returns the payload of a block that was free |
| `Memory.FreeKeeps` | kernel/core/memory.c:69-93 | so does a free |
| `Memory.Conservation` | kernel/core/memory.c:33-130 | free plus used blocks are always 1490 |
| `Memory.AllocIff` | kernel/core/memory.c:95-130 | an allocation succeeds if and only if it asks for at most 1 MB and fewer than 1490 blocks are live |
| `Memory.FreeIff` | kernel/core/memory.c:69-93 | a free succeeds if and only if it is given the payload address of a live block |
| `Memory.FreeUndoesAlloc` | kernel/core/memory.c:69-130 | freeing what was just allocated gives back the same allocator, the stack in the same order |
| `Memory.RunPanicsIff` | kernel/core/memory.c:69-130 | a run from `mem_init` or any later state panics if and only if it reaches an allocation of more than 1 MB or with 1490 blocks live, or a free of anything but a live block |
| `Memory.RunSafe` | kernel/core/memory.c:69-130 | over every run of allocations and frees: free entries are distinct blocks, counts add up, live allocations that fit overlap neither each other nor any header, and freeing a live block never panics |
| `Memory.FitsIff` | kernel/core/memory.c:48-99 | an accepted allocation avoids every header if and only if it leaves 48 bytes or lies in the last block |
| `Memory.CountNeverWraps` | kernel/lib/list.h:10-14 | a list with one live block per node stays below the wrap of its uint16 count |
| `Sched.ScheduleKeeps` | kernel/core/task.c:128-148 | restores the partition, leaves a WAITING task, changes nothing if it does not switch, and runs a LOW task only when no HIGH task is ready |
| `Sched.ScheduleSwitchesIff` | kernel/core/task.c:128-148 | switches if and only if a HIGH task is ready, or a LOW one is and the current task sleeps or is LOW; the front of that queue runs |
| `Sched.RoundRobin` | kernel/core/task.c:128-148 | while nobody sleeps or wakes, tick k runs the task k places behind, in either priority, and a full round gives back the same state |
| `Sched.StartAtBack` | kernel/core/task.c:63-96 | a started task is ready at its priority, behind all others there |
| `Sched.WakeInOrder` | kernel/core/task.c:98-110 | tasks that wake together queue up in the order of their ids |
| `Sched.WakeUpToEffect` | kernel/core/task.c:98-110 | a wakeup readies exactly the tasks asleep on its cause, and queues grow only at the back |
| `Sched.SleepSwitchesIff` | kernel/core/task.c:112-148 | a sleep switches away if and only if some task is ready |
| `Sched.StepKeeps` | kernel/core/task.c:63-148 | every call keeps each RUNNING non-current task in exactly one ready queue, once, at its own priority, and no other; a sleeping task is left WAITING |
| `Sched.RunKeeps` | kernel/core/task.c:46-148 | the same in every state of every run |
| `Sched.StaysAsleep` | kernel/core/task.c:98-148 | a sleeping task is not current again in any run without a wakeup of its cause |
| `Sched.FifoTurns` | kernel/core/task.c:98-148 | the next calls of `schedule` run the HIGH queue in order, whatever interleaves |
| `Sched.BoundedWait` | kernel/core/task.c:98-148 | position k runs at exactly call k + 1, and no task runs twice up to then |
| `Sched.QueueShort` | kernel/core/task.c:46-148 | a ready queue is never longer than the number of tasks, so its count does not wrap |
| `TaskTable.TaskCtl.constructor` | kernel/core/task.c:46-61 | one RUNNING HIGH task, current, and empty queues |
| `TaskTable.TaskCtl.Start` | kernel/core/task.c:63-96 | the new table is `Sched.Start` of the old |
| `TaskTable.TaskCtl.Wakeup` | kernel/core/task.c:98-110 | the loop over the table computes `Sched.Wakeup` and keeps the partition |
| `TaskTable.TaskCtl.Sleep` | kernel/core/task.c:112-120 | computes `Sched.Sleep`; with a ready idle task another task runs afterwards |
| `TaskTable.TaskCtl.Schedule` | kernel/core/task.c:128-148 | computes `Sched.Schedule`, in every state of the table |
| `Timers.InsertIs` | kernel/core/timer.c:31-46 | insertion is a splice at the one place that keeps order |
| `Timers.InsertOrdered` | kernel/core/timer.c:31-46 | insertion keeps deadlines sorted and equal deadlines in insertion order |
| `Timers.InsertGuarded` | kernel/core/timer.c:31-46 | insertion keeps the sentinel last and alone with its deadline |
| `Timers.DueIs` | kernel/core/timer.c:63-68 | a drain of a sorted list takes exactly the entries that are due |
| `Timers.DrainKeeps` | kernel/core/timer.c:63-68 | before its tick the sentinel is never taken |
| `Timers.TimerList.constructor` | kernel/core/timer.c:95-108 | the list holds the sentinel alone |
| `Timers.TimerList.Walk` | kernel/core/timer.c:38-44 | stops at the last entry that is not later |
| `Timers.TimerList.InsertNode` | kernel/core/timer.c:31-46 | the new contents are the insertion, and the list stays valid if and only if the deadline is not the sentinel's |
| `Timers.TimerList.SetTimer` | kernel/core/timer.c:21-51 | the same for the uint32 sum of tick and delay |
| `Kernels.DrainFires` | kernel/core/timer.c:63-68 | a drain fires exactly the due entries, in list order, and appends their work to the queue in that order |
| `Kernels.IntPitKeeps` | kernel/core/timer.c:54-71 | the timer interrupt keeps the invariant whichever task it resumes |
| `Kernels.SuspendKeeps` | kernel/core/timer.c:57-68 | a switch to a resumed, sleeping or fresh task makes no timer later than one tick |
| `Kernels.SetTimerKeeps` | kernel/core/workqueue.c:56-63 | a delayed push keeps the invariant if and only if its deadline is not the sentinel's |
| `Kernels.StepKeeps` | kernel/core/kernel.c:62-77 | every interrupt, call and worker turn keeps the invariant |
| `Kernels.RunKeeps` | kernel/core/kernel.c:62-77 | it holds in every state of every run |
| `Kernels.NoLostWakeup` | kernel/core/kernel.c:68-77 | in every run from boot a WAITING worker means an empty queue or a pusher that has yet to wake it; otherwise, with work queued, the worker is current or ready |
| `Kernels.TimersPunctual` | kernel/core/timer.c:21-71 | in every run from boot, for deadlines in the future or already reached: a timer whose goal (the deadline, or the tick after it was set) lies back has fired exactly once, every firing was punctual, and the list stays sorted, stable and guarded |
| `Kernels.SetInTime` | kernel/core/timer.c:54-71 | for a timer set before its deadline, punctual means at the deadline or, for multiples of ten, one tick later |
| `Kernels.StaysAsleep` | kernel/core/task.c:98-148 | in every run of the kernel a task asleep on c is not current until a step wakes c; pushes and firing timers wake the work queue |
| `Kernels.FifoTurns` | kernel/core/task.c:112-148 | in every run the next calls of `schedule`, by ticks, sleeps and the worker loop, run the waiting HIGH tasks in order |
| `Kernels.WorkerSoon` | kernel/core/kernel.c:68-77 | in every run from boot, with work queued and no pusher pending, the worker is current or waits at a position p and is run by call p + 1 of `schedule` |
| `KernelRuns.DrainsExactly` | kernel/core/timer.c:54-71 | after every tick and every call of `schedule` no due timer is left, or the list is untouched: the latter exactly if the step has switched to a task not itself suspended by a tick |
| `KernelRuns.LateIff` | kernel/core/timer.c:57-68 | a timer due at a tick is still in the list behind it if and only if the tick is a multiple of ten and switches to a task not suspended by a tick |
| `KernelRuns.ResumeIs` | kernel/core/timer.c:57-68 | in every run a task goes on inside `int_pit` if and only if it last lost the processor to a tick |
| `KernelRuns.LateInRuns` | kernel/core/timer.c:54-71 | so in every run a due timer waits for the next tick if and only if the tick switches to a task that has never run or last gave up the processor by sleeping |
| `KernelRuns.QueueStep` | kernel/core/workqueue.c:28-76 | a step appends exactly the works it pushes, and removes exactly the one it takes, from the front |
| `KernelRuns.TakenInOrder` | kernel/core/workqueue.c:28-76 | in every run from boot the works taken, followed by the queue, are all works pushed by handlers, tasks and timers, in order: each is executed once, and none is lost |
| `KernelRuns.FallsAsleep` | kernel/core/task.c:112-120 | a task that sleeps is asleep on its cause, and another runs |
| `KernelRuns.WorkerSleeps` | kernel/core/kernel.c:68-72 | the worker that finds the queue empty sleeps on it, and is ready at once only if the task resumed fires a timer |
| `KernelRuns.AsleepIff` | kernel/core/task.c:98-148 | a task asleep on c stays so if the step does not wake c, and is ready again if it does |
| `KernelRuns.SleepsUntilWoken` | kernel/core/task.c:98-148 | in every run from boot a task that sleeps on c is not current until a later step wakes c, and ready behind that step |
| `Machines.Machine.constructor` | kernel/core/kernel.c:42-62 | timer list, work queue and task table as `kstart` sets them up |
| `Machines.Machine.StartTasks` | kernel/core/kernel.c:63-64 | with user and idle task started, the heap is in the boot state of the runs |
| `Machines.Machine.Push` | kernel/core/workqueue.c:43-54 | appends the work and wakes the worker |
| `Machines.Machine.Fire` | kernel/core/timer.c:65-67 | one turn of the drain is `Kernels.Fire` |
| `Machines.Machine.Drain` | kernel/core/timer.c:63-68 | the loop computes `Kernels.Drain` |
| `Machines.Machine.TaskSwitch` | kernel/core/timer.c:57-61 | the switch leaves the old task suspended inside the interrupt, or changes nothing |
| `Machines.Machine.IntPit` | kernel/core/timer.c:54-71 | tick, switch and drain compute `Kernels.IntPit` |
| `Machines.Machine.SleepOn` | kernel/core/task.c:112-120 | computes `Kernels.SleepOn`, with the drain a resumed task may owe |
| `Machines.Machine.Turn` | kernel/core/kernel.c:68-77 | a turn of the worker loop sleeps on an empty queue, and otherwise takes the oldest work |
| `Machines.Machine.PushWithDelay` | kernel/core/workqueue.c:56-63 | computes the timer step of `Kernels`, for a deadline that wraps like uint32; the list stays valid if and only if that is not the sentinel's |
| `Machines.Machine.PushBegin` | kernel/core/workqueue.c:28-37 | the append of a push with interrupts on |
| `Machines.Machine.PushEnd` | kernel/core/workqueue.c:39-40 | its wakeup |
| `Tcp.OldestCovered` | kernel/net/tcp.c:427-443 | in an ordered queue an acknowledgement covers a prefix |
| `Tcp.AckRemovesTwo` | kernel/net/tcp.c:542-586 | one acknowledgement removes exactly the oldest min(2, k) of the k entries it covers |
| `Tcp.RepeatRemoves` | kernel/net/tcp.c:542-586 | n copies remove exactly the oldest min(2n, k), the rest stays in order |
| `Tcp.CeilRepeatsClear` | kernel/net/tcp.c:542-590 | ceil(k/2) copies remove exactly the covered entries, as section 3.10.7.4 of RFC 9293 asks |
| `Tcp.ThirdDuplicate` | kernel/net/tcp.c:592-612 | after n duplicates one more retransmits exactly what the timeout of that number would, from the third on, and nothing before |
| `Tcp.PanicsExactly` | kernel/net/tcp.c:181-475 | the states in which connect, listen, send and close panic, exactly |
| `Tcp.CloseEffect` | kernel/net/tcp.c:294-322 | closing in CLOSED or CLOSING changes and sends nothing; in ESTABLISHED it sends one FIN, which uses up a number |
| `Tcp.ConnectTimeoutEnds` | kernel/net/tcp.c:158-179 | behind the connect timer no socket is in SYN_SENT, and nothing else has changed |
| `Tcp.ResentAppend` | kernel/net/tcp.c:340-349 | a retransmission follows queue order, part by part |
| `Tcp.ResentIff` | kernel/net/tcp.c:340-349 | and sends exactly the segments of the entries that start at the number |
| `Tcp.Answered` | kernel/net/tcp.c:615-738 | a SYN, data or a FIN that counts is acknowledged at once with the number the socket then waits for; nothing else is, and all else that goes out repeats a queued segment of the acknowledged number |
| `Tcp.CallHolds` | kernel/net/tcp.c:427-449 | in calls of the user every segment with a SYN, a FIN or data is queued under its own number |
| `Tcp.AnswerHolds` | kernel/net/tcp.c:427-449 | and so is a SYN or FIN that answers one |
| `Tcp.MovesExactly` | kernel/net/tcp.c:615-738 | an arrival changes the state along six edges, each under its exact condition |
| `Tcp.NumbersUsed` | kernel/net/tcp.c:358-454 | a SYN, a byte and the FIN of close use up one number each, the FIN that answers a FIN none |
| `TcpSession.HandshakeWorks` | kernel/net/tcp.c:181-673 | SYN, SYN and ACK, ACK open a connection from any two numbers, with both ends agreed and nothing left queued |
| `TcpSession.WindowWorks` | kernel/net/tcp.c:358-714 | a window of any length that arrives is stored in order, acknowledged segment by segment, and leaves the sender's queue empty |
| `TcpSession.GoodbyeWorks` | kernel/net/tcp.c:294-738 | closing takes three segments and ends in CLOSED on both sides; the acknowledged FIN of the second side stays in its queue, since CLOSING does not call `handle_ack` |
| `TcpSession.SessionWorks` | kernel/net/tcp.c:181-738 | a whole session from two closed sockets: each receive list holds exactly what the other side sent |
| `TcpSockets.RemoveBehindHead` | kernel/net/tcp.c:558-573 | the scan removes the first covered entry behind the head, and only that one |
| `TcpSockets.RemoveAcked` | kernel/net/tcp.c:554-590 | scan and head check leave `Tcp.AckRemove` of the queue |
| `TcpSockets.CountDups` | kernel/net/tcp.c:592-612 | counts duplicates and retransmits the entries from their third on |
| `TcpSockets.AckQueue` | kernel/net/tcp.c:542-613 | the whole of `handle_ack` on the list |
| `TcpSockets.TcpSocket.constructor` | kernel/net/tcp.c:125-154 | a closed socket with empty lists |
| `TcpSockets.TcpSocket.Transmit` | kernel/net/tcp.c:358-454 | the segment carries the socket's numbers and is queued with its wait number |
| `TcpSockets.TcpSocket.HandleAck` | kernel/net/tcp.c:542-613 | computes `Tcp.HandleAck` and its retransmissions |
| `TcpSockets.TcpSocket.Connect` | kernel/net/tcp.c:181-219 | computes `Tcp.Connect`, panic included |
| `TcpSockets.TcpSocket.Listen` | kernel/net/tcp.c:245-268 | computes `Tcp.Listen`, panic included |
| `TcpSockets.TcpSocket.Send` | kernel/net/tcp.c:456-477 | computes `Tcp.Send`, panic included |
| `TcpSockets.TcpSocket.Close` | kernel/net/tcp.c:294-322 | computes `Tcp.Close`, panic included |
| `TcpSockets.TcpSocket.ConnectTimeout` | kernel/net/tcp.c:158-179 | only SYN_SENT falls back to CLOSED |
| `TcpSockets.TcpSocket.AckTimeout` | kernel/net/tcp.c:324-355 | retransmits every entry with the number, in order, and asks to be set again exactly if there was one |
| `TcpSockets.TcpSocket.ReceiveEstablished` | kernel/net/tcp.c:674-714 | computes `Tcp.Receive` in ESTABLISHED |
| `TcpSockets.TcpSocket.Receive` | kernel/net/tcp.c:615-738 | computes `Tcp.Receive` in every state |
| `TcpQueue.EnqueueOrdered` | kernel/net/tcp.c:427-443 | `tcp_send` puts the newest number at the end of an ordered queue |
| `TcpQueue.AckOrdered` | kernel/net/tcp.c:542-612 | `handle_ack` keeps the order, whatever number it is given |
| `TcpQueue.StepOrdered` | kernel/net/tcp.c:158-738 | every call, the connect timeout and the arrival of any segment from anyone keep the order |
| `TcpQueue.QueueAlwaysOrdered` | kernel/net/tcp.c:427-443 | in every state of every run of one socket, with any segments and any number of openings, the queue is ordered and no wait number is ahead of `seq_num` |
| `TcpQueue.AcksAlwaysClear` | kernel/net/tcp.c:542-590 | so in every such state every acknowledgement covers a prefix, removes its oldest min(2, k), and repeated ceil(k/2) times all k |
| `TcpHist.OverlapIff` | kernel/net/tcp.c:630-656 | two openings accept the same byte if and only if both accept something behind one and the same SYN |
| `TcpHist.NewMate` | kernel/net/tcp.c:706-726 | with FINs in order and SYNs fresh, an opening that ends was linked to one linked back to it, or to one that waits for ever |
| `TcpHist.AllAccepted` | kernel/net/tcp.c:630-709 | and a socket between openings has accepted everything of all earlier openings of its peer |
| `TcpNet.FinInOrder` | kernel/net/tcp.c:706-726 | a FIN at `ack_num` means that everything before it has been accepted, and may be acknowledged |
| `TcpNet.AckedKeeps` | kernel/net/tcp.c:542-590 | an acknowledgement drops only data the peer has accepted |
| `TcpNet.StepKeeps` | kernel/net/tcp.c:158-738 | every call, timeout and arrival at either endpoint keeps the laws of the pair, and every proper one the strict laws |
| `TcpRuns.RunKeeps` | kernel/net/tcp.c:158-738 | the laws of the pair hold in every state of every run |
| `TcpRuns.ProperKeeps` | kernel/net/tcp.c:158-738 | the strict laws hold in every state of every proper run |
| `TcpRuns.InOrderReceive` | kernel/net/tcp.c:358-714 | in every run, with any number of openings, what an opening has accepted is a prefix of what the peer was given to send in the opening whose SYN it took, and until it takes a FIN `ack_num` is peer ISN + 1 + accepted length |
| `TcpRuns.TwiceIff` | kernel/net/tcp.c:630-656 | in every run two openings accept the same byte if and only if they took the same SYN and both accepted something |
| `TcpRuns.FreshIff` | kernel/net/tcp.c:630-673 | taking a SYN keeps the openings of a socket apart if and only if no earlier opening has taken it |
| `TcpRuns.InOrderExactlyOnce` | kernel/net/tcp.c:358-726 | in every proper run no byte is accepted twice, `ack_num` is peer ISN + 1 + accepted length, plus 1 for a FIN taken, and whoever has taken a FIN has accepted everything sent before it |
| `TcpRuns.NothingForgotten` | kernel/net/tcp.c:427-726 | in every state of every proper run, through FINs and new openings, every data segment ever sent is still in the sender's queue or has been accepted |
| `TcpProgress.RunPlaced` | kernel/net/tcp.c:358-454 | in every run segments lie end to end, and what has been accepted ends where one does |
| `TcpProgress.CatchesUp` | kernel/net/tcp.c:674-714 | while bytes are outstanding, some sequence of segments already transmitted, delivered one by one, leaves the receiver with all of them |
| `TcpProgress.AlwaysCatchesUp` | kernel/net/tcp.c:358-714 | this holds in every state of every run, in both directions |
| `TcpProgress.Recovers` | kernel/net/tcp.c:324-714 | in every state of every proper run with bytes outstanding the sender is in a state in which the timeout for the receiver's `ack_num` sends the segment again, and its arrival is stored and acknowledged |
| `TcpProgress.AlwaysAnswered` | kernel/net/tcp.c:615-738 | in every run a SYN, data or a FIN that counts puts an acknowledgement on the network, of peer ISN + 1 + accepted length while the socket waits for more |
| `TcpProgress.CloseAfterFin` | kernel/net/tcp.c:294-322 | in every state of every run, once the peer's FIN has been taken and the socket not told to listen again, close is allowed, sends nothing and changes nothing |
| `TcpRuns.FinIff` | kernel/net/tcp.c:706-726 | a FIN of the peer is at `ack_num` if and only if it ends the opening one is linked to and everything sent in it has been accepted |
| `TcpRuns.CompleteIff` | kernel/net/tcp.c:706-726 | a step that takes a FIN leaves everything complete if and only if the linked opening has sent its FIN and all its bytes have been accepted |
| `TcpRuns.FinWait1Drops` | kernel/net/tcp.c:715-727 | data that reaches FIN_WAIT_1 is dropped, even in order, and not acknowledged |
| `TcpRuns.ClosesTooEarly` | kernel/net/tcp.c:294-304 | so a socket that closes while bytes of its peer are outstanding stays in FIN_WAIT_1 for the rest of every proper run and accepts nothing more |
| `TcpRuns.HandshakeDataIff` | kernel/net/tcp.c:641-663 | the SYN_RCVD branch gets numbers and data right if and only if the data, if any, starts at `ack_num` |
| `TcpRuns.ReadIff` | kernel/net/tcp.c:491-525 | a read loses no accepted byte if and only if its buffer is as long as the oldest record |
| `TcpRuns.ReadsInOrder` | kernel/net/tcp.c:491-525 | with such buffers each application reads, in every run, a prefix of what its openings accepted in turn |
| `TcpFaults.HandshakeDataOutOfOrder` | kernel/net/tcp.c:647-657 | a run after which the second byte is accepted as the first |
| `TcpFaults.FinOvertakes` | kernel/net/tcp.c:706-726 | a run in which a FIN overtakes its data, which ends up accepted by nobody and kept nowhere |
| `TcpFaults.AcceptedTwice` | kernel/net/tcp.c:630-656 | a run, all FINs in order, in which a socket opened again takes the old SYN and accepts the old byte a second time |
| `TcpFaults.StaleSynForgets` | kernel/net/tcp.c:664-673 | a run, all FINs in order, in which a reused SYN makes an endpoint drop data nobody has accepted |
| `TcpFaults.PortRepeats` | kernel/net/tcp.c:184-184 | the port drawn by a connect repeats after 10000 ticks, so segments of an earlier opening reach the socket |
| `TcpFaults.CloseLosesData` | kernel/net/tcp.c:715-727 | a run in which every segment is delivered once and in order, and data on the way to a closing socket is lost, both ends being CLOSED |
| `TcpTx.AckConserves` | kernel/net/tcp.c:561-586 | `handle_ack` frees exactly the blocks of the entries it removes |
| `TcpTx.StepExact` | kernel/net/tcp.c:324-454 | every step keeps each allocated block owned exactly once, and frees only allocated blocks, once |
| `TcpTx.BlocksConserved` | kernel/net/tcp.c:158-586 | in every run the blocks held are 3 per queued entry, 3 per timeout in the timer list and 2 per timeout in the work queue, plus those of the timeout being executed |
| `TcpTx.JobArmed` | kernel/net/tcp.c:341-354 | a timeout is given up only when its socket is closed or no entry with its number is left |
| `TcpTx.StepKeeps` | kernel/net/tcp.c:158-738 | every step keeps blocks and timeouts in order |
| `TcpTx.AlwaysArmed` | kernel/net/tcp.c:324-449 | in every run each entry queued since its socket last left CLOSED has its timeout in the timer list, in the work queue or executing |
| `TcpTx.SetAgainIff` | kernel/net/tcp.c:324-355 | the worker sets a timeout again if and only if its socket is not closed and an entry of its number is queued |
| `TcpTx.AlwaysTimed` | kernel/net/tcp.c:158-203 | in every run a socket in SYN_SENT has its connect timeout pending, and is not in SYN_SENT when the worker has dealt with it |
| `TcpTx.ExecutedInOrder` | kernel/core/workqueue.c:43-76 | in every run the worker executes the timeouts once each, in the order in which they expire |
| `NetUtil.Reverse32Loads` | kernel/net/netutil.c:18-38 | after a load the swap gives the network-order value |
| `NetUtil.Reverse32Involution` | kernel/net/netutil.c:18-38 | the same swap converts both ways |
| `NetUtil.Reverse16Involution` | kernel/net/netutil.c:3-16 | likewise for 16 bits |
| `NetUtil.AddFold` | kernel/net/netutil.c:46-49 | one fold per addition keeps the sum a 16-bit one's complement value |
| `NetUtil.Checksum` | kernel/net/netutil.c:40-60 | the loop computes the complement of the word sum modulo 65535, for even and odd lengths |
| `NetUtil.FilledChecksToZero` | kernel/net/tcp.c:417-421 | a zeroed aligned field filled with the checksum makes the recomputed checksum 0 |
| `NetUtil.OnlyTheChecksum` | kernel/net/tcp.c:417-421 | any stored value that does so is the checksum modulo 65535 |
| `NetUtil.ByteOrderFree` | kernel/net/netutil.c:40-60 | computing on little-endian words gives the byte swap of computing in network order |
| `Numbers.PrintNum` | kernel/lib/print.c:151-182 | both loops produce the decimal form within their buffers |
| `Numbers.Stoi` | kernel/user/user_app.c:47-61 | the value modulo 2^32 of a digit string, 0 for any other string |
| `Numbers.StoiInvertsPrintnum` | kernel/user/user_app.c:47-61 | `stoi` inverts `printnum` on every uint32 |
| `Numbers.PrintnumInvertsStoi` | kernel/lib/print.c:151-182 | and is inverted by it on numerals without leading zeros |
| `Numbers.ParsedOther` | kernel/user/user_app.c:47-61 | a string with any byte outside '0' to '9' is 0 |
| `Labels.JoinBlocks` | kernel/user/dns.c:16-28 | the loops split every text into blocks that join to it again |
| `Labels.BlocksJoin` | kernel/user/dns.c:16-28 | and find again any blocks they could have cut |
| `Addresses.ParseIpaddr` | kernel/user/user_app.c:63-96 | four blocks shifted together in uint32, 0 for any other number of blocks |
| `Addresses.ParseInvertsDotted` | kernel/user/user_app.c:63-96 | gives back every address from its dotted form |
| `Addresses.AddressIs` | kernel/user/user_app.c:63-96 | any text: 0 unless it is cut into four blocks, else their value modulo 2^32 |
| `Addresses.NamesAreNone` | kernel/user/user_app.c:63-96 | a name with a byte that is no digit in every label is 0, so that the commands ask the name server |
| `Addresses.ThreeDots` | kernel/user/user_app.c:63-96 | a text without a leading dot or two dots together is 0 unless it has exactly three dots |
| `Dns.WriteName` | kernel/user/dns.c:15-35 | the loop writes length byte and label for every block and nothing else |
| `Dns.SetQsection` | kernel/user/dns.c:10-47 | the question section of exactly strlen + 6 bytes, the rest of the buffer untouched |
| `Dns.QuestionLength` | kernel/user/dns.c:10-47 | strlen + 6 for every name |
| `Dns.TypeAndClass` | kernel/user/dns.c:38-44 | a receiver that loads the last two words and applies `ntoh16` reads back the type and the class |
| `Dns.ParseDomainName` | kernel/user/dns.c:49-72 | succeeds exactly when the parse does, with its text in the buffer and nothing behind it touched |
| `Dns.ParseWire` | kernel/user/dns.c:49-72 | encoded labels come back if and only if every length is readable as such and the room suffices |
| `Dns.NameRoundTrip` | kernel/user/dns.c:10-72 | a question section parses to its name and a dot if and only if every block has 1 to 255 bytes, not 192, and there is room for strlen bytes |
| `Dns.Rfc1035RoundTrip` | kernel/user/dns.c:10-72 | so does every name of dot-free labels of 1 to 63 bytes |
| `Dns.SetNum` | kernel/user/dns.c:169-191 | writes the decimal form of a byte |
| `Dns.GenerateArpaAddress` | kernel/user/dns.c:193-224 | writes the reverse-lookup name, leaves the byte behind it alone and clears the next |
| `Dns.ArpaRoundTrip` | kernel/user/dns.c:193-224 | the name has the labels meant, the first four read as `reverse32` of the address, and it survives question and parser |

## Left out

- Boot code, descriptor tables, interrupt controller and timer hardware, and the register save in `task_switch`: a switch is an atomic change of the current task.
- The network card, ARP, Ethernet, IP, ICMP, UDP and raw sockets: `ip_tx` puts a segment on the network, an arrival delivers one.
- Screen, keyboard, log, system call dispatch, user commands and the DNS query and answer around the name codec.
- `kernel/core/lock.c` and `kernel/lib/dns.c`, which the build does not use.
- Ports, addresses, window, urgent pointer and the MSS option of TCP: a segment has its numbers, flags and payload; matching segments to sockets is not modelled.
- The receive path never frees received packets or read records, so block conservation covers the transmit path.
- Receive lists, ready lists and the work queue are sequences in the heap classes; the timer list and the retransmission queue are linked lists, and `Lists` shows that such a list behaves as a sequence.
- The sequence number carried by a timeout and a socket's number of openings are model data; in `TcpTx` blocks are chosen by the step, subject to the allocator's law that they are not in use.
- `mem_free` of an address that is not 48 bytes behind a block start reads a word that is not a header; the model treats that word as different from the USED flag.
- Parsing and splitting read their input as sequences; running past the end of a message is a separate outcome of `Dns.Parse` that callers must exclude.
