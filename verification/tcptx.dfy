/** The transmit path of kernel/net/tcp.c on one machine: all sockets, the timers and the work queue that carry its
    timeouts, the worker while it executes one, and the heap blocks all of these hold. */
module TcpTx {
  import opened Words
  import opened Tcp

  datatype Job = AckJob(sock: nat, seqNum: nat) | ConnectJob(sock: nat)

  /** A timeout in the timer list: argument, work task and timer entry are heap blocks. */
  datatype Timer = Timer(job: Job, args: nat, task: nat, entry: nat)

  /** A timeout in the work queue: argument and work task. */
  datatype Work = Work(job: Job, args: nat, task: nat)

  /** The worker is idle, has popped a timeout, has found what it retransmits, or has only to free its work task. */
  datatype Exec = Idle | Popped(w: Work) | Found(w: Work) | Over(task: nat)

  /** `eras` counts how often each socket has left CLOSED; `held` are the blocks allocated and not yet freed. */
  datatype Machine = Machine(socks: seq<Socket>, eras: seq<nat>, timers: seq<Timer>, wq: seq<Work>, exec: Exec,
                             held: set<nat>)

  datatype Step =
    | Connecting(i: nat, m: TxMem, t: Timer, c: Timer)
    | Listening(i: nat)
    | Sending(i: nat, data: seq<Byte>, m: TxMem, t: Timer)
    | Closing(i: nat, m: TxMem, t: Timer)
    | Arrival(i: nat, g: Segment, m: TxMem, t: Timer) // tcp_rx, as one turn of the worker
    | Expiry(k: nat)                                  // the timer interrupt queues the work
    | Pop | Decide | Finish(task: nat, entry: nat)    // the worker executes a timeout, with interrupts on

  // ----- blocks -----

  function Is(x: nat, b: nat): nat { if x == b then 1 else 0 }

  /** How often a queue, a timer list, a work queue, the worker and all sockets own block b. */
  function TxN(e: TxEntry, b: nat): nat { Is(e.mem.pkt, b) + Is(e.mem.buf, b) + Is(e.mem.rec, b) }
  function TimerN(t: Timer, b: nat): nat { Is(t.args, b) + Is(t.task, b) + Is(t.entry, b) }
  function WorkN(w: Work, b: nat): nat { Is(w.args, b) + Is(w.task, b) }

  function TxsN(tx: seq<TxEntry>, b: nat): nat {
    if tx == [] then 0 else TxN(tx[0], b) + TxsN(tx[1..], b)
  }

  function TimersN(ts: seq<Timer>, b: nat): nat {
    if ts == [] then 0 else TimerN(ts[0], b) + TimersN(ts[1..], b)
  }

  function WorksN(ws: seq<Work>, b: nat): nat {
    if ws == [] then 0 else WorkN(ws[0], b) + WorksN(ws[1..], b)
  }

  function SocksN(ss: seq<Socket>, b: nat): nat {
    if ss == [] then 0 else TxsN(ss[0].tx, b) + SocksN(ss[1..], b)
  }

  function ExecN(x: Exec, b: nat): nat {
    match x
    case Idle => 0
    case Popped(w) => WorkN(w, b)
    case Found(w) => WorkN(w, b)
    case Over(t) => Is(t, b)
  }

  function Owns(m: Machine, b: nat): nat {
    SocksN(m.socks, b) + TimersN(m.timers, b) + WorksN(m.wq, b) + ExecN(m.exec, b)
  }

  /** The blocks allocated and not freed are owned exactly once, and nothing else is owned. */
  ghost predicate Exact(m: Machine) {
    forall b: nat :: Owns(m, b) == if b in m.held then 1 else 0
  }

  // ----- steps -----

  /** The segment makes tcp_recv_pkt queue a tx entry. */
  predicate Queues(s: Socket, g: Segment) {
    || (s.state == LISTEN && g.syn)
    || (s.state == ESTABLISHED && !(g.data != [] && s.ackNum != g.seqNum) && g.fin && g.ack)
  }

  /** The segment reaches handle_ack. */
  predicate Acks(s: Socket, g: Segment) {
    match s.state
    case SYN_RCVD => g.ack
    case SYN_SENT => g.syn && g.ack
    case ESTABLISHED => g.ack && !(g.data != [] && s.ackNum != g.seqNum)
    case FIN_WAIT_1 => g.ack
    case _ => false
  }

  /** The entries handle_ack frees: at most one behind the head, then the head. */
  function AckFreed(tx: seq<TxEntry>, ack: nat): seq<TxEntry> {
    if tx == [] then []
    else
      var i := FirstCovered(tx, 1, ack);
      (if i < |tx| then [tx[i]] else []) + (if tx[0].waitAck <= ack then [tx[0]] else [])
  }

  function TxMemN(x: TxMem, b: nat): nat { Is(x.pkt, b) + Is(x.buf, b) + Is(x.rec, b) }

  /** How often the calls of mem_alloc in a step return block b. */
  function AllocN(m: Machine, st: Step, b: nat): nat {
    match st
    case Connecting(i, x, t, c) => TxMemN(x, b) + TimerN(t, b) + TimerN(c, b)
    case Sending(i, d, x, t) => TxMemN(x, b) + TimerN(t, b)
    case Closing(i, x, t) =>
      if i < |m.socks| && m.socks[i].state == ESTABLISHED then TxMemN(x, b) + TimerN(t, b) else 0
    case Arrival(i, g, x, t) => if i < |m.socks| && Queues(m.socks[i], g) then TxMemN(x, b) + TimerN(t, b) else 0
    case Finish(task, entry) => if m.exec.Found? then Is(task, b) + Is(entry, b) else 0
    case _ => 0
  }

  function Chosen(st: Step): set<nat> {
    match st
    case Connecting(i, x, t, c) => {x.pkt, x.buf, x.rec, t.args, t.task, t.entry, c.args, c.task, c.entry}
    case Sending(i, d, x, t) => {x.pkt, x.buf, x.rec, t.args, t.task, t.entry}
    case Closing(i, x, t) => {x.pkt, x.buf, x.rec, t.args, t.task, t.entry}
    case Arrival(i, g, x, t) => {x.pkt, x.buf, x.rec, t.args, t.task, t.entry}
    case Finish(task, entry) => {task, entry}
    case _ => {}
  }

  /** The allocator hands out blocks that are not in use, each once. */
  ghost predicate Fresh(m: Machine, st: Step) {
    forall b: nat :: AllocN(m, st, b) <= if b in m.held then 0 else 1
  }

  /** The worker's timeout still has something to do. */
  predicate StillQueued(m: Machine, j: Job) {
    && j.AckJob? && j.sock < |m.socks| && m.socks[j.sock].state != CLOSED
    && exists e :: e in m.socks[j.sock].tx && e.sendSeq == j.seqNum
  }

  /** How often the calls of mem_free in a step are given block b. */
  function FreeN(m: Machine, st: Step, b: nat): nat {
    match st
    case Arrival(i, g, x, t) =>
      if i < |m.socks| && Acks(m.socks[i], g) then TxsN(AckFreed(m.socks[i].tx, g.ackNum), b) else 0
    case Expiry(k) => if k < |m.timers| then Is(m.timers[k].entry, b) else 0
    case Decide => if m.exec.Popped? && !StillQueued(m, m.exec.w.job) then Is(m.exec.w.args, b) else 0
    case Finish(task, entry) => (match m.exec case Found(w) => Is(w.task, b) case Over(t) => Is(t, b) case _ => 0)
    case _ => 0
  }

  /** The guard of each step; the sequence number a timeout carries is that of the entry it is for. */
  predicate Ready(m: Machine, st: Step)
    requires |m.eras| == |m.socks|
  {
    match st
    case Connecting(i, x, t, c) =>
      i < |m.socks| && m.socks[i].state == CLOSED && x.era == m.eras[i] + 1
      && t.job == AckJob(i, m.socks[i].seqNum) && c.job == ConnectJob(i)
    case Listening(i) => i < |m.socks| && m.socks[i].state == CLOSED
    case Sending(i, d, x, t) =>
      i < |m.socks| && m.socks[i].state == ESTABLISHED && x.era == m.eras[i] && t.job == AckJob(i, m.socks[i].seqNum)
    case Closing(i, x, t) =>
      i < |m.socks| && Close(m.socks[i], x).Done? && x.era == m.eras[i] && t.job == AckJob(i, m.socks[i].seqNum)
    case Arrival(i, g, x, t) =>
      i < |m.socks| && m.exec == Idle && x.era == m.eras[i] && t.job == AckJob(i, m.socks[i].seqNum)
    case Expiry(k) => k < |m.timers|
    case Pop => m.exec == Idle && m.wq != []
    case Decide => m.exec.Popped?
    case Finish(task, entry) => m.exec.Found? || m.exec.Over?
  }

  ghost predicate Enabled(m: Machine, st: Step)
    requires |m.eras| == |m.socks|
  {
    Ready(m, st) && Fresh(m, st)
  }

  /** The new sockets, timers, work and worker state. */
  function Moved(m: Machine, st: Step): Machine
    requires |m.eras| == |m.socks| && Ready(m, st)
  {
    match st
    case Connecting(i, x, t, c) =>
      m.(socks := m.socks[i := Connect(m.socks[i], x).sock], eras := m.eras[i := m.eras[i] + 1],
         timers := m.timers + [t, c])
    case Listening(i) =>
      m.(socks := m.socks[i := Listen(m.socks[i]).sock], eras := m.eras[i := m.eras[i] + 1])
    case Sending(i, d, x, t) => m.(socks := m.socks[i := Send(m.socks[i], d, x).sock], timers := m.timers + [t])
    case Closing(i, x, t) =>
      m.(socks := m.socks[i := Close(m.socks[i], x).sock],
         timers := m.timers + if m.socks[i].state == ESTABLISHED then [t] else [])
    case Arrival(i, g, x, t) =>
      m.(socks := m.socks[i := Receive(m.socks[i], g, x).sock],
         timers := m.timers + if Queues(m.socks[i], g) then [t] else [])
    case Expiry(k) =>
      var t := m.timers[k];
      m.(timers := m.timers[..k] + m.timers[k + 1..], wq := m.wq + [Work(t.job, t.args, t.task)])
    case Pop => m.(wq := m.wq[1..], exec := Popped(m.wq[0]))
    case Decide =>
      var w := m.exec.w;
      if w.job.ConnectJob? && w.job.sock < |m.socks| then
        m.(socks := m.socks[w.job.sock := ConnectTimeout(m.socks[w.job.sock])], exec := Over(w.task))
      else m.(exec := if StillQueued(m, w.job) then Found(w) else Over(w.task))
    case Finish(task, entry) =>
      if m.exec.Found? then
        m.(timers := m.timers + [Timer(m.exec.w.job, m.exec.w.args, task, entry)], exec := Idle)
      else m.(exec := Idle)
  }

  function Next(m: Machine, st: Step): Machine
    requires |m.eras| == |m.socks| && Ready(m, st)
  {
    Moved(m, st).(held := set b | b in m.held + Chosen(st)
                                  && (b in m.held || AllocN(m, st, b) > 0) && FreeN(m, st, b) == 0)
  }

  // ----- conservation -----

  lemma {:induction false} TxsAppend(x: seq<TxEntry>, y: seq<TxEntry>, b: nat)
    ensures TxsN(x + y, b) == TxsN(x, b) + TxsN(y, b)
  {
    if x == [] {
      assert x + y == y;
    } else {
      TxsAppend(x[1..], y, b);
      assert (x + y)[1..] == x[1..] + y;
    }
  }

  lemma {:induction false} TimersAppend(x: seq<Timer>, y: seq<Timer>, b: nat)
    ensures TimersN(x + y, b) == TimersN(x, b) + TimersN(y, b)
  {
    if x == [] {
      assert x + y == y;
    } else {
      TimersAppend(x[1..], y, b);
      assert (x + y)[1..] == x[1..] + y;
    }
  }

  lemma {:induction false} WorksAppend(x: seq<Work>, w: Work, b: nat)
    ensures WorksN(x + [w], b) == WorksN(x, b) + WorkN(w, b)
  {
    if x != [] {
      WorksAppend(x[1..], w, b);
      assert (x + [w])[1..] == x[1..] + [w];
    }
  }

  lemma {:induction false} SocksUpdate(ss: seq<Socket>, i: nat, s: Socket, b: nat)
    requires i < |ss|
    ensures SocksN(ss[i := s], b) == SocksN(ss, b) - TxsN(ss[i].tx, b) + TxsN(s.tx, b)
  {
    if i == 0 {
      assert ss[0 := s][1..] == ss[1..];
    } else {
      SocksUpdate(ss[1..], i - 1, s, b);
      assert ss[i := s][1..] == ss[1..][i - 1 := s];
    }
  }

  lemma TxsCut(tx: seq<TxEntry>, k: nat, b: nat)
    requires k < |tx|
    ensures TxsN(tx[..k] + tx[k + 1..], b) + TxN(tx[k], b) == TxsN(tx, b)
  {
    TxsAppend(tx[..k], tx[k + 1..], b);
    TxsAppend(tx[..k], tx[k..], b);
    assert tx == tx[..k] + tx[k..] && tx[k..][1..] == tx[k + 1..];
  }

  lemma TimersCut(ts: seq<Timer>, k: nat, b: nat)
    requires k < |ts|
    ensures TimersN(ts[..k] + ts[k + 1..], b) + TimerN(ts[k], b) == TimersN(ts, b)
  {
    TimersAppend(ts[..k], ts[k + 1..], b);
    TimersAppend(ts[..k], ts[k..], b);
    assert ts == ts[..k] + ts[k..] && ts[k..][1..] == ts[k + 1..];
  }

  /** What handle_ack removes from the queue is exactly what it frees. */
  lemma AckConserves(tx: seq<TxEntry>, ack: nat, b: nat)
    ensures TxsN(AckTx(tx, ack), b) + TxsN(AckFreed(tx, ack), b) == TxsN(tx, b)
  {
    if |AckRemove(tx, ack)| == |tx| {
      DupsConserve(tx, ack, b);
      assert AckFreed(tx, ack) == [];
    } else {
      var i := FirstCovered(tx, 1, ack);
      var rest := if i < |tx| then tx[..i] + tx[i + 1..] else tx;
      if i < |tx| { TxsCut(tx, i, b); }
      assert rest[0] == tx[0];
      TxsAppend(if i < |tx| then [tx[i]] else [], if tx[0].waitAck <= ack then [tx[0]] else [], b);
    }
  }

  lemma {:induction false} DupsConserve(tx: seq<TxEntry>, ack: nat, b: nat)
    ensures TxsN(CountDups(tx, ack), b) == TxsN(tx, b)
  {
    if tx != [] {
      DupsConserve(tx[1..], ack, b);
      assert CountDups(tx, ack)[1..] == CountDups(tx[1..], ack);
    }
  }

  /** The queue a segment arrival leaves: acknowledged entries gone, and at most one new entry at the end. */
  function Kept(s: Socket, g: Segment): seq<TxEntry> {
    if Acks(s, g) then AckTx(s.tx, g.ackNum) else s.tx
  }

  predicate Extends(tx: seq<TxEntry>, r: seq<TxEntry>, seqNum: nat, m: TxMem) {
    |r| == |tx| + 1 && r[..|tx|] == tx && r[|tx|].mem == m && r[|tx|].sendSeq == seqNum
  }

  lemma ReceiveTx(s: Socket, g: Segment, m: TxMem)
    ensures var r := Receive(s, g, m).sock;
      && (Queues(s, g) ==> Extends(Kept(s, g), r.tx, s.seqNum, m))
      && (!Queues(s, g) ==> r.tx == Kept(s, g))
  {
  }

  lemma ExtendConserves(tx: seq<TxEntry>, r: seq<TxEntry>, seqNum: nat, m: TxMem, b: nat)
    requires Extends(tx, r, seqNum, m)
    ensures TxsN(r, b) == TxsN(tx, b) + TxMemN(m, b)
  {
    assert r == tx + [r[|tx|]];
    TxsAppend(tx, [r[|tx|]], b);
  }

  /** A call that queues one entry and sets timers. */
  lemma QueuedConserves(m: Machine, m': Machine, i: nat, x: TxMem, ts: seq<Timer>, b: nat)
    requires i < |m.socks| == |m'.socks| && m'.socks == m.socks[i := m'.socks[i]] && m'.timers == m.timers + ts
    requires m'.wq == m.wq && m'.exec == m.exec
    requires Extends(m.socks[i].tx, m'.socks[i].tx, m.socks[i].seqNum, x)
    ensures Owns(m', b) == Owns(m, b) + TxMemN(x, b) + TimersN(ts, b)
  {
    SocksUpdate(m.socks, i, m'.socks[i], b);
    ExtendConserves(m.socks[i].tx, m'.socks[i].tx, m.socks[i].seqNum, x, b);
    TimersAppend(m.timers, ts, b);
  }

  lemma FewTimers(t: Timer, c: Timer, b: nat)
    ensures TimersN([t], b) == TimerN(t, b) && TimersN([t, c], b) == TimerN(t, b) + TimerN(c, b)
  {
    assert [t][1..] == [] && [t, c][1..] == [c] && [c][1..] == [];
  }

  /** Calls from the user. */
  lemma CallConserves(m: Machine, st: Step, b: nat)
    requires |m.eras| == |m.socks| && Ready(m, st) && (st.Connecting? || st.Listening? || st.Sending? || st.Closing?)
    ensures Owns(Moved(m, st), b) == Owns(m, b) + AllocN(m, st, b)
  {
    var m' := Moved(m, st);
    match st
    case Connecting(i, x, t, c) =>
      FewTimers(t, c, b);
      QueuedConserves(m, m', i, x, [t, c], b);
    case Listening(i) => SocksUpdate(m.socks, i, m'.socks[i], b);
    case Sending(i, d, x, t) =>
      FewTimers(t, t, b);
      QueuedConserves(m, m', i, x, [t], b);
    case Closing(i, x, t) =>
      if m.socks[i].state == ESTABLISHED {
        FewTimers(t, t, b);
        QueuedConserves(m, m', i, x, [t], b);
      } else {
        SocksUpdate(m.socks, i, m'.socks[i], b);
        assert m.timers + [] == m.timers;
      }
  }

  /** Every step moves blocks between owner and allocator without loss: what is owned afterwards plus what was freed
      is what was owned before plus what was allocated, block by block. */
  lemma MovedConserves(m: Machine, st: Step, b: nat)
    requires |m.eras| == |m.socks| && Ready(m, st)
    ensures Owns(Moved(m, st), b) + FreeN(m, st, b) == Owns(m, b) + AllocN(m, st, b)
    ensures FreeN(m, st, b) <= Owns(m, b)
  {
    match st
    case Arrival(i, g, x, t) => ArrivalConserves(m, i, g, x, t, b);
    case Expiry(k) =>
      var t := m.timers[k];
      TimersCut(m.timers, k, b);
      WorksAppend(m.wq, Work(t.job, t.args, t.task), b);
    case Pop =>
    case Decide =>
      var j := m.exec.w.job;
      if j.ConnectJob? && j.sock < |m.socks| {
        SocksUpdate(m.socks, j.sock, ConnectTimeout(m.socks[j.sock]), b);
      }
    case Finish(task, entry) =>
      if m.exec.Found? { TimersAppend(m.timers, [Timer(m.exec.w.job, m.exec.w.args, task, entry)], b); }
    case _ => CallConserves(m, st, b);
  }

  lemma ArrivalConserves(m: Machine, i: nat, g: Segment, x: TxMem, t: Timer, b: nat)
    requires |m.eras| == |m.socks| && Ready(m, Arrival(i, g, x, t))
    ensures var st := Arrival(i, g, x, t);
      && Owns(Moved(m, st), b) + FreeN(m, st, b) == Owns(m, b) + AllocN(m, st, b)
      && FreeN(m, st, b) <= Owns(m, b)
  {
    var s, s' := m.socks[i], Receive(m.socks[i], g, x).sock;
    ReceiveTx(s, g, x);
    AckConserves(s.tx, g.ackNum, b);
    SocksUpdate(m.socks, i, s', b);
    SocksUpdate(m.socks, i, s.(tx := []), b);
    if Queues(s, g) {
      ExtendConserves(Kept(s, g), s'.tx, s.seqNum, x, b);
      TimersAppend(m.timers, [t], b);
    } else {
      assert m.timers + [] == m.timers;
    }
  }

  /** Conservation, and safe frees: every block handed to mem_free was allocated, and once only. */
  lemma StepExact(m: Machine, st: Step)
    requires |m.eras| == |m.socks| && Exact(m) && Enabled(m, st)
    ensures Exact(Next(m, st))
    ensures forall b: nat :: FreeN(m, st, b) <= if b in m.held then 1 else 0
  {
    var m' := Next(m, st);
    forall b: nat
      ensures Owns(m', b) == if b in m'.held then 1 else 0
      ensures FreeN(m, st, b) <= if b in m.held then 1 else 0
    {
      MovedConserves(m, st, b);
      ChosenAll(m, st, b);
      assert Owns(m', b) == Owns(Moved(m, st), b);
    }
  }

  lemma ChosenAll(m: Machine, st: Step, b: nat)
    ensures AllocN(m, st, b) > 0 ==> b in Chosen(st)
  {
  }

  // ----- the number of blocks -----

  function TxSeq(tx: seq<TxEntry>): (r: seq<nat>)
    ensures |r| == 3 * |tx|
  {
    if tx == [] then [] else [tx[0].mem.pkt, tx[0].mem.buf, tx[0].mem.rec] + TxSeq(tx[1..])
  }

  function Entries(ss: seq<Socket>): nat {
    if ss == [] then 0 else |ss[0].tx| + Entries(ss[1..])
  }

  function SockSeq(ss: seq<Socket>): (r: seq<nat>)
    ensures |r| == 3 * Entries(ss)
  {
    if ss == [] then [] else TxSeq(ss[0].tx) + SockSeq(ss[1..])
  }

  function TimerSeq(ts: seq<Timer>): (r: seq<nat>)
    ensures |r| == 3 * |ts|
  {
    if ts == [] then [] else [ts[0].args, ts[0].task, ts[0].entry] + TimerSeq(ts[1..])
  }

  function WorkSeq(ws: seq<Work>): (r: seq<nat>)
    ensures |r| == 2 * |ws|
  {
    if ws == [] then [] else [ws[0].args, ws[0].task] + WorkSeq(ws[1..])
  }

  function ExecSeq(x: Exec): seq<nat> {
    match x
    case Idle => []
    case Popped(w) => [w.args, w.task]
    case Found(w) => [w.args, w.task]
    case Over(t) => [t]
  }

  lemma {:induction false} TxSeqN(tx: seq<TxEntry>, b: nat)
    ensures multiset(TxSeq(tx))[b] == TxsN(tx, b)
  {
    if tx != [] { TxSeqN(tx[1..], b); }
  }

  lemma {:induction false} SockSeqN(ss: seq<Socket>, b: nat)
    ensures multiset(SockSeq(ss))[b] == SocksN(ss, b)
  {
    if ss != [] {
      TxSeqN(ss[0].tx, b);
      SockSeqN(ss[1..], b);
    }
  }

  lemma {:induction false} TimerSeqN(ts: seq<Timer>, b: nat)
    ensures multiset(TimerSeq(ts))[b] == TimersN(ts, b)
  {
    if ts != [] { TimerSeqN(ts[1..], b); }
  }

  lemma {:induction false} WorkSeqN(ws: seq<Work>, b: nat)
    ensures multiset(WorkSeq(ws))[b] == WorksN(ws, b)
  {
    if ws != [] { WorkSeqN(ws[1..], b); }
  }

  function AllSeq(m: Machine): (r: seq<nat>)
    ensures |r| == 3 * Entries(m.socks) + 3 * |m.timers| + 2 * |m.wq| + |ExecSeq(m.exec)|
  {
    (SockSeq(m.socks) + TimerSeq(m.timers)) + (WorkSeq(m.wq) + ExecSeq(m.exec))
  }

  lemma AllSeqN(m: Machine, b: nat)
    ensures multiset(AllSeq(m))[b] == Owns(m, b)
  {
    SockSeqN(m.socks, b);
    TimerSeqN(m.timers, b);
    WorkSeqN(m.wq, b);
    ExecSeqN(m.exec, b);
    CountParts(SockSeq(m.socks), TimerSeq(m.timers), WorkSeq(m.wq), ExecSeq(m.exec), b);
  }

  lemma ExecSeqN(x: Exec, b: nat)
    ensures multiset(ExecSeq(x))[b] == ExecN(x, b)
  {
  }

  lemma CountParts(p: seq<nat>, q: seq<nat>, r: seq<nat>, s: seq<nat>, b: nat)
    ensures multiset((p + q) + (r + s))[b] == multiset(p)[b] + multiset(q)[b] + multiset(r)[b] + multiset(s)[b]
  {
  }

  /** Between steps the transmit path holds exactly 3 blocks per queued entry, 3 per timeout in the timer list and 2
      per timeout in the work queue, and while a timeout executes those of that timeout. */
  lemma BlockCount(m: Machine)
    requires Exact(m)
    ensures |m.held| == 3 * Entries(m.socks) + 3 * |m.timers| + 2 * |m.wq| + |ExecSeq(m.exec)|
  {
    var all: multiset<nat>, held: multiset<nat> := multiset(AllSeq(m)), multiset(m.held);
    forall b: nat ensures all[b] == held[b] { AllSeqN(m, b); }
    assert all == held;
    assert |all| == |held|;
  }

  // ----- every queued segment stays armed -----

  /** The timeouts in the timer list, in the work queue or executing and not yet given up. */
  function Jobs(m: Machine): set<Job> {
    (set t | t in m.timers :: t.job) + (set w | w in m.wq :: w.job)
    + (match m.exec case Popped(w) => {w.job} case Found(w) => {w.job} case _ => {})
  }

  /** e was queued at socket i since the socket last left CLOSED, and the socket is not CLOSED. */
  predicate Current(m: Machine, i: nat, e: TxEntry)
    requires |m.eras| == |m.socks|
  {
    i < |m.socks| && m.socks[i].state != CLOSED && e in m.socks[i].tx && e.mem.era == m.eras[i]
  }

  ghost predicate Armed(m: Machine)
    requires |m.eras| == |m.socks|
  {
    && (forall i: nat, e :: Current(m, i, e) ==> AckJob(i, e.sendSeq) in Jobs(m))
    && (forall i, e :: 0 <= i < |m.socks| && e in m.socks[i].tx ==> e.mem.era <= m.eras[i])
  }

  /** handle_ack leaves only entries that were there. */
  lemma AckTxOld(tx: seq<TxEntry>, ack: nat, e: TxEntry) returns (o: TxEntry)
    requires e in AckTx(tx, ack)
    ensures o in tx && o.sendSeq == e.sendSeq && o.mem == e.mem
  {
    if |AckRemove(tx, ack)| < |tx| {
      o := e;
    } else {
      var i :| 0 <= i < |tx| && CountDups(tx, ack)[i] == e;
      o := tx[i];
    }
  }

  /** Growing the jobs and changing one socket: enough that its new queue is old entries, or entries with a job. */
  lemma SockArmed(m: Machine, m': Machine, i: nat)
    requires |m.eras| == |m.socks| && Armed(m) && i < |m.socks| && Jobs(m) <= Jobs(m')
    requires |m'.socks| == |m.socks| && m'.eras == m.eras
    requires forall j :: 0 <= j < |m.socks| && j != i ==> m'.socks[j] == m.socks[j]
    requires m'.socks[i].state != CLOSED ==> m.socks[i].state != CLOSED
    requires forall e :: e in m'.socks[i].tx ==>
      || (e.mem.era == m.eras[i] && AckJob(i, e.sendSeq) in Jobs(m'))
      || (exists o :: o in m.socks[i].tx && o.sendSeq == e.sendSeq && o.mem == e.mem)
    ensures Armed(m')
  {
    forall j: nat, e | Current(m', j, e) ensures AckJob(j, e.sendSeq) in Jobs(m') {
      if j != i { assert Current(m, j, e); }
    }
  }

  lemma JobsGrow(m: Machine, m': Machine, ts: seq<Timer>)
    requires m'.timers == m.timers + ts && m'.wq == m.wq && m'.exec == m.exec
    ensures Jobs(m) <= Jobs(m') && forall t :: t in ts ==> t.job in Jobs(m')
  {
    forall t | t in m.timers ensures t in m'.timers {
      var k :| 0 <= k < |m.timers| && m.timers[k] == t;
      assert m'.timers[k] == t;
    }
    forall t | t in ts ensures t in m'.timers {
      var k :| 0 <= k < |ts| && ts[k] == t;
      assert m'.timers[|m.timers| + k] == t;
    }
  }

  /** A call that leaves CLOSED: everything queued before is of an earlier era. */
  lemma OpenArmed(m: Machine, m': Machine, i: nat)
    requires |m.eras| == |m.socks| && Armed(m) && i < |m.socks| && Jobs(m) <= Jobs(m')
    requires |m'.socks| == |m.socks| && m'.eras == m.eras[i := m.eras[i] + 1]
    requires forall j :: 0 <= j < |m.socks| && j != i ==> m'.socks[j] == m.socks[j]
    requires forall e :: e in m'.socks[i].tx ==>
      || (e.mem.era == m.eras[i] + 1 && AckJob(i, e.sendSeq) in Jobs(m'))
      || e in m.socks[i].tx
    ensures Armed(m')
  {
    forall j: nat, e | Current(m', j, e) ensures AckJob(j, e.sendSeq) in Jobs(m') {
      if j != i { assert Current(m, j, e); }
    }
  }

  lemma ExtendsIn(tx: seq<TxEntry>, r: seq<TxEntry>, seqNum: nat, x: TxMem)
    requires Extends(tx, r, seqNum, x)
    ensures forall e :: e in r ==> e in tx || (e.mem == x && e.sendSeq == seqNum)
  {
    assert r == tx + [r[|tx|]];
  }

  lemma CallArmed(m: Machine, st: Step)
    requires |m.eras| == |m.socks| && Armed(m) && Ready(m, st)
    requires st.Connecting? || st.Listening? || st.Sending? || st.Closing?
    ensures Armed(Moved(m, st))
  {
    var m' := Moved(m, st);
    var s, s' := m.socks[st.i], m'.socks[st.i];
    match st
    case Connecting(i, x, t, c) =>
      JobsGrow(m, m', [t, c]);
      ExtendsIn(s.tx, s'.tx, s.seqNum, x);
      assert t in [t, c];
      OpenArmed(m, m', i);
    case Listening(i) => OpenArmed(m, m', i);
    case Sending(i, d, x, t) =>
      JobsGrow(m, m', [t]);
      ExtendsIn(s.tx, s'.tx, s.seqNum, x);
      SockArmed(m, m', i);
    case Closing(i, x, t) =>
      if s.state == ESTABLISHED {
        JobsGrow(m, m', [t]);
        ExtendsIn(s.tx, s'.tx, s.seqNum, x);
      } else {
        JobsGrow(m, m', []);
      }
      SockArmed(m, m', i);
  }

  lemma ArrivalArmed(m: Machine, i: nat, g: Segment, x: TxMem, t: Timer)
    requires |m.eras| == |m.socks| && Armed(m) && Ready(m, Arrival(i, g, x, t))
    ensures Armed(Moved(m, Arrival(i, g, x, t)))
  {
    var m' := Moved(m, Arrival(i, g, x, t));
    var s, s' := m.socks[i], m'.socks[i];
    ReceiveTx(s, g, x);
    JobsGrow(m, m', if Queues(s, g) then [t] else []);
    if Queues(s, g) { ExtendsIn(Kept(s, g), s'.tx, s.seqNum, x); }
    forall e | e in Kept(s, g) ensures exists o :: o in s.tx && o.sendSeq == e.sendSeq && o.mem == e.mem {
      if Acks(s, g) { var o := AckTxOld(s.tx, g.ackNum, e); }
    }
    SockArmed(m, m', i);
  }

  /** The turns of a timeout: it moves from the timer list to the queue, to the worker, and back while its entry is
      queued; it is given up only when no entry of its number is left or the socket is CLOSED. */
  lemma JobArmed(m: Machine, st: Step)
    requires |m.eras| == |m.socks| && Armed(m) && Ready(m, st) && (st.Expiry? || st.Pop? || st.Decide? || st.Finish?)
    ensures Armed(Moved(m, st))
  {
    var m' := Moved(m, st);
    if st.Decide? {
      var j := m.exec.w.job;
      assert Jobs(m) - {j} <= Jobs(m');
      forall i: nat, e | Current(m', i, e) ensures AckJob(i, e.sendSeq) in Jobs(m') {
        assert Current(m, i, e);
      }
    } else {
      SameJobs(m, st);
      forall i: nat, e | Current(m', i, e) ensures AckJob(i, e.sendSeq) in Jobs(m') {
        assert Current(m, i, e);
      }
    }
  }

  lemma SameJobs(m: Machine, st: Step)
    requires |m.eras| == |m.socks| && Ready(m, st) && (st.Expiry? || st.Pop? || st.Finish?)
    ensures Jobs(m) <= Jobs(Moved(m, st))
  {
    var m' := Moved(m, st);
    match st
    case Expiry(k) =>
      assert m'.wq[|m.wq|].job == m.timers[k].job;
      forall t | t in m.timers ensures t in m'.timers || t == m.timers[k] {
        var i :| 0 <= i < |m.timers| && m.timers[i] == t;
        assert i < k ==> m'.timers[i] == t;
        assert i > k ==> m'.timers[i - 1] == t;
      }
      forall w | w in m.wq ensures w in m'.wq {
        var i :| 0 <= i < |m.wq| && m.wq[i] == w;
        assert m'.wq[i] == w;
      }
    case Pop =>
      forall w | w in m.wq ensures w in m'.wq || w == m.wq[0] {
        var i :| 0 <= i < |m.wq| && m.wq[i] == w;
        assert i > 0 ==> m'.wq[i - 1] == w;
      }
    case Finish(task, entry) =>
      forall t | t in m.timers ensures t in m'.timers {
        var i :| 0 <= i < |m.timers| && m.timers[i] == t;
        assert m'.timers[i] == t;
      }
      assert m.exec.Found? ==> m'.timers[|m.timers|].job == m.exec.w.job;
  }

  // ----- whole runs -----

  ghost predicate Inv(m: Machine) {
    |m.eras| == |m.socks| && Exact(m) && Armed(m)
  }

  lemma StepKeeps(m: Machine, st: Step)
    requires Inv(m) && Enabled(m, st)
    ensures Inv(Next(m, st))
  {
    StepExact(m, st);
    match st {
      case Arrival(i, g, x, t) => ArrivalArmed(m, i, g, x, t);
      case Expiry(k) => JobArmed(m, st);
      case Pop => JobArmed(m, st);
      case Decide => JobArmed(m, st);
      case Finish(task, entry) => JobArmed(m, st);
      case _ => CallArmed(m, st);
    }
    HeldOnly(Moved(m, st), Next(m, st).held);
  }

  lemma HeldOnly(m: Machine, held: set<nat>)
    requires |m.eras| == |m.socks| && Armed(m)
    ensures Armed(m.(held := held))
  {
    var m' := m.(held := held);
    forall i: nat, e | Current(m', i, e) ensures AckJob(i, e.sendSeq) in Jobs(m') {
      assert Current(m, i, e);
    }
  }

  /** tcp_socket_init and tcp_socket: n closed sockets, nothing queued, no timeout. */
  function Initial(n: nat): Machine {
    Machine(seq(n, _ => Socket(CLOSED, 0, 0, [], [])), seq(n, _ => 0), [], [], Idle, {})
  }

  ghost predicate IsRun(ms: seq<Machine>, sts: seq<Step>) {
    && |ms| == |sts| + 1 && (exists n: nat :: ms[0] == Initial(n))
    && (forall i :: 0 <= i < |sts| ==>
          |ms[i].eras| == |ms[i].socks| && Enabled(ms[i], sts[i]) && ms[i + 1] == Next(ms[i], sts[i]))
  }

  lemma {:induction false} NothingOwned(ss: seq<Socket>, b: nat)
    requires forall s :: s in ss ==> s.tx == []
    ensures SocksN(ss, b) == 0
  {
    if ss != [] {
      assert ss[0] in ss;
      NothingOwned(ss[1..], b);
    }
  }

  lemma {:induction false} RunKeeps(ms: seq<Machine>, sts: seq<Step>, n: nat)
    requires IsRun(ms, sts) && n < |ms|
    ensures Inv(ms[n])
  {
    if n == 0 {
      forall b: nat ensures SocksN(ms[0].socks, b) == 0 { NothingOwned(ms[0].socks, b); }
    } else {
      RunKeeps(ms, sts, n - 1);
      StepKeeps(ms[n - 1], sts[n - 1]);
    }
  }

  /** Every queued segment stays armed: in every state of every run, each entry queued at a socket since that socket
      last left CLOSED has a timeout for its sequence number in the timer list, in the work queue or executing. */
  lemma AlwaysArmed(ms: seq<Machine>, sts: seq<Step>, n: nat, i: nat, e: TxEntry)
    requires IsRun(ms, sts) && n < |ms| && |ms[n].eras| == |ms[n].socks| && Current(ms[n], i, e)
    ensures AckJob(i, e.sendSeq) in Jobs(ms[n])
  {
    RunKeeps(ms, sts, n);
  }

  /** Transmit-path block conservation: in every state of every run the blocks allocated and not freed are exactly
      those of the queued entries and the timeouts, each owned once, and the next step frees only such blocks. */
  lemma BlocksConserved(ms: seq<Machine>, sts: seq<Step>, n: nat)
    requires IsRun(ms, sts) && n < |ms|
    ensures var m := ms[n];
      && Exact(m)
      && |m.held| == 3 * Entries(m.socks) + 3 * |m.timers| + 2 * |m.wq| + |ExecSeq(m.exec)|
      && (n < |sts| ==> forall b: nat :: FreeN(m, sts[n], b) <= if b in m.held then 1 else 0)
  {
    RunKeeps(ms, sts, n);
    BlockCount(ms[n]);
    if n < |sts| { StepExact(ms[n], sts[n]); }
  }

  // ----- timeouts end -----

  /** The retransmission timeout j has an entry to send again. */
  predicate Wanted(socks: seq<Socket>, j: Job) {
    && j.AckJob? && j.sock < |socks| && socks[j.sock].state != CLOSED
    && exists i :: 0 <= i < |socks[j.sock].tx| && socks[j.sock].tx[i].sendSeq == j.seqNum
  }

  /** The worker sets a timeout again exactly when its socket is not CLOSED and still has an entry of its number queued
      as the worker looks; whatever arrives in between, that decides. */
  lemma SetAgainIff(m: Machine, m2: Machine, task: nat, entry: nat)
    requires |m.eras| == |m.socks| && |m2.eras| == |m2.socks|
    requires m.exec.Popped? && m2.exec == Moved(m, Decide).exec
    ensures m2.exec.Found? || m2.exec.Over?
    ensures var j, r := m.exec.w.job, Moved(m2, Finish(task, entry));
      && r.exec == Idle && r.socks == m2.socks
      && (r.timers == m2.timers + [Timer(j, m.exec.w.args, task, entry)] || r.timers == m2.timers)
      && (r.timers != m2.timers <==> Wanted(m.socks, j))
  {
    var j := m.exec.w.job;
    if j.AckJob? && j.sock < |m.socks| {
      var tx := m.socks[j.sock].tx;
      assert forall i :: 0 <= i < |tx| ==> tx[i] in tx;
    }
  }

  /** Every attempt to connect is watched by a connect timeout. */
  ghost predicate Timed(m: Machine) {
    forall i: nat :: i < |m.socks| && m.socks[i].state == SYN_SENT ==> ConnectJob(i) in Jobs(m)
  }

  lemma SockTimed(m: Machine, m': Machine, i: nat)
    requires Timed(m) && i < |m.socks| == |m'.socks| && Jobs(m) <= Jobs(m')
    requires forall j :: 0 <= j < |m.socks| && j != i ==> m'.socks[j] == m.socks[j]
    requires m'.socks[i].state == SYN_SENT ==> m.socks[i].state == SYN_SENT || ConnectJob(i) in Jobs(m')
    ensures Timed(m')
  {
  }

  lemma CallTimed(m: Machine, st: Step)
    requires |m.eras| == |m.socks| && Timed(m) && Ready(m, st)
    requires st.Connecting? || st.Listening? || st.Sending? || st.Closing?
    ensures Timed(Moved(m, st))
  {
    var m' := Moved(m, st);
    match st
    case Connecting(i, x, t, c) =>
      JobsGrow(m, m', [t, c]);
      assert [t, c][1] == c;
      SockTimed(m, m', i);
    case Listening(i) => SockTimed(m, m', i);
    case Sending(i, d, x, t) =>
      JobsGrow(m, m', [t]);
      SockTimed(m, m', i);
    case Closing(i, x, t) =>
      JobsGrow(m, m', if m.socks[i].state == ESTABLISHED then [t] else []);
      SockTimed(m, m', i);
  }

  lemma ArrivalTimed(m: Machine, i: nat, g: Segment, x: TxMem, t: Timer)
    requires |m.eras| == |m.socks| && Timed(m) && Ready(m, Arrival(i, g, x, t))
    ensures Timed(Moved(m, Arrival(i, g, x, t)))
  {
    var m' := Moved(m, Arrival(i, g, x, t));
    JobsGrow(m, m', if Queues(m.socks[i], g) then [t] else []);
    SockTimed(m, m', i);
  }

  lemma JobTimed(m: Machine, st: Step)
    requires |m.eras| == |m.socks| && Timed(m) && Ready(m, st) && (st.Expiry? || st.Pop? || st.Decide? || st.Finish?)
    ensures Timed(Moved(m, st))
  {
    var m' := Moved(m, st);
    if st.Decide? {
      assert Jobs(m) - {m.exec.w.job} <= Jobs(m');
    } else {
      SameJobs(m, st);
    }
  }

  lemma StepTimed(m: Machine, st: Step)
    requires |m.eras| == |m.socks| && Timed(m) && Enabled(m, st)
    ensures Timed(Next(m, st))
  {
    match st {
      case Arrival(i, g, x, t) => ArrivalTimed(m, i, g, x, t);
      case Expiry(k) => JobTimed(m, st);
      case Pop => JobTimed(m, st);
      case Decide => JobTimed(m, st);
      case Finish(task, entry) => JobTimed(m, st);
      case _ => CallTimed(m, st);
    }
    assert Jobs(Next(m, st)) == Jobs(Moved(m, st));
  }

  /** No attempt waits for ever: in every state of every run a socket in SYN_SENT has a connect timeout in the timer
      list, in the work queue or popped; and when the worker has dealt with one, its socket is not in SYN_SENT. */
  lemma {:induction false} AlwaysTimed(ms: seq<Machine>, sts: seq<Step>, n: nat)
    requires IsRun(ms, sts) && n < |ms|
    ensures Timed(ms[n])
    ensures n < |sts| && sts[n] == Decide && ms[n].exec.w.job.ConnectJob? && ms[n].exec.w.job.sock < |ms[n].socks| ==>
      |ms[n + 1].socks| == |ms[n].socks| && ms[n + 1].socks[ms[n].exec.w.job.sock].state != SYN_SENT
  {
    if n > 0 {
      AlwaysTimed(ms, sts, n - 1);
      StepTimed(ms[n - 1], sts[n - 1]);
    }
  }

  // ----- in order -----

  /** The timeout that expires in a step, and the one the worker pops. */
  function Expires(m: Machine, st: Step): seq<Work> {
    if st.Expiry? && st.k < |m.timers| then [Work(m.timers[st.k].job, m.timers[st.k].args, m.timers[st.k].task)] else []
  }

  function Pops(m': Machine, st: Step): seq<Work> { if st.Pop? && m'.exec.Popped? then [m'.exec.w] else [] }

  lemma QueueStep(m: Machine, m': Machine, st: Step)
    requires |m.eras| == |m.socks| && Ready(m, st) && m' == Next(m, st)
    ensures m.wq + Expires(m, st) == Pops(m', st) + m'.wq
  {
    match st
    case Pop => assert m.wq + [] == [m.wq[0]] + m.wq[1..];
    case Expiry(k) => assert [] + m'.wq == m'.wq;
    case _ => assert m.wq + [] == [] + m.wq;
  }

  /** All that have expired in the first n steps, in order, and all that have been popped. */
  ghost function Expired(ms: seq<Machine>, sts: seq<Step>, n: nat): seq<Work>
    requires |ms| == |sts| + 1 && n < |ms|
  {
    if n == 0 then [] else Expired(ms, sts, n - 1) + Expires(ms[n - 1], sts[n - 1])
  }

  ghost function Executed(ms: seq<Machine>, sts: seq<Step>, n: nat): seq<Work>
    requires |ms| == |sts| + 1 && n < |ms|
  {
    if n == 0 then [] else Executed(ms, sts, n - 1) + Pops(ms[n], sts[n - 1])
  }

  lemma QueueNext(done: seq<Work>, wq: seq<Work>, came: seq<Work>, pop: seq<Work>, rest: seq<Work>)
    requires wq + came == pop + rest
    ensures done + wq + came == done + pop + rest
  {
    assert done + wq + came == done + (wq + came);
  }

  /** In every run the worker executes the timeouts once each, in the order in which they expire. */
  lemma {:induction false} ExecutedInOrder(ms: seq<Machine>, sts: seq<Step>, n: nat)
    requires IsRun(ms, sts) && n < |ms|
    ensures Executed(ms, sts, n) + ms[n].wq == Expired(ms, sts, n)
  {
    if n > 0 {
      var m, m', st := ms[n - 1], ms[n], sts[n - 1];
      ExecutedInOrder(ms, sts, n - 1);
      QueueStep(m, m', st);
      QueueNext(Executed(ms, sts, n - 1), m.wq, Expires(m, st), Pops(m', st), m'.wq);
    }
  }
}
