/** The retransmission queue of one socket of kernel/net/tcp.c, whoever sends to it and however often it is opened. */
module TcpQueue {
  import opened Words
  import opened Tcp

  /** A call by the user, the connect timeout, or the arrival of any segment at all. */
  datatype Event =
    | Connecting(m: TxMem) | Listening | Sending(data: seq<Byte>, m: TxMem) | Closing(m: TxMem) | ConnectTimer
    | Arrival(g: Segment, m: TxMem)

  function Act(s: Socket, ev: Event): Result {
    match ev
    case Connecting(m) => Connect(s, m)
    case Listening => Listen(s)
    case Sending(d, m) => Send(s, d, m)
    case Closing(m) => Close(s, m)
    case ConnectTimer => Done(ConnectTimeout(s), [])
    case Arrival(g, m) => Receive(s, g, m)
  }

  /** Sequence numbers do not wrap. */
  predicate Room(s: Socket, ev: Event) {
    s.seqNum + 1 + (if ev.Sending? then |ev.data| else 0) < TWO32
  }

  /** tcp_send with need_ack puts the newest number at the end. */
  lemma EnqueueOrdered(s: Socket, k: Kind, data: seq<Byte>, m: TxMem)
    requires QueueOrdered(s.tx, s.seqNum) && s.seqNum + |data| < TWO32
    ensures var r := Enqueue(s, k, data, m);
      r.seqNum == s.seqNum + |data| && QueueOrdered(r.tx, r.seqNum) && QueueOrdered(r.tx, r.seqNum + 1)
  {
  }

  /** handle_ack keeps the order, whatever number it is given. */
  lemma AckOrdered(tx: seq<TxEntry>, ack: nat, seqNum: nat)
    requires QueueOrdered(tx, seqNum)
    ensures QueueOrdered(AckTx(tx, ack), seqNum)
  {
    var k := Covered(tx, ack);
    OldestCovered(tx, ack, seqNum);
    AckRemovesTwo(tx, ack, k);
    if k > 0 { DropOrdered(tx, Min(2, k), seqNum); } else { DupsOrdered(tx, ack, seqNum); }
  }

  lemma DropOrdered(tx: seq<TxEntry>, n: nat, seqNum: nat)
    requires QueueOrdered(tx, seqNum) && n <= |tx|
    ensures QueueOrdered(tx[n..], seqNum)
  {
  }

  lemma DupsOrdered(tx: seq<TxEntry>, ack: nat, seqNum: nat)
    requires QueueOrdered(tx, seqNum)
    ensures QueueOrdered(CountDups(tx, ack), seqNum)
  {
    SameOrdered(tx, CountDups(tx, ack), seqNum);
  }

  lemma SameOrdered(tx: seq<TxEntry>, r: seq<TxEntry>, seqNum: nat)
    requires QueueOrdered(tx, seqNum) && |r| == |tx|
    requires forall i :: 0 <= i < |tx| ==> r[i].sendSeq == tx[i].sendSeq && r[i].waitAck == tx[i].waitAck
    ensures QueueOrdered(r, seqNum)
  {
  }

  lemma AckedOrdered(s: Socket, g: Segment)
    requires QueueOrdered(s.tx, s.seqNum)
    ensures QueueOrdered(Acked(s, g).tx, s.seqNum) && Acked(s, g).seqNum == s.seqNum
  {
    AckOrdered(s.tx, g.ackNum, s.seqNum);
  }

  /** Outside LISTEN and ESTABLISHED an arrival changes the queue by its acknowledgement at most. */
  lemma ReceiveTx(s: Socket, g: Segment, m: TxMem)
    requires s.state != LISTEN && s.state != ESTABLISHED
    ensures var r := Receive(s, g, m).sock; r.seqNum == s.seqNum && (r.tx == s.tx || r.tx == Acked(s, g).tx)
  {
  }

  lemma ReceiveOrdered(s: Socket, g: Segment, m: TxMem)
    requires QueueOrdered(s.tx, s.seqNum) && s.seqNum + 1 < TWO32
    ensures var r := Receive(s, g, m).sock; QueueOrdered(r.tx, r.seqNum)
  {
    if s.state == LISTEN {
      EnqueueOrdered(s.(ackNum := Add32(g.seqNum, 1)), SynAck, [], m);
    } else if s.state == ESTABLISHED {
      EstablishedOrdered(s, g, m);
    } else {
      ReceiveTx(s, g, m);
      AckedOrdered(s, g);
    }
  }

  lemma EstablishedOrdered(s: Socket, g: Segment, m: TxMem)
    requires QueueOrdered(s.tx, s.seqNum) && s.seqNum + 1 < TWO32 && s.state == ESTABLISHED
    ensures var r := Receive(s, g, m).sock; QueueOrdered(r.tx, r.seqNum)
  {
    AckedOrdered(Take(s, g), g);
    ResponseOrdered(Acked(Take(s, g), g), g, m);
  }

  lemma ResponseOrdered(s: Socket, g: Segment, m: TxMem)
    requires QueueOrdered(s.tx, s.seqNum) && s.seqNum + 1 < TWO32
    ensures var r := Response(s, g, m).sock; QueueOrdered(r.tx, r.seqNum)
  {
    EnqueueOrdered(s.(ackNum := Add32(s.ackNum, 1)), FinAck, [], m);
  }

  lemma StepOrdered(s: Socket, ev: Event)
    requires QueueOrdered(s.tx, s.seqNum) && Room(s, ev) && Act(s, ev).Done?
    ensures var r := Act(s, ev).sock; QueueOrdered(r.tx, r.seqNum)
  {
    match ev
    case Connecting(m) => EnqueueOrdered(s, Syn, [], m);
    case Sending(d, m) => EnqueueOrdered(s, Ack, d, m);
    case Closing(m) => EnqueueOrdered(s, FinAck, [], m);
    case Arrival(g, m) => ReceiveOrdered(s, g, m);
    case _ =>
  }

  /** A run of one socket, from tcp_socket on. */
  ghost predicate IsRun(ss: seq<Socket>, evs: seq<Event>) {
    && |ss| == |evs| + 1 && ss[0] == Socket(CLOSED, 0, 0, [], [])
    && (forall i :: 0 <= i < |evs| ==>
          Room(ss[i], evs[i]) && Act(ss[i], evs[i]).Done? && ss[i + 1] == Act(ss[i], evs[i]).sock)
  }

  /** In every state of every run the queue is ordered by sequence number, with no wait number ahead of seq_num. */
  lemma {:induction false} QueueAlwaysOrdered(ss: seq<Socket>, evs: seq<Event>, n: nat)
    requires IsRun(ss, evs) && n < |ss|
    ensures QueueOrdered(ss[n].tx, ss[n].seqNum)
  {
    if n > 0 {
      QueueAlwaysOrdered(ss, evs, n - 1);
      StepOrdered(ss[n - 1], evs[n - 1]);
    }
  }

  /** ack covers a prefix of the queue; one handle_ack removes its oldest two entries, and ceil(k/2) all k of them. */
  ghost predicate Clears(tx: seq<TxEntry>, ack: nat) {
    var k := Covered(tx, ack);
    Covers(tx, ack, k) && AckRemove(tx, ack) == tx[Min(2, k)..] && Repeat(tx, ack, (k + 1) / 2) == tx[k..]
  }

  lemma OrderedClears(tx: seq<TxEntry>, seqNum: nat, ack: nat)
    requires QueueOrdered(tx, seqNum)
    ensures Clears(tx, ack)
  {
    OldestCovered(tx, ack, seqNum);
    AckRemovesTwo(tx, ack, Covered(tx, ack));
    CeilRepeatsClear(tx, ack, seqNum);
  }

  /** So every acknowledgement does, in every state of every run. */
  lemma AcksAlwaysClear(ss: seq<Socket>, evs: seq<Event>, n: nat)
    requires IsRun(ss, evs) && n < |ss|
    ensures forall ack: nat :: Clears(ss[n].tx, ack)
  {
    QueueAlwaysOrdered(ss, evs, n);
    forall ack: nat ensures Clears(ss[n].tx, ack) { OrderedClears(ss[n].tx, ss[n].seqNum, ack); }
  }
}
