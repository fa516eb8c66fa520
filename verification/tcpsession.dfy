/** A whole session of two endpoints of kernel/net/tcp.c when every segment arrives, once and in order: handshake, any
    window of data, and closing, segment by segment. */
module TcpSession {
  import opened Words
  import opened Tcp

  /** Both ends are open, agree on both numbers, and have nothing unacknowledged. */
  predicate Linked(a: Socket, b: Socket) {
    && a.state == b.state == ESTABLISHED && a.tx == [] == b.tx
    && a.ackNum == b.seqNum && b.ackNum == a.seqNum
  }

  /** a is told to connect, b listens, and three segments pass: SYN, SYN|ACK, ACK. */
  predicate Opens(a: Socket, b: Socket, a': Socket, b': Socket, m: TxMem) {
    var c, l := Connect(a, m), Listen(b);
    c.Done? && l.Done? && l.out == [] && |c.out| == 1 &&
    var r := Receive(l.sock, c.out[0], m);
    |r.out| == 1 &&
    var t := Receive(c.sock, r.out[0], m);
    |t.out| == 1 && t.sock == a' && Receive(r.sock, t.out[0], m) == Done(b', [])
  }

  lemma AckOne(e: TxEntry, ack: nat)
    requires e.waitAck <= ack
    ensures AckTx([e], ack) == [] && AckOut([e], ack) == [] && AckTx([], ack) == [] && AckOut([], ack) == []
  {
  }

  /** The handshake, from any two numbers. */
  lemma HandshakeWorks(a: Socket, b: Socket, m: TxMem) returns (a': Socket, b': Socket)
    requires a.state == b.state == CLOSED && a.tx == [] == b.tx && a.seqNum + 1 < TWO32 && b.seqNum + 1 < TWO32
    ensures Opens(a, b, a', b', m) && Linked(a', b')
    ensures a'.seqNum == a.seqNum + 1 && b'.seqNum == b.seqNum + 1 && a'.rx == a.rx && b'.rx == b.rx
  {
    var c, l := Connect(a, m), Listen(b).sock;
    var r := Receive(l, c.out[0], m);
    AckOne(c.sock.tx[0], r.out[0].ackNum);
    var t := Receive(c.sock, r.out[0], m);
    AckOne(r.sock.tx[0], t.out[0].ackNum);
    a', b' := t.sock, Receive(r.sock, t.out[0], m).sock;
  }

  // ----- a window of data -----

  /** All of ds passed to tcp_socket_send before anything arrives. */
  function Sends(a: Socket, ds: seq<seq<Byte>>, m: TxMem): (Socket, seq<Segment>)
    decreases |ds|
  {
    if ds == [] then (a, [])
    else match Send(a, ds[0], m)
      case Panic => (a, [])
      case Done(a1, out) =>
        var rest := Sends(a1, ds[1..], m);
        (rest.0, out + rest.1)
  }

  /** The segments gs arrive one after the other. */
  function Receives(b: Socket, gs: seq<Segment>, m: TxMem): (Socket, seq<Segment>)
    decreases |gs|
  {
    if gs == [] then (b, [])
    else
      var r := Receive(b, gs[0], m);
      var rest := Receives(r.sock, gs[1..], m);
      (rest.0, r.out + rest.1)
  }

  predicate AllData(ds: seq<seq<Byte>>) { forall i :: 0 <= i < |ds| ==> ds[i] != [] }

  function Total(ds: seq<seq<Byte>>): nat { if ds == [] then 0 else |ds[0]| + Total(ds[1..]) }

  function DataSeg(q: nat, ack: nat, d: seq<Byte>): Segment { Segment(q, ack, false, true, false, d) }

  function Segs(q: nat, ack: nat, ds: seq<seq<Byte>>): seq<Segment>
    decreases |ds|
  {
    if ds == [] then [] else [DataSeg(q, ack, ds[0])] + Segs(q + |ds[0]|, ack, ds[1..])
  }

  function Queue(q: nat, ack: nat, ds: seq<seq<Byte>>, m: TxMem): seq<TxEntry>
    decreases |ds|
  {
    if ds == [] then []
    else [TxEntry(q, q + |ds[0]|, 0, DataSeg(q, ack, ds[0]), m)] + Queue(q + |ds[0]|, ack, ds[1..], m)
  }

  function Acks(q: nat, ack: nat, ds: seq<seq<Byte>>): seq<Segment>
    decreases |ds|
  {
    if ds == [] then [] else [DataSeg(ack, q + |ds[0]|, [])] + Acks(q + |ds[0]|, ack, ds[1..])
  }

  lemma {:induction false} SendsIs(a: Socket, ds: seq<seq<Byte>>, m: TxMem)
    requires a.state == ESTABLISHED && a.seqNum + Total(ds) < TWO32
    ensures Sends(a, ds, m) ==
      (a.(tx := a.tx + Queue(a.seqNum, a.ackNum, ds, m), seqNum := a.seqNum + Total(ds)), Segs(a.seqNum, a.ackNum, ds))
    decreases |ds|
  {
    if ds == [] {
      assert a.tx + [] == a.tx;
    } else {
      var r := Send(a, ds[0], m);
      SendsIs(r.sock, ds[1..], m);
      var e := TxEntry(a.seqNum, a.seqNum + |ds[0]|, 0, DataSeg(a.seqNum, a.ackNum, ds[0]), m);
      assert r.sock.tx == a.tx + [e];
      var q := Queue(a.seqNum + |ds[0]|, a.ackNum, ds[1..], m);
      assert a.tx + [e] + q == a.tx + ([e] + q);
    }
  }

  /** Data in order at a socket with nothing queued: stored, and acknowledged at once. */
  lemma ReceiveOne(b: Socket, d: seq<Byte>, m: TxMem)
    requires b.state == ESTABLISHED && b.tx == [] && d != [] && b.ackNum + |d| < TWO32
    ensures Receive(b, DataSeg(b.ackNum, b.seqNum, d), m) ==
      Done(b.(rx := b.rx + [d], ackNum := b.ackNum + |d|), [DataSeg(b.seqNum, b.ackNum + |d|, [])])
  {
    var g := DataSeg(b.ackNum, b.seqNum, d);
    var s1 := Take(b, g);
    assert s1 == b.(rx := b.rx + [d], ackNum := b.ackNum + |d|);
    assert Acked(s1, g) == s1;
  }

  lemma {:induction false} ReceivesIs(b: Socket, ds: seq<seq<Byte>>, m: TxMem)
    requires b.state == ESTABLISHED && b.tx == [] && b.ackNum + Total(ds) < TWO32
    requires AllData(ds)
    ensures Receives(b, Segs(b.ackNum, b.seqNum, ds), m) ==
      (b.(rx := b.rx + ds, ackNum := b.ackNum + Total(ds)), Acks(b.ackNum, b.seqNum, ds))
    decreases |ds|
  {
    if ds == [] {
      assert b.rx + [] == b.rx;
    } else {
      var gs := Segs(b.ackNum, b.seqNum, ds);
      ReceiveOne(b, ds[0], m);
      var b1 := Receive(b, gs[0], m).sock;
      assert gs[1..] == Segs(b1.ackNum, b1.seqNum, ds[1..]);
      ReceivesIs(b1, ds[1..], m);
      assert b.rx + [ds[0]] + ds[1..] == b.rx + ds;
    }
  }

  lemma {:induction false} QueueWaits(q: nat, ack: nat, ds: seq<seq<Byte>>, m: TxMem, i: nat)
    requires AllData(ds) && i < |Queue(q, ack, ds, m)|
    ensures Queue(q, ack, ds, m)[i].waitAck > q
    decreases |ds|
  {
    if i > 0 { QueueWaits(q + |ds[0]|, ack, ds[1..], m, i - 1); }
  }

  /** An acknowledgement of the oldest entry alone takes just that from the queue. */
  lemma AckOldest(a: Socket, ds: seq<seq<Byte>>, ack: nat, q: nat, m: TxMem)
    requires a.state == ESTABLISHED && ds != [] && a.tx == Queue(q, ack, ds, m)
    requires AllData(ds)
    ensures Receive(a, DataSeg(ack, q + |ds[0]|, []), m) ==
      Done(a.(tx := Queue(q + |ds[0]|, ack, ds[1..], m)), [])
  {
    var g, rest := DataSeg(ack, q + |ds[0]|, []), Queue(q + |ds[0]|, ack, ds[1..], m);
    forall i | 1 <= i < |a.tx| ensures a.tx[i].waitAck > g.ackNum {
      QueueWaits(q + |ds[0]|, ack, ds[1..], m, i - 1);
      assert a.tx[i] == rest[i - 1];
    }
    assert Covers(a.tx, g.ackNum, 1);
    AckRemovesTwo(a.tx, g.ackNum, 1);
    assert a.tx[1..] == rest;
    assert Acked(a, g) == a.(tx := rest);
  }

  /** Segments that empty the queue of a and are not answered. */
  predicate Clears(a: Socket, gs: seq<Segment>, m: TxMem) { Receives(a, gs, m) == (a.(tx := []), []) }

  lemma ClearsNone(a: Socket, m: TxMem)
    requires a.tx == []
    ensures Clears(a, [], m)
  {
  }

  lemma ClearsNext(a: Socket, a1: Socket, gs: seq<Segment>, m: TxMem)
    requires gs != [] && Receive(a, gs[0], m) == Done(a1, []) && a1 == a.(tx := a1.tx) && Clears(a1, gs[1..], m)
    ensures Clears(a, gs, m)
  {
    var rest := Receives(a1, gs[1..], m);
    assert [] + rest.1 == rest.1;
  }

  lemma AcksFirst(q: nat, ack: nat, ds: seq<seq<Byte>>, gs: seq<Segment>)
    requires ds != [] && gs == Acks(q, ack, ds)
    ensures gs != [] && gs[0] == DataSeg(ack, q + |ds[0]|, []) && gs[1..] == Acks(q + |ds[0]|, ack, ds[1..])
  {
  }

  lemma AcksStep(a: Socket, a1: Socket, ds: seq<seq<Byte>>, gs: seq<Segment>, ack: nat, q: nat, m: TxMem)
    requires a.state == ESTABLISHED && a.tx == Queue(q, ack, ds, m) && gs == Acks(q, ack, ds)
    requires ds != [] && AllData(ds) && a1 == a.(tx := Queue(q + |ds[0]|, ack, ds[1..], m))
    ensures gs != [] && gs[1..] == Acks(q + |ds[0]|, ack, ds[1..])
    ensures Clears(a, gs, m) || !Clears(a1, gs[1..], m)
  {
    AcksFirst(q, ack, ds, gs);
    AckOldest(a, ds, ack, q, m);
    if Clears(a1, gs[1..], m) { ClearsNext(a, a1, gs, m); }
  }

  lemma {:induction false} AcksClear(a: Socket, ds: seq<seq<Byte>>, gs: seq<Segment>, ack: nat, q: nat, m: TxMem)
    requires a.state == ESTABLISHED && a.tx == Queue(q, ack, ds, m) && gs == Acks(q, ack, ds) && AllData(ds)
    ensures Clears(a, gs, m)
    decreases |ds|
  {
    if ds == [] {
      ClearsNone(a, m);
    } else {
      var q1, rest := q + |ds[0]|, ds[1..];
      var a1 := a.(tx := Queue(q1, ack, rest, m));
      AcksStep(a, a1, ds, gs, ack, q, m);
      AcksClear(a1, rest, gs[1..], ack, q1, m);
    }
  }

  /** ds is sent as one window, all of it arrives, and then all acknowledgements do. */
  predicate Carries(a: Socket, b: Socket, ds: seq<seq<Byte>>, a': Socket, b': Socket, m: TxMem) {
    var s := Sends(a, ds, m);
    var r := Receives(b, s.1, m);
    |r.1| == |ds| && r.0 == b' && Receives(s.0, r.1, m) == (a', [])
  }

  lemma {:induction false} AcksCount(q: nat, ack: nat, ds: seq<seq<Byte>>)
    ensures |Acks(q, ack, ds)| == |ds|
    decreases |ds|
  {
    if ds != [] { AcksCount(q + |ds[0]|, ack, ds[1..]); }
  }

  /** A window of any length: the receiver has exactly what was sent, in order, one acknowledgement goes back for each
      segment, and afterwards nothing is left in the sender's queue. */
  lemma WindowWorks(a: Socket, b: Socket, ds: seq<seq<Byte>>, m: TxMem) returns (a': Socket, b': Socket)
    requires Linked(a, b) && a.seqNum + Total(ds) < TWO32 && AllData(ds)
    ensures Carries(a, b, ds, a', b', m) && Linked(a', b')
    ensures b'.rx == b.rx + ds && a'.rx == a.rx && a'.seqNum == a.seqNum + Total(ds) && b'.seqNum == b.seqNum
  {
    var q, ack := a.seqNum, a.ackNum;
    SendsIs(a, ds, m);
    assert [] + Queue(q, ack, ds, m) == Queue(q, ack, ds, m);
    ReceivesIs(b, ds, m);
    var a1 := Sends(a, ds, m).0;
    AcksClear(a1, ds, Acks(q, ack, ds), ack, q, m);
    AcksCount(q, ack, ds);
    a', b' := a1.(tx := []), Receives(b, Segs(q, ack, ds), m).0;
  }

  // ----- closing -----

  /** a closes, and three segments pass: FIN, the FIN of b, ACK. */
  predicate Parts(a: Socket, b: Socket, a': Socket, b': Socket, m: TxMem) {
    var c := Close(a, m);
    c.Done? && |c.out| == 1 &&
    var r := Receive(b, c.out[0], m);
    |r.out| == 1 && r.sock.state == CLOSING &&
    var t := Receive(c.sock, r.out[0], m);
    |t.out| == 1 && t.sock == a' && Receive(r.sock, t.out[0], m) == Done(b', [])
  }

  /** Closing works, but CLOSING does not call handle_ack: the FIN of the side that did not close first stays in its
      queue, acknowledged, with its three heap blocks. */
  lemma GoodbyeWorks(a: Socket, b: Socket, m: TxMem) returns (a': Socket, b': Socket)
    requires Linked(a, b) && a.seqNum + 1 < TWO32
    ensures Parts(a, b, a', b', m) && a'.state == b'.state == CLOSED
    ensures a'.rx == a.rx && b'.rx == b.rx && a'.tx == [] && |b'.tx| == 1 && b'.tx[0].seg.fin
  {
    var c := Close(a, m);
    assert Acked(b, c.out[0]) == b;
    var r := Receive(b, c.out[0], m);
    AckOne(c.sock.tx[0], r.out[0].ackNum);
    var t := Receive(c.sock, r.out[0], m);
    a', b' := t.sock, Receive(r.sock, t.out[0], m).sock;
  }

  /** A session: two closed sockets with empty queues open a connection, ds goes one way, es the other, and it is
      closed; each application's list holds exactly what the other one sent, in order. */
  lemma SessionWorks(a: Socket, b: Socket, ds: seq<seq<Byte>>, es: seq<seq<Byte>>, m: TxMem)
    returns (a1: Socket, b1: Socket, a2: Socket, b2: Socket, a3: Socket, b3: Socket, a4: Socket, b4: Socket)
    requires a.state == b.state == CLOSED && a.tx == [] == b.tx
    requires a.seqNum + Total(ds) + 2 < TWO32 && b.seqNum + Total(es) + 2 < TWO32
    requires AllData(ds) && AllData(es)
    ensures Opens(a, b, a1, b1, m) && Carries(a1, b1, ds, a2, b2, m) && Carries(b2, a2, es, b3, a3, m)
    ensures Parts(a3, b3, a4, b4, m) && a4.state == b4.state == CLOSED
    ensures a4.rx == a.rx + es && b4.rx == b.rx + ds && a4.tx == []
  {
    a1, b1 := HandshakeWorks(a, b, m);
    a2, b2 := WindowWorks(a1, b1, ds, m);
    b3, a3 := WindowWorks(b2, a2, es, m);
    a4, b4 := GoodbyeWorks(a3, b3, m);
  }
}
