/** Two endpoints of kernel/net/tcp.c over a network that loses, duplicates and reorders segments: a segment once
    transmitted may be delivered to the peer at any later time, any number of times, or never. Either endpoint may
    close and open again. */
module TcpNet {
  import opened Words
  import opened Tcp
  import opened TcpHist
  import Q = TcpQueue

  /** A socket with its history: its openings, the segments ever transmitted, all bytes ever accepted, and the bytes
      returned by tcp_socket_recv. */
  datatype End = End(sock: Socket, hist: Hist, wire: set<Segment>, stored: seq<Byte>, read: seq<Byte>)

  const START := End(Socket(CLOSED, 0, 0, [], []), NONE, {}, [], [])

  datatype Event =
    | Connecting(m: TxMem) | Listening | Sending(data: seq<Byte>, m: TxMem) | Closing(m: TxMem)
    | Reading(size: nat)
    | ConnectTimer | AckTimer(seqNum: nat)
    | Delivery(g: Segment, m: TxMem)

  function Set<T>(s: seq<T>): set<T> { set x | x in s }

  /** Fewer than 2^32 sequence numbers are used; calls that would panic are not made; and data on the segment that
      completes SYN_RCVD is in order. */
  predicate Enabled(x: End, y: End, ev: Event) {
    var s := x.sock;
    match ev
    case Connecting(m) => s.state == CLOSED && s.seqNum + 2 < TWO32
    case Listening => s.state == CLOSED
    case Sending(d, m) => s.state == ESTABLISHED && s.seqNum + |d| + 1 < TWO32
    case Closing(m) => Close(s, m).Done? && s.seqNum + 2 < TWO32
    case Reading(size) => s.rx != []
    case ConnectTimer => true
    case AckTimer(q) => true
    case Delivery(g, m) => g in y.wire && s.seqNum + 2 < TWO32 && InOrder(s, g)
  }

  predicate InOrder(s: Socket, g: Segment) {
    s.state == SYN_RCVD && g.ack && g.data != [] ==> g.seqNum == s.ackNum
  }

  /** The segment sets ack_num from a SYN. */
  predicate Syncs(s: Socket, g: Segment) {
    (s.state == LISTEN && g.syn) || (s.state == SYN_SENT && g.syn && g.ack)
  }

  /** The segment is taken as the peer's FIN. */
  predicate TakesFin(s: Socket, g: Segment) {
    g.fin && g.ack && (s.state == FIN_WAIT_1 || (s.state == ESTABLISHED && (g.data == [] || g.seqNum == s.ackNum)))
  }

  /** What the code does not check: a FIN is in order, and a SYN is not one that has been used before. */
  ghost predicate Proper(x: End, ev: Event) {
    ev.Delivery? ==>
      && (TakesFin(x.sock, ev.g) ==> ev.g.seqNum == x.sock.ackNum)
      && (Syncs(x.sock, ev.g) ==> Unused(x.hist, ev.g.seqNum + 1))
  }

  function Apply(x: End, r: Result, h: Hist): End
    requires r.Done?
  {
    x.(sock := r.sock, wire := x.wire + Set(r.out), hist := h)
  }

  /** What an arrival adds to the history. */
  function Heard(h: Hist, s: Socket, g: Segment): Hist {
    if s.state == LISTEN && g.syn then Synced(Opened(h, Add32(s.seqNum, 1)), g.seqNum + 1)
    else if Syncs(s, g) then Synced(h, g.seqNum + 1)
    else
      var h1 := if Accepted(s, g) == [] then h else Took(h, g.data);
      if !TakesFin(s, g) then h1 else if s.state == ESTABLISHED then FinSent(FinTook(h1)) else FinTook(h1)
  }

  function Act(x: End, ev: Event): End {
    var s := x.sock;
    match ev
    case Connecting(m) =>
      if s.state == CLOSED then Apply(x, Connect(s, m), Opened(x.hist, Add32(s.seqNum, 1))) else x
    case Listening => if s.state == CLOSED then Apply(x, Listen(s), x.hist) else x
    case Sending(d, m) => if s.state == ESTABLISHED then Apply(x, Send(s, d, m), Sent(x.hist, d)) else x
    case Closing(m) =>
      if Close(s, m).Done? then Apply(x, Close(s, m), if s.state == ESTABLISHED then FinSent(x.hist) else x.hist) else x
    case Reading(size) =>
      if s.rx != [] then x.(sock := s.(rx := s.rx[1..]), read := x.read + s.rx[0][..Min(size, |s.rx[0]|)]) else x
    case ConnectTimer => x.(sock := ConnectTimeout(s))
    case AckTimer(q) => if s.state == CLOSED then x else x.(wire := x.wire + Set(Resent(s.tx, q)))
    case Delivery(g, m) =>
      Apply(x, Receive(s, g, m), Heard(x.hist, s, g)).(stored := x.stored + Accepted(s, g))
  }

  // ----- invariant -----

  /** Segment g is a slice of opening b. */
  predicate Slice(h: Hist, b: nat, g: Segment) {
    && b in h.streams && b <= g.seqNum && g.seqNum - b + |g.data| <= |h.streams[b]|
    && g.data == h.streams[b][g.seqNum - b..g.seqNum - b + |g.data|]
  }

  predicate IsFin(h: Hist, b: nat, g: Segment) {
    b in h.fins && b in h.streams && g.seqNum == b + |h.streams[b]|
  }

  /** A transmitted segment: a SYN stands before its opening, data is the slice of an opening's bytes that its sequence
      number says, and a FIN stands behind the last byte of an opening. */
  ghost predicate WireOk(g: Segment, h: Hist) {
    && (g.syn ==> g.seqNum + 1 in h.streams && g.data == [])
    && (g.data != [] ==> exists b :: Slice(h, b, g))
    && (g.fin ==> g.data == [] && exists b :: IsFin(h, b, g))
  }

  ghost predicate WireAll(wire: set<Segment>, h: Hist) { forall g :: g in wire ==> WireOk(g, h) }

  predicate EntryOk(e: TxEntry, wire: set<Segment>) {
    e.seg in wire && e.seg.seqNum == e.sendSeq && e.waitAck == e.sendSeq + |e.seg.data|
  }

  ghost predicate EntriesOk(tx: seq<TxEntry>, wire: set<Segment>) { forall e :: e in tx ==> EntryOk(e, wire) }

  /** The state fits the latest opening. */
  predicate SockOk(s: Socket, h: Hist) {
    && h.base in h.streams && h.base in h.got && s.seqNum + 1 < TWO32
    && var b, end := h.base, h.base + |h.streams[h.base]|;
    match s.state
    case SYN_SENT => b !in h.links && s.seqNum == end
    case SYN_RCVD => b in h.links && b !in h.fins && b !in h.taken && s.seqNum == b == end && h.got[b] == []
    case ESTABLISHED => b in h.links && b !in h.fins && b !in h.taken && s.seqNum == end
    case FIN_WAIT_1 => b in h.links && b in h.fins && b !in h.taken && s.seqNum == end + 1
    case CLOSING => b in h.links && b in h.fins && b in h.taken && s.seqNum >= end
    case CLOSED => Idle(h) && s.seqNum >= end
    case LISTEN => Idle(h) && s.seqNum >= end
    case CLOSE_WAIT => false
  }

  /** Until a FIN is taken, ack_num is peer ISN + 1 + accepted length. */
  predicate AckOk(s: Socket, h: Hist) {
    h.base in h.links && h.base !in h.taken ==> s.ackNum == h.links[h.base] + |At(h.got, h.base)|
  }

  ghost predicate Local(x: End) {
    && SockOk(x.sock, x.hist) && AckOk(x.sock, x.hist) && WireAll(x.wire, x.hist) && EntriesOk(x.sock.tx, x.wire)
  }

  ghost predicate Core(x: End, y: End) { Local(x) && Local(y) && Pair(x.hist, y.hist) }

  ghost predicate Ordered(x: End) { QueueOrdered(x.sock.tx, x.sock.seqNum) }

  ghost predicate Inv(x: End, y: End) { Core(x, y) && Ordered(x) && Ordered(y) }

  // ----- what is known when FINs are in order and SYNs fresh -----

  /** With a FIN in order, ack_num counts it. */
  predicate AckFin(s: Socket, h: Hist) {
    h.base in h.links && h.base in h.taken ==> s.ackNum == h.links[h.base] + |At(h.got, h.base)| + 1
  }

  /** Some opening of y has accepted g. */
  ghost predicate TakenBy(y: Hist, g: Segment) { exists t :: Within(y, t, g) }

  predicate Within(y: Hist, t: nat, g: Segment) {
    t in y.links && t in y.got && y.links[t] <= g.seqNum && g.seqNum + |g.data| <= y.links[t] + |y.got[t]|
  }

  /** Every data segment that ends at q or before has been accepted by y. */
  ghost predicate Done(wire: set<Segment>, y: Hist, q: nat) {
    forall g :: g in wire && g.data != [] && g.seqNum + |g.data| <= q ==> TakenBy(y, g)
  }

  /** No acknowledgement is ahead of this. */
  function Limit(s: Socket): nat { s.seqNum + if s.state in {CLOSING, CLOSED, LISTEN} then 1 else 0 }

  ghost predicate Claim(x: End, y: Hist, q: nat) { q <= Limit(x.sock) && Done(x.wire, y, q) }

  /** Whatever y acknowledges, or would now, it has accepted. */
  ghost predicate Sound(x: End, y: End) {
    && (forall h :: h in y.wire && h.ack ==> Claim(x, y.hist, h.ackNum))
    && (y.hist.base in y.hist.links ==> Claim(x, y.hist, y.sock.ackNum))
  }

  ghost predicate Queued(tx: seq<TxEntry>, g: Segment) { exists i :: 0 <= i < |tx| && tx[i].seg == g }

  /** The data segments of x that y has not accepted are all still queued at x. */
  ghost predicate Remembered(x: End, y: End) {
    forall g :: g in x.wire && g.data != [] ==> Queued(x.sock.tx, g) || TakenBy(y.hist, g)
  }

  /** Everything that concerns bytes from x to y. */
  ghost predicate Flow(x: End, y: End) { AckFin(y.sock, y.hist) && Sound(x, y) && Remembered(x, y) }

  ghost predicate Full(x: End, y: End) { StrictPair(x.hist, y.hist) && Flow(x, y) && Flow(y, x) }

  /** A step of x keeps the laws of the pair, and the strict ones too. For the form see TcpHist.Follows. */
  ghost predicate Stays(x: End, x': End, y: End) {
    (Core(x', y) || !Core(x, y)) && (Full(x', y) || !Full(x, y) || !Core(x, y))
  }

  // ----- how these grow -----

  lemma WireGrown(wire: set<Segment>, h: Hist, h': Hist)
    requires WireAll(wire, h) && Grown(h, h') && Shape(h)
    ensures WireAll(wire, h')
  {
    forall g | g in wire ensures WireOk(g, h') {
      assert WireOk(g, h);
      if g.data != [] {
        var b :| Slice(h, b, g);
        assert Slice(h', b, g);
      }
      if g.fin {
        var b :| IsFin(h, b, g);
        assert IsFin(h', b, g);
      }
    }
  }

  /** Openings and what they have accepted only grow. */
  ghost predicate Wider(y: Hist, y': Hist) {
    forall t :: t in y.links && t in y.got ==>
      t in y'.links && t in y'.got && y'.links[t] == y.links[t] && |y.got[t]| <= |y'.got[t]|
  }

  lemma TakenGrows(y: Hist, y': Hist, g: Segment)
    requires TakenBy(y, g) && Wider(y, y')
    ensures TakenBy(y', g)
  {
    var t :| Within(y, t, g);
    assert Within(y', t, g);
  }

  lemma DoneGrows(wire: set<Segment>, y: Hist, y': Hist, q: nat)
    requires Done(wire, y, q) && Wider(y, y')
    ensures Done(wire, y', q)
  {
    forall g | g in wire && g.data != [] && g.seqNum + |g.data| <= q ensures TakenBy(y', g) { TakenGrows(y, y', g); }
  }

  /** The sender has transmitted nothing new below its limit, and kept its queue but for what the peer has. */
  ghost predicate Sends(x: End, x': End) {
    && Limit(x.sock) <= Limit(x'.sock)
    && (forall g :: g in x'.wire && g !in x.wire && g.data != [] ==>
          g.seqNum + |g.data| > Limit(x.sock) && Queued(x'.sock.tx, g))
    && (forall g :: Queued(x.sock.tx, g) ==> Queued(x'.sock.tx, g))
  }

  /** The receiver has only widened what it accepts, and acknowledges at most what it may. */
  ghost predicate Receives(x: End, y: End, y': End) {
    && Wider(y.hist, y'.hist) && AckFin(y'.sock, y'.hist)
    && (forall h :: h in y'.wire && h !in y.wire && h.ack ==>
          y'.hist.base in y'.hist.links && h.ackNum == y'.sock.ackNum)
    && (y'.hist.base in y'.hist.links ==> Claim(x, y'.hist, y'.sock.ackNum))
  }

  lemma FlowSends(x: End, x': End, y: End)
    requires Flow(x, y) && Sends(x, x')
    ensures Flow(x', y)
  {
    forall q: nat | Claim(x, y.hist, q) ensures Claim(x', y.hist, q) {}
  }

  lemma FlowReceives(x: End, y: End, y': End)
    requires Flow(x, y) && Receives(x, y, y')
    ensures Flow(x, y')
  {
    forall h | h in y'.wire && h.ack ensures Claim(x, y'.hist, h.ackNum) {
      if h in y.wire { DoneGrows(x.wire, y.hist, y'.hist, h.ackNum); }
    }
    forall g | g in x.wire && g.data != [] ensures Queued(x.sock.tx, g) || TakenBy(y'.hist, g) {
      if TakenBy(y.hist, g) { TakenGrows(y.hist, y'.hist, g); }
    }
  }

  /** A step of x, seen from both directions. */
  lemma FullKept(x: End, x': End, y: End)
    requires Full(x, y) && StrictPair(x'.hist, y.hist) && Sends(x, x') && Receives(y, x, x')
    ensures Full(x', y)
  {
    FlowSends(x, x', y);
    FlowReceives(y, x, x');
  }

  // ----- pieces of a step -----

  lemma {:induction false} ResentOld(tx: seq<TxEntry>, q: nat, wire: set<Segment>)
    requires EntriesOk(tx, wire)
    ensures Set(Resent(tx, q)) <= wire
  {
    if tx != [] {
      ResentOld(tx[1..], q, wire);
      assert tx[0] in tx;
    }
  }

  lemma {:induction false} FastResentOld(tx: seq<TxEntry>, q: nat, wire: set<Segment>)
    requires EntriesOk(tx, wire)
    ensures Set(FastResent(tx, q)) <= wire
  {
    if tx != [] {
      FastResentOld(tx[1..], q, wire);
      assert tx[0] in tx;
    }
  }

  /** A queue that an acknowledgement may leave: of old segments, with all entries that stay uncovered. */
  ghost predicate Kept(tx: seq<TxEntry>, ack: nat, r: seq<TxEntry>, wire: set<Segment>) {
    EntriesOk(r, wire) && forall i :: 0 <= i < |tx| && tx[i].waitAck > ack ==> Queued(r, tx[i].seg)
  }

  lemma DropKept(tx: seq<TxEntry>, ack: nat, m: nat, wire: set<Segment>)
    requires EntriesOk(tx, wire) && m <= |tx| && forall i :: 0 <= i < m ==> tx[i].waitAck <= ack
    ensures Kept(tx, ack, tx[m..], wire)
  {
    forall i | 0 <= i < |tx| && tx[i].waitAck > ack ensures Queued(tx[m..], tx[i].seg) {
      assert tx[m..][i - m] == tx[i];
    }
  }

  /** Nothing here depends on the duplicate counters. */
  lemma DupsKept(tx: seq<TxEntry>, ack: nat, dups: seq<TxEntry>, wire: set<Segment>)
    requires EntriesOk(tx, wire)
    requires |dups| == |tx| && forall i :: 0 <= i < |tx| ==> dups[i] == tx[i].(dup := dups[i].dup)
    ensures Kept(tx, ack, dups, wire)
  {
    forall e | e in dups ensures EntryOk(e, wire) {
      var i :| 0 <= i < |dups| && dups[i] == e;
      assert tx[i] in tx;
    }
    forall i | 0 <= i < |tx| ensures Queued(dups, tx[i].seg) {
      assert dups[i].seg == tx[i].seg;
    }
  }

  /** An acknowledgement keeps every entry it does not cover, and sends only old segments. */
  lemma AckKept(tx: seq<TxEntry>, ack: nat, seqNum: nat, wire: set<Segment>)
    requires QueueOrdered(tx, seqNum) && EntriesOk(tx, wire)
    ensures Kept(tx, ack, AckTx(tx, ack), wire)
    ensures Set(AckOut(tx, ack)) <= wire
  {
    var k := Covered(tx, ack);
    OldestCovered(tx, ack, seqNum);
    AckRemovesTwo(tx, ack, k);
    if k > 0 {
      DropKept(tx, ack, Min(2, k), wire);
    } else {
      DupsKept(tx, ack, CountDups(tx, ack), wire);
      FastResentOld(CountDups(tx, ack), ack, wire);
    }
  }

  /** handle_ack with an acknowledgement of the peer. */
  lemma AckedKeeps(x: End, y: End, h: Segment)
    requires Core(x, y) && Ordered(x) && h in y.wire && h.ack
    ensures Stays(x, x.(sock := HandleAck(x.sock, h.ackNum)), y)
    ensures Set(AckOut(x.sock.tx, h.ackNum)) <= x.wire
  {
    var x' := x.(sock := HandleAck(x.sock, h.ackNum));
    AckKept(x.sock.tx, h.ackNum, x.sock.seqNum, x.wire);
    if Full(x, y) { AckedFull(x, x', y, h); }
  }

  lemma AckedFull(x: End, x': End, y: End, h: Segment)
    requires Full(x, y) && h in y.wire && h.ack && x' == x.(sock := x.sock.(tx := x'.sock.tx))
    requires EntriesOk(x.sock.tx, x.wire) && Kept(x.sock.tx, h.ackNum, x'.sock.tx, x.wire)
    ensures Full(x', y)
  {
    AckRemembers(x, y, h.ackNum, x'.sock.tx);
    assert Sound(x', y) by { forall q: nat | Claim(x, y.hist, q) ensures Claim(x', y.hist, q) {} }
    assert Flow(y, x');
  }

  lemma AckRemembers(x: End, y: End, ack: nat, tx: seq<TxEntry>)
    requires EntriesOk(x.sock.tx, x.wire) && Kept(x.sock.tx, ack, tx, x.wire)
    requires Remembered(x, y) && Claim(x, y.hist, ack)
    ensures Remembered(x.(sock := x.sock.(tx := tx)), y)
  {
    forall g | g in x.wire && g.data != [] ensures Queued(tx, g) || TakenBy(y.hist, g) {
      if Queued(x.sock.tx, g) {
        var i :| 0 <= i < |x.sock.tx| && x.sock.tx[i].seg == g;
        assert EntryOk(x.sock.tx[i], x.wire);
      }
    }
  }

  /** Nothing has changed on the receiving side but the segments that carry its acknowledgement. */
  lemma SameReceives(x: End, x': End, y: End)
    requires Flow(y, x) && x'.sock.ackNum == x.sock.ackNum
    requires x'.hist.base == x.hist.base && x'.hist.links == x.hist.links && x'.hist.got == x.hist.got
    requires x'.hist.taken == x.hist.taken
    requires forall g :: g in x'.wire && g !in x.wire && g.ack ==>
      x.hist.base in x.hist.links && g.ackNum == x.sock.ackNum
    ensures Receives(y, x, x')
  {
    if x.hist.base in x.hist.links { DoneGrows(y.wire, x.hist, x'.hist, x.sock.ackNum); }
  }

  /** A change of state alone. */
  lemma StateKeeps(x: End, y: End, st: State)
    requires Core(x, y) && SockOk(x.sock.(state := st), x.hist) && Limit(x.sock) <= Limit(x.sock.(state := st))
    ensures Stays(x, x.(sock := x.sock.(state := st)), y)
  {
    var x' := x.(sock := x.sock.(state := st));
    if Full(x, y) {
      SameReceives(x, x', y);
      FullKept(x, x', y);
    }
  }

  lemma WireAdds(wire: set<Segment>, g: Segment, h: Hist)
    requires WireAll(wire, h) && WireOk(g, h)
    ensures WireAll(wire + {g}, h)
  {
  }

  lemma EntriesAdd(tx: seq<TxEntry>, wire: set<Segment>, g: Segment)
    requires EntriesOk(tx, wire)
    ensures EntriesOk(tx, wire + {g})
  {
  }

  /** A pure acknowledgement is transmitted. */
  lemma EmitKeeps(x: End, y: End)
    requires Core(x, y) && x.hist.base in x.hist.links
    ensures Stays(x, x.(wire := x.wire + {Stamp(x.sock, Ack, [])}), y)
  {
    var g := Stamp(x.sock, Ack, []);
    WireAdds(x.wire, g, x.hist);
    EntriesAdd(x.sock.tx, x.wire, g);
    if Full(x, y) { EmitFull(x, y, g); }
  }

  lemma EmitFull(x: End, y: End, g: Segment)
    requires Full(x, y) && g.data == [] && (g.ack ==> x.hist.base in x.hist.links && g.ackNum == x.sock.ackNum)
    ensures Full(x.(wire := x.wire + {g}), y)
  {
    var x' := x.(wire := x.wire + {g});
    SameReceives(x, x', y);
    assert Sends(x, x');
    FullKept(x, x', y);
  }

  /** The queue after tcp_send with need_ack. */
  ghost predicate QueuedToo(tx: seq<TxEntry>, r: seq<TxEntry>, g: Segment) {
    (forall h :: Queued(tx, h) ==> Queued(r, h)) && Queued(r, g)
  }

  lemma EnqueueOk(s: Socket, k: Kind, data: seq<Byte>, m: TxMem, wire: set<Segment>)
    requires EntriesOk(s.tx, wire) && s.seqNum + |data| < TWO32
    ensures var r, g := Enqueue(s, k, data, m), Stamp(s, k, data);
      r.seqNum == s.seqNum + |data| && EntriesOk(r.tx, wire + {g}) && QueuedToo(s.tx, r.tx, g)
  {
    var r := Enqueue(s, k, data, m);
    assert r.tx[|s.tx|].seg == Stamp(s, k, data);
    forall g | Queued(s.tx, g) ensures Queued(r.tx, g) {
      var i :| 0 <= i < |s.tx| && s.tx[i].seg == g;
      assert r.tx[i].seg == g;
    }
  }

  /** One segment is transmitted and queued. */
  lemma SendsOne(x: End, x': End, g: Segment)
    requires x'.wire == x.wire + {g} && QueuedToo(x.sock.tx, x'.sock.tx, g) && Limit(x.sock) <= Limit(x'.sock)
    requires g.data != [] ==> g.seqNum + |g.data| > Limit(x.sock)
    ensures Sends(x, x')
  {
  }

  /** A new opening begins with its SYN. */
  lemma OpenWire(wire: set<Segment>, h: Hist, g: Segment)
    requires Shape(h) && WireAll(wire, h) && g.seqNum + 1 !in h.streams
    requires g.syn && !g.fin && g.data == []
    ensures WireAll(wire + {g}, Opened(h, g.seqNum + 1))
  {
    var b := g.seqNum + 1;
    OpenedGrown(h, b);
    WireGrown(wire, h, Opened(h, b));
    WireAdds(wire, g, Opened(h, b));
  }

  /** connect: the socket with its SYN queued, in a new opening. */
  function Calling(x: End, m: TxMem): End {
    x.(sock := Advance(Enqueue(x.sock, Syn, [], m)).(state := SYN_SENT), wire := x.wire + {Stamp(x.sock, Syn, [])},
       hist := Opened(x.hist, x.sock.seqNum + 1))
  }

  lemma CallingLocal(x: End, m: TxMem)
    requires SockOk(x.sock, x.hist) && x.sock.state == CLOSED && x.sock.seqNum + 2 < TWO32
    requires WireAll(x.wire, x.hist) && EntriesOk(x.sock.tx, x.wire)
    requires Shape(x.hist) && x.sock.seqNum + 1 !in x.hist.streams
    ensures Local(Calling(x, m))
  {
    EnqueueOk(x.sock, Syn, [], m, x.wire);
    OpenWire(x.wire, x.hist, Stamp(x.sock, Syn, []));
    CallingSock(x.sock, x.hist, m);
  }

  lemma CallingSock(s: Socket, h: Hist, m: TxMem)
    requires Shape(h) && s.seqNum + 2 < TWO32 && s.seqNum + 1 !in h.streams
    ensures var s', h' := Advance(Enqueue(s, Syn, [], m)).(state := SYN_SENT), Opened(h, s.seqNum + 1);
      SockOk(s', h') && AckOk(s', h')
  {
  }

  lemma CallingFull(x: End, y: End, m: TxMem)
    requires x.sock.state == CLOSED && x.sock.seqNum + 2 < TWO32
    ensures Full(Calling(x, m), y) || !Full(x, y) || !Local(x) || !Ok(x.hist) || !StrictPair(Calling(x, m).hist, y.hist)
  {
    var x', g := Calling(x, m), Stamp(x.sock, Syn, []);
    if Full(x, y) && Local(x) && Ok(x.hist) && StrictPair(x'.hist, y.hist) {
      EnqueueOk(x.sock, Syn, [], m, x.wire);
      OpenedApart(x.hist, x.sock.seqNum + 1);
      SendsOne(x, x', g);
      assert Receives(y, x, x');
      FullKept(x, x', y);
    }
  }

  lemma CallingStays(x: End, m: TxMem)
    requires x.sock.state == CLOSED && x.sock.seqNum + 2 < TWO32
    ensures Local(Calling(x, m)) || !Local(x) || !Ok(x.hist)
  {
    if Local(x) && Ok(x.hist) {
      OpenedApart(x.hist, x.sock.seqNum + 1);
      CallingLocal(x, m);
    }
  }

  lemma ConnectKeeps(x: End, x': End, y: End, m: TxMem)
    requires x.sock.state == CLOSED && x.sock.seqNum + 2 < TWO32 && x' == Calling(x, m)
    ensures Stays(x, x', y)
  {
    OpenedKeeps(x.hist, y.hist, x'.hist.base);
    CallingStays(x, m);
    CallingFull(x, y, m);
  }

  /** Old and new segment fit the grown history. */
  lemma WireNext(wire: set<Segment>, h: Hist, h': Hist, g: Segment)
    requires WireAll(wire, h) && Shape(h) && Grown(h, h') && WireOk(g, h')
    ensures WireAll(wire + {g}, h')
  {
    WireGrown(wire, h, h');
    WireAdds(wire, g, h');
  }

  /** One segment is transmitted and queued while what has been received stays as it is. */
  lemma TransmitFull(x: End, x': End, y: End, g: Segment)
    requires x'.wire == x.wire + {g} && QueuedToo(x.sock.tx, x'.sock.tx, g) && Limit(x.sock) <= Limit(x'.sock)
    requires g.data != [] ==> g.seqNum + |g.data| > Limit(x.sock)
    requires x'.hist.base == x.hist.base && x'.hist.links == x.hist.links && x'.hist.got == x.hist.got
    requires x'.hist.taken == x.hist.taken && x.hist.base in x.hist.links
    requires x'.sock.ackNum == x.sock.ackNum == g.ackNum
    ensures Full(x', y) || !Full(x, y) || !StrictPair(x'.hist, y.hist)
  {
    if Full(x, y) && StrictPair(x'.hist, y.hist) {
      SendsOne(x, x', g);
      SameReceives(x, x', y);
      FullKept(x, x', y);
    }
  }

  // ----- tcp_socket_send -----

  function Carrying(x: End, d: seq<Byte>, m: TxMem): End {
    x.(sock := Enqueue(x.sock, Ack, d, m), wire := x.wire + {Stamp(x.sock, Ack, d)}, hist := Sent(x.hist, d))
  }

  lemma SentSlice(h: Hist, d: seq<Byte>, g: Segment)
    requires h.base in h.streams && g.data == d && g.seqNum == h.base + |h.streams[h.base]|
    ensures Slice(Sent(h, d), h.base, g)
  {
  }

  lemma CarryingLocal(x: End, d: seq<Byte>, m: TxMem)
    requires x.sock.state == ESTABLISHED && x.sock.seqNum + |d| + 1 < TWO32
    ensures Local(Carrying(x, d, m)) || !Local(x) || !Ok(x.hist)
  {
    if Local(x) && Ok(x.hist) {
      var g := Stamp(x.sock, Ack, d);
      EnqueueOk(x.sock, Ack, d, m, x.wire);
      SentOk(x.hist, d);
      SentSlice(x.hist, d, g);
      WireNext(x.wire, x.hist, Sent(x.hist, d), g);
    }
  }

  lemma SendKeeps(x: End, x': End, y: End, d: seq<Byte>, m: TxMem)
    requires x.sock.state == ESTABLISHED && x.sock.seqNum + |d| + 1 < TWO32 && x' == Carrying(x, d, m)
    requires Core(x, y)
    ensures Stays(x, x', y)
  {
    SentKeeps(x.hist, y.hist, d);
    CarryingLocal(x, d, m);
    CarryingFull(x, x', y, d, m);
  }

  lemma CarryingFull(x: End, x': End, y: End, d: seq<Byte>, m: TxMem)
    requires x.sock.state == ESTABLISHED && x.sock.seqNum + |d| + 1 < TWO32 && x' == Carrying(x, d, m)
    ensures Full(x', y) || !Local(x) || !Full(x, y) || !StrictPair(x'.hist, y.hist)
  {
    if Local(x) {
      EnqueueOk(x.sock, Ack, d, m, x.wire);
      TransmitFull(x, x', y, Stamp(x.sock, Ack, d));
    }
  }

  // ----- tcp_socket_close -----

  function Leaving(x: End, m: TxMem): End {
    x.(sock := Advance(Enqueue(x.sock, FinAck, [], m)).(state := FIN_WAIT_1),
       wire := x.wire + {Stamp(x.sock, FinAck, [])}, hist := FinSent(x.hist))
  }

  lemma LeavingLocal(x: End, m: TxMem)
    requires x.sock.state == ESTABLISHED && x.sock.seqNum + 2 < TWO32
    ensures Local(Leaving(x, m)) || !Local(x) || !Ok(x.hist)
  {
    if Local(x) && Ok(x.hist) {
      var g := Stamp(x.sock, FinAck, []);
      EnqueueOk(x.sock, FinAck, [], m, x.wire);
      LeavingWire(x.wire, x.hist, g);
    }
  }

  lemma LeavingWire(wire: set<Segment>, h: Hist, g: Segment)
    requires WireAll(wire, h) && Ok(h) && h.base in h.links
    requires g.fin && !g.syn && g.data == [] && g.seqNum == h.base + |h.streams[h.base]|
    ensures WireAll(wire + {g}, FinSent(h))
  {
    FinSentOk(h);
    assert IsFin(FinSent(h), h.base, g);
    WireNext(wire, h, FinSent(h), g);
  }

  lemma CloseKeeps(x: End, x': End, y: End, m: TxMem)
    requires x.sock.state == ESTABLISHED && x.sock.seqNum + 2 < TWO32 && x' == Leaving(x, m)
    requires Core(x, y)
    ensures Stays(x, x', y)
  {
    FinSentKeeps(x.hist, y.hist);
    LeavingLocal(x, m);
    LeavingFull(x, x', y, m);
  }

  lemma LeavingFull(x: End, x': End, y: End, m: TxMem)
    requires x.sock.state == ESTABLISHED && x.sock.seqNum + 2 < TWO32 && x' == Leaving(x, m)
    ensures Full(x', y) || !Local(x) || !Full(x, y) || !StrictPair(x'.hist, y.hist)
  {
    if Local(x) {
      EnqueueOk(x.sock, FinAck, [], m, x.wire);
      TransmitFull(x, x', y, Stamp(x.sock, FinAck, []));
    }
  }

  // ----- what the peer's numbers mean -----

  /** A socket between openings has accepted everything before any SYN of the peer. */
  lemma DoneAtSyn(wire: set<Segment>, y: Hist, x: Hist, b: nat)
    requires Idle(x) && WireAll(wire, y) && b in y.streams
    ensures Pair(x, y) && StrictPair(x, y) ==> Done(wire, x, b)
  {
    if !(Pair(x, y) && StrictPair(x, y)) { return; }
    forall g | g in wire && g.data != [] && g.seqNum + |g.data| <= b ensures TakenBy(x, g) {
      assert WireOk(g, y);
      var c :| Slice(y, c, g);
      AllAccepted(y, x, c);
      assert Within(x, y.links[c], g);
    }
  }

  /** Data at ack_num continues the opening that ack_num stands in. */
  lemma InStream(y: Hist, g: Segment, b: nat, got: seq<Byte>)
    requires Ok(y) && WireOk(g, y) && g.data != [] && Prefix(y, b, got) && g.seqNum == b + |got|
    ensures Prefix(y, b, got + g.data)
  {
    var c :| Slice(y, c, g);
    OneStretch(y, b, c, g.seqNum);
    assert got + g.data <= y.streams[b];
  }

  /** ... and when it is accepted, everything up to its end has been. */
  lemma DoneTaken(wire: set<Segment>, y: Hist, x: Hist, d: seq<Byte>)
    requires Ok(y) && WireAll(wire, y) && x.base in x.links && x.base in x.got
    requires Prefix(y, x.links[x.base], x.got[x.base] + d) && Done(wire, x, x.links[x.base] + |x.got[x.base]|)
    ensures Done(wire, Took(x, d), x.links[x.base] + |x.got[x.base]| + |d|)
  {
    var b, x' := x.links[x.base], Took(x, d);
    forall g | g in wire && g.data != [] && g.seqNum + |g.data| <= b + |x'.got[x.base]| ensures TakenBy(x', g) {
      if g.seqNum + |g.data| <= b + |x.got[x.base]| {
        TakenGrows(x, x', g);
      } else {
        assert WireOk(g, y);
        var c :| Slice(y, c, g);
        OneStretch(y, b, c, g.seqNum + |g.data|);
        assert Within(x', x.base, g);
      }
    }
  }

  /** A FIN of the peer at ack_num is the one of the opening that ack_num stands in, with everything before it. */
  lemma FinWhole(y: Hist, x: Hist, g: Segment)
    requires Ok(y) && WireOk(g, y) && g.fin && x.base in x.links && x.base in x.got
    requires Prefix(y, x.links[x.base], x.got[x.base]) && g.seqNum == x.links[x.base] + |x.got[x.base]|
    ensures Whole(y, x, x.base)
  {
    var c :| IsFin(y, c, g);
    OneStretch(y, x.links[x.base], c, g.seqNum);
  }

  /** No data lies where a FIN does. */
  lemma DoneFin(wire: set<Segment>, y: Hist, x: Hist, b: nat)
    requires Ok(y) && WireAll(wire, y) && b in y.streams && Done(wire, x, b + |y.streams[b]|)
    ensures Done(wire, x, b + |y.streams[b]| + 1)
  {
    forall g | g in wire && g.data != [] && g.seqNum + |g.data| <= b + |y.streams[b]| + 1 ensures TakenBy(x, g) {
      assert WireOk(g, y);
      var c :| Slice(y, c, g);
      NotBehind(y, b, c, g);
    }
  }

  lemma NotBehind(y: Hist, b: nat, c: nat, g: Segment)
    requires Ok(y) && b in y.streams && Slice(y, c, g) && g.data != []
    ensures g.seqNum + |g.data| != b + |y.streams[b]| + 1
  {
    assert c < b ==> c + |y.streams[c]| < b;
    assert b < c ==> b + |y.streams[b]| < c;
  }

  /** An opening ends at seq_num at the latest. */
  lemma BelowSeq(s: Socket, h: Hist, b: nat)
    requires Ok(h) && SockOk(s, h) && b in h.streams
    ensures b + |h.streams[b]| <= s.seqNum
  {
    assert b < h.base ==> b + |h.streams[b]| < h.base;
  }

  /** Where a synchronised socket stands in the peer's numbers. */
  lemma InsidePeer(x: Hist, s: Socket, y: Hist)
    requires Shape(x) && x.base in x.links && Fits(y, x) && Ok(y) && SockOk(s, y)
    ensures var b, got := x.links[x.base], x.got[x.base]; Prefix(y, b, got) && b + |got| <= s.seqNum
  {
    assert Prefix(y, x.links[x.base], x.got[x.base]);
    BelowSeq(s, y, x.links[x.base]);
  }

  // ----- data accepted -----

  function Taking(x: End, g: Segment): End {
    x.(sock := x.sock.(rx := x.sock.rx + [g.data], ackNum := g.seqNum + |g.data|, state := ESTABLISHED),
       hist := Took(x.hist, g.data))
  }

  lemma TakingLocal(x: End, g: Segment)
    requires x.sock.state in {SYN_RCVD, ESTABLISHED} && g.seqNum == x.sock.ackNum
    ensures Local(Taking(x, g)) || !Local(x) || !Ok(x.hist)
  {
    if Local(x) && Ok(x.hist) {
      TookOk(x.hist, g.data);
      WireGrown(x.wire, x.hist, Took(x.hist, g.data));
    }
  }

  lemma TakingFull(x: End, x': End, y: End, g: Segment)
    requires x.sock.state in {SYN_RCVD, ESTABLISHED} && g.seqNum == x.sock.ackNum && x' == Taking(x, g)
    requires SockOk(x.sock, x.hist) && AckOk(x.sock, x.hist)
    requires Ok(y.hist) && SockOk(y.sock, y.hist) && WireAll(y.wire, y.hist)
    requires Prefix(y.hist, x.hist.links[x.hist.base], x.hist.got[x.hist.base] + g.data)
    ensures Full(x', y) || !Full(x, y) || !StrictPair(x'.hist, y.hist)
  {
    if Full(x, y) && StrictPair(x'.hist, y.hist) {
      TakingReceives(x, x', y, g);
      FullKept(x, x', y);
    }
  }

  lemma TakingReceives(x: End, x': End, y: End, g: Segment)
    requires x.sock.state in {SYN_RCVD, ESTABLISHED} && g.seqNum == x.sock.ackNum && x' == Taking(x, g)
    requires SockOk(x.sock, x.hist) && AckOk(x.sock, x.hist) && Flow(y, x)
    requires Ok(y.hist) && SockOk(y.sock, y.hist) && WireAll(y.wire, y.hist)
    requires Prefix(y.hist, x.hist.links[x.hist.base], x.hist.got[x.hist.base] + g.data)
    ensures Receives(y, x, x')
  {
    DoneTaken(y.wire, y.hist, x.hist, g.data);
    BelowSeq(y.sock, y.hist, x.hist.links[x.hist.base]);
  }

  lemma TakeKeeps(x: End, x': End, y: End, g: Segment)
    requires x.sock.state in {SYN_RCVD, ESTABLISHED} && g.seqNum == x.sock.ackNum && x' == Taking(x, g)
    requires Core(x, y) && g in y.wire && g.data != []
    ensures Stays(x, x', y)
  {
    InsidePeer(x.hist, y.sock, y.hist);
    InStream(y.hist, g, x.hist.links[x.hist.base], x.hist.got[x.hist.base]);
    TookKeeps(x.hist, y.hist, g.data);
    TakingLocal(x, g);
    TakingFull(x, x', y, g);
  }

  // ----- synchronisation -----

  /** WireOk does not depend on links. */
  lemma WireSynced(wire: set<Segment>, h: Hist, p: nat)
    requires WireAll(wire, h)
    ensures WireAll(wire, Synced(h, p))
  {
    forall g | g in wire ensures WireOk(g, Synced(h, p)) {
      assert WireOk(g, h);
      if g.data != [] {
        var b :| Slice(h, b, g);
        assert Slice(Synced(h, p), b, g);
      }
      if g.fin {
        var b :| IsFin(h, b, g);
        assert IsFin(Synced(h, p), b, g);
      }
    }
  }

  /** A SYN of the peer may be acknowledged. */
  lemma ClaimSyn(x: Hist, y: End, g: Segment)
    requires g in y.wire && g.syn && Idle(x)
    ensures Claim(y, x, g.seqNum + 1) || !Pair(x, y.hist) || !StrictPair(x, y.hist) || !Local(y)
  {
    if Ok(y.hist) && Local(y) {
      assert WireOk(g, y.hist);
      BelowSeq(y.sock, y.hist, g.seqNum + 1);
      DoneAtSyn(y.wire, y.hist, x, g.seqNum + 1);
    }
  }

  /** In SYN_SENT, after handle_ack. */
  function Meeting(x: End, g: Segment): End {
    x.(sock := x.sock.(ackNum := g.seqNum + 1, state := ESTABLISHED), hist := Synced(x.hist, g.seqNum + 1))
  }

  lemma MeetingLocal(x: End, g: Segment)
    requires x.sock.state == SYN_SENT
    ensures Local(Meeting(x, g)) || !Local(x) || !Shape(x.hist)
  {
    if Local(x) { WireSynced(x.wire, x.hist, g.seqNum + 1); }
  }

  lemma MeetingReceives(x: End, x': End, y: End, g: Segment)
    requires x' == Meeting(x, g) && Shape(x.hist) && x.hist.base !in x.hist.links && Claim(y, x.hist, g.seqNum + 1)
    ensures Receives(y, x, x') && Wider(x.hist, x'.hist)
  {
    DoneGrows(y.wire, x.hist, x'.hist, g.seqNum + 1);
  }

  lemma MeetingFull(x: End, x': End, y: End, g: Segment)
    requires x.sock.state == SYN_SENT && x' == Meeting(x, g) && Shape(x.hist) && x.hist.base !in x.hist.links
    requires Claim(y, x.hist, g.seqNum + 1)
    ensures Full(x', y) || !Full(x, y) || !StrictPair(x'.hist, y.hist)
  {
    MeetingReceives(x, x', y, g);
    if Full(x, y) && StrictPair(x'.hist, y.hist) { FullKept(x, x', y); }
  }

  /** Synchronising keeps the pair, and for a fresh SYN the strict laws. */
  lemma MeetingPair(x: End, y: End, g: Segment, h: Hist)
    requires g in y.wire && g.syn && x.hist.base !in x.hist.links && h == Synced(x.hist, g.seqNum + 1)
    ensures Pair(h, y.hist) || !Core(x, y)
    ensures Unused(x.hist, g.seqNum + 1) ==> StrictPair(h, y.hist) || !Core(x, y) || !StrictPair(x.hist, y.hist)
  {
    if WireAll(y.wire, y.hist) {
      assert WireOk(g, y.hist);
      SyncPair(x.hist, y.hist, g.seqNum + 1, h);
    }
  }

  lemma SyncPair(x: Hist, y: Hist, p: nat, h: Hist)
    requires h == Synced(x, p) && x.base !in x.links && p in y.streams
    ensures Pair(h, y) || !Pair(x, y)
    ensures Unused(x, p) ==> StrictPair(h, y) || !Pair(x, y) || !StrictPair(x, y)
  {
    SyncedKeeps(x, y, p);
  }

  lemma MeetCore(x: End, x': End, y: End, g: Segment)
    requires x.sock.state == SYN_SENT && x' == Meeting(x, g) && g in y.wire && g.syn && x.hist.base !in x.hist.links
    ensures Core(x', y) || !Core(x, y)
  {
    MeetingPair(x, y, g, x'.hist);
    MeetingLocal(x, g);
  }

  lemma MeetFull(x: End, x': End, y: End, g: Segment)
    requires x.sock.state == SYN_SENT && x' == Meeting(x, g) && g in y.wire && g.syn && x.hist.base !in x.hist.links
    requires Unused(x.hist, g.seqNum + 1)
    ensures Full(x', y) || !Full(x, y) || !Core(x, y)
  {
    MeetingPair(x, y, g, x'.hist);
    ClaimSyn(x.hist, y, g);
    if Shape(x.hist) && Claim(y, x.hist, g.seqNum + 1) { MeetingFull(x, x', y, g); }
  }

  /** In LISTEN. */
  function Answering(x: End, g: Segment, m: TxMem): End {
    var s := x.sock.(ackNum := g.seqNum + 1);
    x.(sock := Advance(Enqueue(s, SynAck, [], m)).(state := SYN_RCVD), wire := x.wire + {Stamp(s, SynAck, [])},
       hist := Synced(Opened(x.hist, x.sock.seqNum + 1), g.seqNum + 1))
  }

  lemma AnsweringSock(s: Socket, h: Hist, g: Segment, m: TxMem)
    requires Shape(h) && s.seqNum + 2 < TWO32 && s.seqNum + 1 !in h.streams
    ensures var s' := Advance(Enqueue(s.(ackNum := g.seqNum + 1), SynAck, [], m)).(state := SYN_RCVD);
      var h' := Synced(Opened(h, s.seqNum + 1), g.seqNum + 1);
      SockOk(s', h') && AckOk(s', h')
  {
  }

  lemma AnsweringParts(x: End, g: Segment, m: TxMem)
    requires x.sock.seqNum + 2 < TWO32 && x.sock.seqNum + 1 !in x.hist.streams && Shape(x.hist)
    requires WireAll(x.wire, x.hist) && EntriesOk(x.sock.tx, x.wire)
    ensures Local(Answering(x, g, m))
  {
    var s := x.sock.(ackNum := g.seqNum + 1);
    EnqueueOk(s, SynAck, [], m, x.wire);
    OpenWire(x.wire, x.hist, Stamp(s, SynAck, []));
    WireSynced(x.wire + {Stamp(s, SynAck, [])}, Opened(x.hist, x.sock.seqNum + 1), g.seqNum + 1);
    AnsweringSock(x.sock, x.hist, g, m);
  }

  lemma AnsweringLocal(x: End, g: Segment, m: TxMem)
    requires x.sock.state == LISTEN && x.sock.seqNum + 2 < TWO32
    ensures Local(Answering(x, g, m)) || !Local(x) || !Ok(x.hist)
  {
    if Local(x) && Ok(x.hist) {
      OpenedApart(x.hist, x.sock.seqNum + 1);
      AnsweringParts(x, g, m);
    }
  }

  lemma AnsweringReceives(x: End, x': End, y: End, g: Segment, m: TxMem)
    requires x' == Answering(x, g, m) && Shape(x.hist) && x.sock.seqNum + 1 !in x.hist.streams
    requires Claim(y, x.hist, g.seqNum + 1)
    ensures Receives(y, x, x')
  {
    DoneGrows(y.wire, x.hist, x'.hist, g.seqNum + 1);
  }

  lemma AnsweringSends(x: End, x': End, g: Segment, m: TxMem)
    requires x.sock.state == LISTEN && x.sock.seqNum + 2 < TWO32 && x' == Answering(x, g, m)
    requires EntriesOk(x.sock.tx, x.wire)
    ensures Sends(x, x')
  {
    var s := x.sock.(ackNum := g.seqNum + 1);
    EnqueueOk(s, SynAck, [], m, x.wire);
    SendsOne(x, x', Stamp(s, SynAck, []));
  }

  lemma AnsweringFull(x: End, x': End, y: End, g: Segment, m: TxMem)
    requires x.sock.state == LISTEN && x.sock.seqNum + 2 < TWO32 && x' == Answering(x, g, m)
    requires Shape(x.hist) && x.sock.seqNum + 1 !in x.hist.streams && EntriesOk(x.sock.tx, x.wire)
    requires Claim(y, x.hist, g.seqNum + 1)
    ensures Full(x', y) || !Full(x, y) || !StrictPair(x'.hist, y.hist)
  {
    AnsweringReceives(x, x', y, g, m);
    AnsweringSends(x, x', g, m);
    if Full(x, y) && StrictPair(x'.hist, y.hist) { FullKept(x, x', y); }
  }

  lemma SynPair(x: Hist, y: Hist, b: nat, p: nat, h1: Hist, h: Hist)
    requires h1 == Opened(x, b) && h == Synced(h1, p) && b !in x.links && p in y.streams
    requires Idle(x) && b > x.base + |At(x.streams, x.base)|
    ensures Pair(h, y) || !Pair(x, y)
    ensures Unused(x, p) ==> StrictPair(h, y) || !Pair(x, y) || !StrictPair(x, y)
  {
    OpenedKeeps(x, y, b);
    SyncedKeeps(h1, y, p);
  }

  lemma AnsweringPair(x: End, y: End, g: Segment, h: Hist)
    requires g in y.wire && g.syn && x.sock.state == LISTEN && SockOk(x.sock, x.hist)
    requires x.sock.seqNum + 1 !in x.hist.links
    requires h == Synced(Opened(x.hist, x.sock.seqNum + 1), g.seqNum + 1)
    ensures Pair(h, y.hist) || !Core(x, y)
    ensures Unused(x.hist, g.seqNum + 1) ==> StrictPair(h, y.hist) || !Core(x, y) || !StrictPair(x.hist, y.hist)
  {
    if WireAll(y.wire, y.hist) {
      assert WireOk(g, y.hist);
      SynPair(x.hist, y.hist, x.sock.seqNum + 1, g.seqNum + 1, Opened(x.hist, x.sock.seqNum + 1), h);
    }
  }

  lemma AnswerCore(x: End, x': End, y: End, g: Segment, m: TxMem)
    requires x.sock.state == LISTEN && x.sock.seqNum + 2 < TWO32 && x' == Answering(x, g, m) && g in y.wire && g.syn
    requires SockOk(x.sock, x.hist) && x.sock.seqNum + 1 !in x.hist.streams && Shape(x.hist)
    ensures Core(x', y) || !Core(x, y)
  {
    AnsweringPair(x, y, g, x'.hist);
    AnsweringLocal(x, g, m);
  }

  lemma AnswerFull(x: End, x': End, y: End, g: Segment, m: TxMem)
    requires x.sock.state == LISTEN && x.sock.seqNum + 2 < TWO32 && x' == Answering(x, g, m) && g in y.wire && g.syn
    requires SockOk(x.sock, x.hist) && x.sock.seqNum + 1 !in x.hist.streams && Shape(x.hist)
    requires Unused(x.hist, g.seqNum + 1)
    ensures Full(x', y) || !Full(x, y) || !Core(x, y)
  {
    AnsweringPair(x, y, g, x'.hist);
    ClaimSyn(x.hist, y, g);
    if Claim(y, x.hist, g.seqNum + 1) && EntriesOk(x.sock.tx, x.wire) { AnsweringFull(x, x', y, g, m); }
  }

  // ----- FIN -----

  /** A FIN may be acknowledged once its sender is in a state to be believed. */
  lemma FinLimit(s: Socket, h: Hist, b: nat)
    requires Ok(h) && SockOk(s, h) && b in h.fins
    ensures b + |h.streams[b]| + 1 <= Limit(s)
  {
    assert b < h.base ==> b + |h.streams[b]| < h.base;
  }

  /** The socket waits for more from the peer. */
  predicate Waiting(x: End) {
    x.hist.base in x.hist.links && x.hist.base !in x.hist.taken && x.hist.base in x.hist.got
  }

  /** The peer's FIN in order: all before it has been accepted, and it may be acknowledged. */
  lemma FinInOrder(x: End, y: End, g: Segment)
    requires g in y.wire && g.fin && g.seqNum == x.sock.ackNum && Waiting(x)
    ensures Whole(y.hist, x.hist, x.hist.base) || !Core(x, y)
    ensures Claim(y, x.hist, x.sock.ackNum + 1) || !Core(x, y) || !Sound(y, x)
  {
    if Core(x, y) {
      assert WireOk(g, y.hist);
      InsidePeer(x.hist, y.sock, y.hist);
      FinWhole(y.hist, x.hist, g);
      FinLimit(y.sock, y.hist, x.hist.links[x.hist.base]);
      if Sound(y, x) { DoneFin(y.wire, y.hist, x.hist, x.hist.links[x.hist.base]); }
    }
  }

  /** In FIN_WAIT_1, after handle_ack and before the last acknowledgement. */
  function Parting(x: End): End {
    x.(sock := x.sock.(ackNum := Add32(x.sock.ackNum, 1), state := CLOSED), hist := FinTook(x.hist))
  }

  lemma WireFinTook(wire: set<Segment>, h: Hist)
    requires WireAll(wire, h) && Ok(h) && h.base in h.links
    ensures WireAll(wire, FinTook(h))
  {
    FinTookOk(h);
    WireGrown(wire, h, FinTook(h));
  }

  lemma PartingLocal(x: End)
    requires x.sock.state == FIN_WAIT_1
    ensures Local(Parting(x)) || !Local(x) || !Ok(x.hist)
  {
    if Local(x) && Ok(x.hist) { WireFinTook(x.wire, x.hist); }
  }

  lemma PartingReceives(x: End, x': End, y: End)
    requires x' == Parting(x) && Waiting(x) && AckOk(x.sock, x.hist) && Claim(y, x.hist, x.sock.ackNum + 1)
    requires x.sock.ackNum + 1 < TWO32
    ensures Receives(y, x, x')
  {
    DoneGrows(y.wire, x.hist, x'.hist, x.sock.ackNum + 1);
  }

  lemma PartingFull(x: End, x': End, y: End)
    requires x.sock.state == FIN_WAIT_1 && x' == Parting(x) && Waiting(x) && AckOk(x.sock, x.hist)
    requires Claim(y, x.hist, x.sock.ackNum + 1) && x.sock.ackNum + 1 < TWO32
    ensures Full(x', y) || !Full(x, y) || !StrictPair(x'.hist, y.hist)
  {
    PartingReceives(x, x', y);
    if Full(x, y) && StrictPair(x'.hist, y.hist) { FullKept(x, x', y); }
  }

  lemma PartCore(x: End, x': End, y: End)
    requires x.sock.state == FIN_WAIT_1 && x' == Parting(x) && Waiting(x)
    ensures Core(x', y) || !Core(x, y)
  {
    FinTookKeeps(x.hist, y.hist);
    PartingLocal(x);
  }

  lemma AckSmall(x: End, y: End)
    requires Waiting(x)
    ensures Core(x, y) ==> x.sock.ackNum + 1 < TWO32
  {
    if Core(x, y) { InsidePeer(x.hist, y.sock, y.hist); }
  }

  lemma PartFull(x: End, x': End, y: End, g: Segment)
    requires x.sock.state == FIN_WAIT_1 && x' == Parting(x) && Waiting(x)
    requires g in y.wire && g.fin && g.seqNum == x.sock.ackNum
    ensures Full(x', y) || !Full(x, y) || !Core(x, y)
  {
    FinTookKeeps(x.hist, y.hist);
    FinInOrder(x, y, g);
    AckSmall(x, y);
    if AckOk(x.sock, x.hist) && Claim(y, x.hist, x.sock.ackNum + 1) && x.sock.ackNum + 1 < TWO32 {
      PartingFull(x, x', y);
    }
  }

  /** In ESTABLISHED, after handle_ack: the FIN is answered with a FIN. */
  function Ending(x: End, m: TxMem): End {
    var s := x.sock.(ackNum := Add32(x.sock.ackNum, 1));
    x.(sock := Enqueue(s, FinAck, [], m).(state := CLOSING), wire := x.wire + {Stamp(s, FinAck, [])},
       hist := FinSent(FinTook(x.hist)))
  }

  lemma EndingWire(wire: set<Segment>, h: Hist, g: Segment)
    requires WireAll(wire, h) && Ok(h) && h.base in h.links
    requires g.fin && !g.syn && g.data == [] && g.seqNum == h.base + |h.streams[h.base]|
    ensures WireAll(wire + {g}, FinSent(FinTook(h)))
  {
    var h1 := FinTook(h);
    FinTookOk(h);
    WireFinTook(wire, h);
    FinSentOk(h1);
    assert IsFin(FinSent(h1), h1.base, g);
    WireNext(wire, h1, FinSent(h1), g);
  }

  lemma EndingLocal(x: End, m: TxMem)
    requires x.sock.state == ESTABLISHED && x.sock.seqNum + 2 < TWO32
    ensures Local(Ending(x, m)) || !Local(x) || !Ok(x.hist)
  {
    if Local(x) && Ok(x.hist) {
      var s := x.sock.(ackNum := Add32(x.sock.ackNum, 1));
      EnqueueOk(s, FinAck, [], m, x.wire);
      EndingWire(x.wire, x.hist, Stamp(s, FinAck, []));
    }
  }

  lemma EndingReceives(x: End, x': End, y: End, m: TxMem)
    requires x' == Ending(x, m) && Waiting(x) && AckOk(x.sock, x.hist) && Claim(y, x.hist, x.sock.ackNum + 1)
    requires x.sock.ackNum + 1 < TWO32
    ensures Receives(y, x, x')
  {
    DoneGrows(y.wire, x.hist, x'.hist, x.sock.ackNum + 1);
  }

  lemma EndingSends(x: End, x': End, m: TxMem)
    requires x.sock.state == ESTABLISHED && x.sock.seqNum + 2 < TWO32 && x' == Ending(x, m)
    requires EntriesOk(x.sock.tx, x.wire)
    ensures Sends(x, x')
  {
    var s := x.sock.(ackNum := Add32(x.sock.ackNum, 1));
    EnqueueOk(s, FinAck, [], m, x.wire);
    SendsOne(x, x', Stamp(s, FinAck, []));
  }

  lemma EndingFull(x: End, x': End, y: End, m: TxMem)
    requires x.sock.state == ESTABLISHED && x.sock.seqNum + 2 < TWO32 && x' == Ending(x, m)
    requires Waiting(x) && AckOk(x.sock, x.hist) && EntriesOk(x.sock.tx, x.wire)
    requires Claim(y, x.hist, x.sock.ackNum + 1) && x.sock.ackNum + 1 < TWO32
    ensures Full(x', y) || !Full(x, y) || !StrictPair(x'.hist, y.hist)
  {
    EndingReceives(x, x', y, m);
    EndingSends(x, x', m);
    if Full(x, y) && StrictPair(x'.hist, y.hist) { FullKept(x, x', y); }
  }

  lemma EndingPair(x: End, y: End, h: Hist)
    requires h == FinSent(FinTook(x.hist)) && x.hist.base in x.hist.links
    ensures Pair(h, y.hist) || !Pair(x.hist, y.hist)
    ensures Whole(y.hist, x.hist, x.hist.base) ==>
      StrictPair(h, y.hist) || !Pair(x.hist, y.hist) || !StrictPair(x.hist, y.hist)
  {
    FinTookKeeps(x.hist, y.hist);
    FinSentKeeps(FinTook(x.hist), y.hist);
  }

  lemma EndCore(x: End, x': End, y: End, m: TxMem)
    requires x.sock.state == ESTABLISHED && x.sock.seqNum + 2 < TWO32 && x' == Ending(x, m) && Waiting(x)
    ensures Core(x', y) || !Core(x, y)
  {
    EndingPair(x, y, x'.hist);
    EndingLocal(x, m);
  }

  lemma EndFull(x: End, x': End, y: End, g: Segment, m: TxMem)
    requires x.sock.state == ESTABLISHED && x.sock.seqNum + 2 < TWO32 && x' == Ending(x, m) && Waiting(x)
    requires g in y.wire && g.fin && g.seqNum == x.sock.ackNum
    ensures Full(x', y) || !Full(x, y) || !Core(x, y)
  {
    EndingPair(x, y, x'.hist);
    FinInOrder(x, y, g);
    AckSmall(x, y);
    if AckOk(x.sock, x.hist) && EntriesOk(x.sock.tx, x.wire) && Claim(y, x.hist, x.sock.ackNum + 1)
       && x.sock.ackNum + 1 < TWO32 {
      EndingFull(x, x', y, m);
    }
  }

  // ----- every step keeps it -----

  /** The wide laws are kept; the strict ones too if the step is proper. */
  ghost predicate Moves(x: End, x': End, y: End, proper: bool) {
    (Core(x', y) || !Core(x, y)) && (!proper || Full(x', y) || !Full(x, y) || !Core(x, y))
  }

  /** What is stored and read does not matter here. */
  lemma Bystanders(x: End, x': End, y: End)
    requires x'.sock == x.sock.(rx := x'.sock.rx) && x'.hist == x.hist && x'.wire == x.wire
    ensures Stays(x, x', y)
  {
    assert Local(x') || !Local(x);
    BystandersFull(x, x', y);
  }

  lemma BystandersFull(x: End, x': End, y: End)
    requires x'.sock == x.sock.(rx := x'.sock.rx) && x'.hist == x.hist && x'.wire == x.wire
    ensures Full(x', y) || !Full(x, y)
  {
    if Full(x, y) {
      SameReceives(x, x', y);
      FullKept(x, x', y);
    }
  }

  lemma OutOld(wire: set<Segment>, out: seq<Segment>, g: Segment)
    requires Set(out) <= wire
    ensures wire + Set(out) == wire && wire + Set(out + [g]) == wire + {g}
  {
    assert Set(out + [g]) == Set(out) + {g};
  }

  lemma OutOne(wire: set<Segment>, g: Segment)
    ensures wire + Set([g]) == wire + {g} && wire + Set([]) == wire
  {
    assert Set([g]) == {g};
  }

  /** A socket with its segment's acknowledgement handled. */
  function Acking(x: End, g: Segment): End { x.(sock := Acked(x.sock, g)) }

  lemma AckingKeeps(x: End, x1: End, y: End, g: Segment)
    requires g in y.wire && x1 == Acking(x, g) && Ordered(x) && Core(x, y)
    ensures Stays(x, x1, y) && Set(AckedOut(x.sock, g)) <= x.wire
  {
    if g.ack { AckedKeeps(x, y, g); } else { Bystanders(x, x1, y); }
  }

  lemma ActListen(x: End, g: Segment, m: TxMem)
    requires x.sock.state == LISTEN && g.syn && g.seqNum + 1 < TWO32 && x.sock.seqNum + 1 < TWO32
    ensures Act(x, Delivery(g, m)) == Answering(x, g, m)
  {
    OutOne(x.wire, Stamp(x.sock.(ackNum := g.seqNum + 1), SynAck, []));
    assert x.stored + [] == x.stored;
  }

  /** A segment that finds nothing to do. */
  lemma ActNothing(x: End, g: Segment, m: TxMem)
    requires match x.sock.state
      case LISTEN => !g.syn
      case SYN_RCVD => !g.ack
      case SYN_SENT => !(g.syn && g.ack)
      case CLOSED => true
      case CLOSING => !g.ack
      case _ => false
    ensures Act(x, Delivery(g, m)) == x
  {
    OutOne(x.wire, g);
    assert x.stored + [] == x.stored;
  }

  lemma AnswerMoves(x: End, x': End, y: End, g: Segment, m: TxMem)
    requires x.sock.state == LISTEN && x.sock.seqNum + 2 < TWO32 && x' == Answering(x, g, m) && g in y.wire && g.syn
    ensures Moves(x, x', y, Unused(x.hist, g.seqNum + 1))
  {
    if Core(x, y) {
      NewNumber(x);
      AnswerCore(x, x', y, g, m);
      if Unused(x.hist, g.seqNum + 1) { AnswerFull(x, x', y, g, m); }
    }
  }

  lemma DeliverListen(x: End, x': End, y: End, g: Segment, m: TxMem)
    requires g in y.wire && x.sock.seqNum + 2 < TWO32 && x.sock.state == LISTEN && g.syn && x' == Answering(x, g, m)
    ensures Moves(x, x', y, Proper(x, Delivery(g, m)))
  {
    ProperSyn(x, g, m);
    AnswerMoves(x, x', y, g, m);
  }

  lemma NewNumber(x: End)
    requires Local(x) && Ok(x.hist) && x.sock.state == LISTEN
    ensures x.sock.seqNum + 1 !in x.hist.streams
  {
    OpenedApart(x.hist, x.sock.seqNum + 1);
  }

  lemma SynSmall(x: End, y: End, g: Segment)
    requires Core(x, y) && g in y.wire && g.syn
    ensures g.seqNum + 1 < TWO32
  {
    assert WireOk(g, y.hist);
    BelowSeq(y.sock, y.hist, g.seqNum + 1);
  }

  function Emitting(x: End): End { x.(wire := x.wire + {Stamp(x.sock, Ack, [])}) }

  lemma EmitMoves(x: End, y: End)
    requires x.hist.base in x.hist.links
    ensures Stays(x, Emitting(x), y)
  {
    if Core(x, y) { EmitKeeps(x, y); }
  }

  lemma StateMoves(x: End, x': End, y: End, st: State)
    requires SockOk(x.sock.(state := st), x.hist) && Limit(x.sock) <= Limit(x.sock.(state := st))
    requires x' == x.(sock := x.sock.(state := st))
    ensures Stays(x, x', y)
  {
    if Core(x, y) { StateKeeps(x, y, st); }
  }

  lemma ActSynSent(x: End, g: Segment, m: TxMem)
    requires x.sock.state == SYN_SENT && g.syn && g.ack && g.seqNum + 1 < TWO32 && Set(AckedOut(x.sock, g)) <= x.wire
    ensures Act(x, Delivery(g, m)) == Emitting(Meeting(Acking(x, g), g))
  {
    OutOld(x.wire, AckedOut(x.sock, g), Stamp(Acked(x.sock, g).(ackNum := g.seqNum + 1), Ack, []));
    assert x.stored + [] == x.stored;
  }

  lemma MeetMoves(x: End, x1: End, x2: End, y: End, g: Segment)
    requires x.sock.state == SYN_SENT && g in y.wire && g.syn && Ordered(x) && Core(x, y)
    requires x1 == Acking(x, g) && x2 == Meeting(x1, g)
    ensures Moves(x, Emitting(x2), y, Unused(x.hist, g.seqNum + 1))
  {
    AckingKeeps(x, x1, y, g);
    MeetCore(x1, x2, y, g);
    if Unused(x.hist, g.seqNum + 1) { MeetFull(x1, x2, y, g); }
    EmitMoves(x2, y);
  }

  lemma ActSynRcvd(x: End, x1: End, g: Segment, m: TxMem)
    requires x.sock.state == SYN_RCVD && g.ack && g.data == [] && Set(AckedOut(x.sock, g)) <= x.wire
    requires x1 == Acking(x, g)
    ensures Act(x, Delivery(g, m)) == x1.(sock := x1.sock.(state := ESTABLISHED))
  {
    OutOld(x.wire, AckedOut(x.sock, g), g);
    ReceiveAck(x.sock, x1.sock, g, m);
    ActIs(x, g, m, x1.sock.(state := ESTABLISHED), AckedOut(x.sock, g), x.hist);
    assert x.stored + g.data == x.stored;
  }

  lemma ActSynRcvdData(x: End, x1: End, g: Segment, m: TxMem)
    requires x.sock.state == SYN_RCVD && g.ack && g.data != [] && Set(AckedOut(x.sock, g)) <= x.wire
    requires x1 == Acking(x, g) && g.seqNum + |g.data| < TWO32
    ensures Act(x, Delivery(g, m)) == Taking(x1, g).(stored := x.stored + g.data)
  {
    OutOld(x.wire, AckedOut(x.sock, g), g);
    ReceiveFirst(x.sock, x1.sock, g, m);
    ActIs(x, g, m, Taking(x1, g).sock, AckedOut(x.sock, g), Took(x.hist, g.data));
  }

  lemma TakeIs(s: Socket, g: Segment)
    requires Accepted(s, g) == g.data != [] && g.seqNum + |g.data| < TWO32
    ensures Take(s, g) == s.(rx := s.rx + [g.data], ackNum := g.seqNum + |g.data|)
  {
  }

  lemma EstablishMoves(x: End, x1: End, x2: End, y: End, g: Segment)
    requires x.sock.state == SYN_RCVD && g in y.wire && g.ack && Ordered(x) && Core(x, y) && InOrder(x.sock, g)
    requires x1 == Acking(x, g)
    requires x2 == if g.data != [] then Taking(x1, g) else x1.(sock := x1.sock.(state := ESTABLISHED))
    ensures Stays(x, x2, y)
  {
    AckingKeeps(x, x1, y, g);
    if g.data != [] { TakeKeeps(x1, x2, y, g); } else { EstablishBare(x1, x2, y); }
  }

  lemma EstablishBare(x: End, x': End, y: End)
    requires x.sock.state == SYN_RCVD && x' == x.(sock := x.sock.(state := ESTABLISHED))
    ensures Stays(x, x', y)
  {
    if SockOk(x.sock, x.hist) { StateMoves(x, x', y, ESTABLISHED); }
  }

  /** ESTABLISHED: the segment is dropped with a duplicate acknowledgement. */
  lemma ActDropped(x: End, g: Segment, m: TxMem)
    requires x.sock.state == ESTABLISHED && g.data != [] && g.seqNum != x.sock.ackNum
    ensures Act(x, Delivery(g, m)) == Emitting(x)
  {
    OutOne(x.wire, Stamp(x.sock, Ack, []));
    assert x.stored + [] == x.stored;
  }

  /** ESTABLISHED: data in order, and no FIN. */
  lemma ActData(x: End, x1: End, x2: End, g: Segment, m: TxMem)
    requires x.sock.state == ESTABLISHED && g.data != [] && g.seqNum == x.sock.ackNum && !(g.fin && g.ack)
    requires x1 == Taking(x, g) && x2 == Acking(x1, g) && g.seqNum + |g.data| < TWO32
    requires Set(AckedOut(x.sock, g)) <= x.wire
    ensures Act(x, Delivery(g, m)) == Emitting(x2).(stored := x.stored + g.data)
  {
    OutOld(x.wire, AckedOut(x.sock, g), Stamp(x2.sock, Ack, []));
    ReceiveData(x.sock, x1.sock, x2.sock, g, m);
    ActIs(x, g, m, x2.sock, AckedOut(x.sock, g) + [Stamp(x2.sock, Ack, [])], Took(x.hist, g.data));
  }

  /** An arrival, put together from what it does to the socket and to the history. */
  lemma ActIs(x: End, g: Segment, m: TxMem, s: Socket, out: seq<Segment>, h: Hist)
    requires Receive(x.sock, g, m) == Tcp.Done(s, out) && Heard(x.hist, x.sock, g) == h
    ensures Act(x, Delivery(g, m))
      == x.(sock := s, wire := x.wire + Set(out), hist := h, stored := x.stored + Accepted(x.sock, g))
  {
  }

  lemma ReceiveData(s: Socket, s1: Socket, s2: Socket, g: Segment, m: TxMem)
    requires s.state == ESTABLISHED && g.data != [] && g.seqNum == s.ackNum && !(g.fin && g.ack)
    requires g.seqNum + |g.data| < TWO32
    requires s1 == s.(rx := s.rx + [g.data], ackNum := g.seqNum + |g.data|) && s2 == Acked(s1, g)
    ensures Receive(s, g, m) == Tcp.Done(s2, AckedOut(s, g) + [Stamp(s2, Ack, [])])
  {
    TakeIs(s, g);
  }

  lemma ReceiveAck(s: Socket, s1: Socket, g: Segment, m: TxMem)
    requires s.state == SYN_RCVD && g.ack && g.data == [] && s1 == Acked(s, g)
    ensures Receive(s, g, m) == Tcp.Done(s1.(state := ESTABLISHED), AckedOut(s, g))
  {
    assert Accepted(s1, g) == [];
  }

  lemma ReceiveFirst(s: Socket, s1: Socket, g: Segment, m: TxMem)
    requires s.state == SYN_RCVD && g.ack && g.data != [] && s1 == Acked(s, g) && g.seqNum + |g.data| < TWO32
    ensures Receive(s, g, m) == Tcp.Done(
      s1.(rx := s1.rx + [g.data], ackNum := g.seqNum + |g.data|, state := ESTABLISHED), AckedOut(s, g))
  {
    TakeIs(s1, g);
  }

  /** ESTABLISHED: neither data nor FIN. */
  lemma ActAck(x: End, g: Segment, m: TxMem)
    requires x.sock.state == ESTABLISHED && g.data == [] && !(g.fin && g.ack) && Set(AckedOut(x.sock, g)) <= x.wire
    ensures Act(x, Delivery(g, m)) == Acking(x, g)
  {
    OutOld(x.wire, AckedOut(x.sock, g), g);
    assert x.stored + [] == x.stored;
  }

  /** ESTABLISHED: a FIN. */
  lemma ActFin(x: End, x1: End, g: Segment, m: TxMem)
    requires x.sock.state == ESTABLISHED && g.data == [] && g.fin && g.ack && Set(AckedOut(x.sock, g)) <= x.wire
    requires x1 == Acking(x, g)
    ensures Act(x, Delivery(g, m)) == Ending(x1, m)
  {
    OutOld(x.wire, AckedOut(x.sock, g), Stamp(x1.sock.(ackNum := Add32(x1.sock.ackNum, 1)), FinAck, []));
    assert x.stored + [] == x.stored;
  }

  lemma ActFinWait1(x: End, x1: End, g: Segment, m: TxMem)
    requires x.sock.state == FIN_WAIT_1 && Set(AckedOut(x.sock, g)) <= x.wire && x1 == Acking(x, g)
    ensures Act(x, Delivery(g, m)) == if g.fin && g.ack then Emitting(Parting(x1)) else x1
  {
    OutOld(x.wire, AckedOut(x.sock, g), Stamp(x1.sock.(ackNum := Add32(x1.sock.ackNum, 1)), Ack, []));
    assert x.stored + [] == x.stored;
  }

  lemma ActClosing(x: End, g: Segment, m: TxMem)
    requires x.sock.state == CLOSING && g.ack
    ensures Act(x, Delivery(g, m)) == x.(sock := x.sock.(state := CLOSED))
  {
    OutOne(x.wire, g);
    assert x.stored + [] == x.stored;
  }

  lemma DataMoves(x: End, x1: End, x2: End, y: End, g: Segment)
    requires x.sock.state == ESTABLISHED && g.data != [] && g.seqNum == x.sock.ackNum
    requires x1 == Taking(x, g) && x2 == Acking(x1, g) && g in y.wire && Ordered(x) && Core(x, y)
    ensures Stays(x, Emitting(x2), y) && Set(AckedOut(x.sock, g)) <= x.wire
  {
    TakeKeeps(x, x1, y, g);
    AckingKeeps(x1, x2, y, g);
    EmitMoves(x2, y);
  }

  lemma FinMoves(x: End, x1: End, x2: End, y: End, g: Segment, m: TxMem)
    requires x.sock.state == ESTABLISHED && x.sock.seqNum + 2 < TWO32
    requires g.fin && g in y.wire && Ordered(x) && Core(x, y)
    requires x1 == Acking(x, g) && x2 == Ending(x1, m)
    ensures Moves(x, x2, y, g.seqNum == x.sock.ackNum)
  {
    AckingKeeps(x, x1, y, g);
    EndCore(x1, x2, y, m);
    if g.seqNum == x.sock.ackNum { EndFull(x1, x2, y, g, m); }
  }

  lemma PartMoves(x: End, x1: End, x2: End, y: End, g: Segment)
    requires x.sock.state == FIN_WAIT_1 && g.fin && g in y.wire && Ordered(x) && Core(x, y)
    requires x1 == Acking(x, g) && x2 == Parting(x1)
    ensures Moves(x, Emitting(x2), y, g.seqNum == x.sock.ackNum)
  {
    AckingKeeps(x, x1, y, g);
    PartCore(x1, x2, y);
    if g.seqNum == x.sock.ackNum { PartFull(x1, x2, y, g); }
    EmitMoves(x2, y);
  }

  /** Data of the peer lies below 2^32. */
  lemma DataSmall(x: End, y: End, g: Segment)
    requires Core(x, y) && g in y.wire && g.data != []
    ensures g.seqNum + |g.data| < TWO32
  {
    assert WireOk(g, y.hist);
    var b :| Slice(y.hist, b, g);
    BelowSeq(y.sock, y.hist, b);
  }

  lemma FinBare(x: End, y: End, g: Segment)
    requires Core(x, y) && g in y.wire && g.fin
    ensures g.data == []
  {
    assert WireOk(g, y.hist);
  }

  lemma SynSentIs(x: End, y: End, g: Segment, m: TxMem)
    requires Core(x, y) && Ordered(x) && g in y.wire && x.sock.state == SYN_SENT && g.syn && g.ack
    ensures Act(x, Delivery(g, m)) == Emitting(Meeting(Acking(x, g), g))
  {
    SynSmall(x, y, g);
    AckingKeeps(x, Acking(x, g), y, g);
    ActSynSent(x, g, m);
  }

  lemma ProperSyn(x: End, g: Segment, m: TxMem)
    requires Syncs(x.sock, g)
    ensures Proper(x, Delivery(g, m)) ==> Unused(x.hist, g.seqNum + 1)
  {
  }

  lemma DeliverSynSent(x: End, x1: End, x2: End, y: End, g: Segment, m: TxMem)
    requires Core(x, y) && Ordered(x) && g in y.wire && x.sock.state == SYN_SENT && g.syn && g.ack
    requires x1 == Acking(x, g) && x2 == Meeting(x1, g)
    ensures Moves(x, Emitting(x2), y, Proper(x, Delivery(g, m)))
  {
    ProperSyn(x, g, m);
    MeetMoves(x, x1, x2, y, g);
  }

  lemma DeliverSynRcvd(x: End, y: End, g: Segment, m: TxMem)
    requires Core(x, y) && Ordered(x) && g in y.wire && x.sock.state == SYN_RCVD && g.ack && InOrder(x.sock, g)
    ensures Stays(x, Act(x, Delivery(g, m)), y)
  {
    var x1 := Acking(x, g);
    AckingKeeps(x, x1, y, g);
    if g.data != [] {
      DataSmall(x, y, g);
      var x2 := Taking(x1, g);
      EstablishMoves(x, x1, x2, y, g);
      ActSynRcvdData(x, x1, g, m);
      Bystanders(x2, Act(x, Delivery(g, m)), y);
    } else {
      ActSynRcvd(x, x1, g, m);
      EstablishMoves(x, x1, x1.(sock := x1.sock.(state := ESTABLISHED)), y, g);
    }
  }

  lemma DeliverData(x: End, y: End, g: Segment, m: TxMem)
    requires Core(x, y) && Ordered(x) && g in y.wire && x.sock.state == ESTABLISHED && g.data != []
    ensures Stays(x, Act(x, Delivery(g, m)), y)
  {
    if g.seqNum != x.sock.ackNum {
      EmitMoves(x, y);
      ActDropped(x, g, m);
    } else {
      var x1 := Taking(x, g);
      var x2 := Acking(x1, g);
      DataSmall(x, y, g);
      DataMoves(x, x1, x2, y, g);
      assert !g.fin by { if g.fin { FinBare(x, y, g); } }
      ActData(x, x1, x2, g, m);
      Bystanders(Emitting(x2), Act(x, Delivery(g, m)), y);
    }
  }

  lemma DeliverBare(x: End, y: End, g: Segment, m: TxMem)
    requires Core(x, y) && Ordered(x) && g in y.wire && x.sock.state == ESTABLISHED && g.data == []
    requires x.sock.seqNum + 2 < TWO32
    ensures Moves(x, Act(x, Delivery(g, m)), y, Proper(x, Delivery(g, m)))
  {
    var x1 := Acking(x, g);
    AckingKeeps(x, x1, y, g);
    if g.fin && g.ack {
      FinMoves(x, x1, Ending(x1, m), y, g, m);
      ActFin(x, x1, g, m);
    } else {
      ActAck(x, g, m);
    }
  }

  lemma DeliverFinWait1(x: End, y: End, g: Segment, m: TxMem)
    requires Core(x, y) && Ordered(x) && g in y.wire && x.sock.state == FIN_WAIT_1
    ensures Moves(x, Act(x, Delivery(g, m)), y, Proper(x, Delivery(g, m)))
  {
    var x1 := Acking(x, g);
    AckingKeeps(x, x1, y, g);
    ActFinWait1(x, x1, g, m);
    if g.fin && g.ack { PartMoves(x, x1, Parting(x1), y, g); }
  }

  lemma DeliverMoves(x: End, y: End, g: Segment, m: TxMem)
    requires Core(x, y) && Ordered(x) && Enabled(x, y, Delivery(g, m))
    ensures Moves(x, Act(x, Delivery(g, m)), y, Proper(x, Delivery(g, m)))
  {
    match x.sock.state
    case LISTEN =>
      if g.syn {
        SynSmall(x, y, g);
        ActListen(x, g, m);
        DeliverListen(x, Answering(x, g, m), y, g, m);
      } else {
        ActNothing(x, g, m);
      }
    case SYN_RCVD => if g.ack { DeliverSynRcvd(x, y, g, m); } else { ActNothing(x, g, m); }
    case SYN_SENT =>
      var x1 := Acking(x, g);
      if g.syn && g.ack {
        SynSentIs(x, y, g, m);
        DeliverSynSent(x, x1, Meeting(x1, g), y, g, m);
      } else {
        ActNothing(x, g, m);
      }
    case ESTABLISHED => if g.data != [] { DeliverData(x, y, g, m); } else { DeliverBare(x, y, g, m); }
    case FIN_WAIT_1 => DeliverFinWait1(x, y, g, m);
    case CLOSING =>
      if g.ack {
        ActClosing(x, g, m);
        StateMoves(x, Act(x, Delivery(g, m)), y, CLOSED);
      } else {
        ActNothing(x, g, m);
      }
    case CLOSED => ActNothing(x, g, m);
    case _ =>
  }

  lemma ActConnect(x: End, m: TxMem)
    requires x.sock.state == CLOSED && x.sock.seqNum + 1 < TWO32
    ensures Act(x, Connecting(m)) == Calling(x, m)
  {
    OutOne(x.wire, Stamp(x.sock, Syn, []));
  }

  lemma ActSend(x: End, d: seq<Byte>, m: TxMem)
    requires x.sock.state == ESTABLISHED
    ensures Act(x, Sending(d, m)) == Carrying(x, d, m)
  {
    OutOne(x.wire, Stamp(x.sock, Ack, d));
  }

  lemma ActClose(x: End, m: TxMem)
    requires Close(x.sock, m).Done?
    ensures Act(x, Closing(m)) == if x.sock.state == ESTABLISHED then Leaving(x, m) else x
  {
    OutOne(x.wire, Stamp(x.sock, FinAck, []));
  }

  lemma CallMoves(x: End, y: End, ev: Event)
    requires Core(x, y) && Enabled(x, y, ev) && (ev.Connecting? || ev.Sending? || ev.Closing?)
    ensures Stays(x, Act(x, ev), y)
  {
    match ev
    case Connecting(m) =>
      ActConnect(x, m);
      ConnectKeeps(x, Calling(x, m), y, m);
    case Sending(d, m) =>
      ActSend(x, d, m);
      SendKeeps(x, Carrying(x, d, m), y, d, m);
    case Closing(m) =>
      ActClose(x, m);
      if x.sock.state == ESTABLISHED { CloseKeeps(x, Leaving(x, m), y, m); }
  }

  lemma QuietMoves(x: End, y: End, ev: Event)
    requires Core(x, y) && Enabled(x, y, ev) && (ev.Listening? || ev.Reading? || ev.ConnectTimer? || ev.AckTimer?)
    ensures Stays(x, Act(x, ev), y)
  {
    OutOne(x.wire, Stamp(x.sock, Ack, []));
    match ev
    case Listening => StateMoves(x, Act(x, ev), y, LISTEN);
    case Reading(size) => Bystanders(x, Act(x, ev), y);
    case ConnectTimer => if x.sock.state == SYN_SENT { StateMoves(x, Act(x, ev), y, CLOSED); }
    case AckTimer(q) =>
      ResentOld(x.sock.tx, q, x.wire);
      assert x.wire + Set(Resent(x.sock.tx, q)) == x.wire;
  }

  /** The queue is ordered whoever the peer is. */
  lemma ActOrdered(x: End, y: End, ev: Event)
    requires Ordered(x) && Enabled(x, y, ev) && x.sock.seqNum + 1 < TWO32
    ensures Ordered(Act(x, ev))
  {
    match ev
    case Connecting(m) => Q.StepOrdered(x.sock, Q.Connecting(m));
    case Listening => Q.StepOrdered(x.sock, Q.Listening);
    case Sending(d, m) => Q.StepOrdered(x.sock, Q.Sending(d, m));
    case Closing(m) => Q.StepOrdered(x.sock, Q.Closing(m));
    case ConnectTimer => Q.StepOrdered(x.sock, Q.ConnectTimer);
    case Delivery(g, m) => Q.StepOrdered(x.sock, Q.Arrival(g, m));
    case _ =>
  }

  /** Every step keeps the laws of the pair, and every proper one the strict laws. */
  lemma StepKeeps(x: End, y: End, ev: Event)
    requires Inv(x, y) && Enabled(x, y, ev)
    ensures Inv(Act(x, ev), y)
    ensures Full(x, y) && Proper(x, ev) ==> Full(Act(x, ev), y)
  {
    ActOrdered(x, y, ev);
    if ev.Delivery? {
      DeliverMoves(x, y, ev.g, ev.m);
    } else if ev.Connecting? || ev.Sending? || ev.Closing? {
      CallMoves(x, y, ev);
    } else {
      QuietMoves(x, y, ev);
    }
  }
}
