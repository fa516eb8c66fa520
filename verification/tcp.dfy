/** One TCP endpoint (kernel/net/tcp.c), as functions from a socket to a socket and the segments handed to ip_tx. */
module Tcp {
  import opened Words

  const RETRANSMIT_DUP_ACK_NUM := 3

  datatype State = CLOSED | LISTEN | SYN_RCVD | SYN_SENT | ESTABLISHED | FIN_WAIT_1 | CLOSING | CLOSE_WAIT

  datatype Segment = Segment(seqNum: nat, ackNum: nat, syn: bool, ack: bool, fin: bool, data: seq<Byte>)

  /** The heap blocks of a tx entry (pktbuf, its buffer, the entry itself), and the number of times its socket had
      left CLOSED when it was queued. */
  datatype TxMem = TxMem(pkt: nat, buf: nat, rec: nat, era: nat)

  datatype TxEntry = TxEntry(sendSeq: nat, waitAck: nat, dup: nat, seg: Segment, mem: TxMem)

  datatype Socket = Socket(state: State, seqNum: nat, ackNum: nat, rx: seq<seq<Byte>>, tx: seq<TxEntry>)

  /** A socket and the segments transmitted on the way to it; Panic stops the machine. */
  datatype Result = Done(sock: Socket, out: seq<Segment>) | Panic

  datatype Kind = Syn | SynAck | Ack | FinAck

  /** The header tcp_send builds. */
  function Stamp(s: Socket, k: Kind, data: seq<Byte>): Segment {
    Segment(s.seqNum, s.ackNum, k.Syn? || k.SynAck?, !k.Syn?, k.FinAck?, data)
  }

  /** tcp_send with need_ack: the segment is kept until acknowledged. */
  function Enqueue(s: Socket, k: Kind, data: seq<Byte>, m: TxMem): Socket {
    var next := Add32(s.seqNum, |data|);
    s.(tx := s.tx + [TxEntry(s.seqNum, next, 0, Stamp(s, k, data), m)], seqNum := next)
  }

  function Advance(s: Socket): Socket { s.(seqNum := Add32(s.seqNum, 1)) }

  // ----- calls from the user -----

  function Connect(s: Socket, m: TxMem): Result {
    if s.state == CLOSED then Done(Advance(Enqueue(s, Syn, [], m)).(state := SYN_SENT), [Stamp(s, Syn, [])]) else Panic
  }

  function Listen(s: Socket): Result {
    if s.state == CLOSED then Done(s.(state := LISTEN), []) else Panic
  }

  function Send(s: Socket, data: seq<Byte>, m: TxMem): Result {
    if s.state == ESTABLISHED then Done(Enqueue(s, Ack, data, m), [Stamp(s, Ack, data)]) else Panic
  }

  function Close(s: Socket, m: TxMem): Result {
    match s.state
    case ESTABLISHED => Done(Advance(Enqueue(s, FinAck, [], m)).(state := FIN_WAIT_1), [Stamp(s, FinAck, [])])
    case CLOSED => Done(s, [])
    case CLOSING => Done(s, [])
    case _ => Panic
  }

  // ----- timers -----

  function ConnectTimeout(s: Socket): Socket {
    if s.state == SYN_SENT then s.(state := CLOSED) else s
  }

  /** The entries a retransmission timeout for seqNum sends again. */
  function Resent(tx: seq<TxEntry>, seqNum: nat): seq<Segment> {
    if tx == [] then []
    else (if tx[0].sendSeq == seqNum then [tx[0].seg] else []) + Resent(tx[1..], seqNum)
  }

  // ----- acknowledgements -----

  /** The first position from i on whose entry is covered by ack, or the length. */
  function FirstCovered(tx: seq<TxEntry>, i: nat, ack: nat): (r: nat)
    requires i <= |tx|
    ensures i <= r <= |tx|
    ensures forall j :: i <= j < r ==> tx[j].waitAck > ack
    ensures r < |tx| ==> tx[r].waitAck <= ack
    decreases |tx| - i
  {
    if i == |tx| || tx[i].waitAck <= ack then i else FirstCovered(tx, i + 1, ack)
  }

  /** What handle_ack leaves: list_remove clears the link its loop follows, so the loop removes one entry behind
      the head at most; then the head is checked. */
  function AckRemove(tx: seq<TxEntry>, ack: nat): seq<TxEntry> {
    if tx == [] then []
    else
      var i := FirstCovered(tx, 1, ack);
      var rest := if i < |tx| then tx[..i] + tx[i + 1..] else tx;
      if rest[0].waitAck <= ack then rest[1..] else rest
  }

  function CountDup(e: TxEntry, ack: nat): TxEntry {
    if e.sendSeq == ack then e.(dup := Add32(e.dup, 1)) else e
  }

  function CountDups(tx: seq<TxEntry>, ack: nat): (r: seq<TxEntry>)
    ensures |r| == |tx| && forall i :: 0 <= i < |tx| ==> r[i] == CountDup(tx[i], ack)
  {
    if tx == [] then [] else [CountDup(tx[0], ack)] + CountDups(tx[1..], ack)
  }

  /** The entries sent again after their third duplicate acknowledgement. */
  function FastResent(tx: seq<TxEntry>, ack: nat): seq<Segment> {
    if tx == [] then []
    else (if tx[0].sendSeq == ack && tx[0].dup >= RETRANSMIT_DUP_ACK_NUM then [tx[0].seg] else [])
         + FastResent(tx[1..], ack)
  }

  function AckTx(tx: seq<TxEntry>, ack: nat): seq<TxEntry> {
    if |AckRemove(tx, ack)| < |tx| then AckRemove(tx, ack) else CountDups(tx, ack)
  }

  function AckOut(tx: seq<TxEntry>, ack: nat): seq<Segment> {
    if |AckRemove(tx, ack)| < |tx| then [] else FastResent(CountDups(tx, ack), ack)
  }

  function HandleAck(s: Socket, ack: nat): Socket { s.(tx := AckTx(s.tx, ack)) }

  // ----- segment arrives -----

  /** The payload a socket takes from a segment. */
  function Accepted(s: Socket, g: Segment): seq<Byte> {
    if (s.state == SYN_RCVD && g.ack) || (s.state == ESTABLISHED && g.seqNum == s.ackNum) then g.data else []
  }

  /** Stores the accepted payload, if any, and moves ack_num past it. */
  function Take(s: Socket, g: Segment): Socket {
    if Accepted(s, g) == [] then s
    else s.(rx := s.rx + [g.data], ackNum := Add32(g.seqNum, |g.data|))
  }

  /** handle_ack, if the segment acknowledges anything. */
  function Acked(s: Socket, g: Segment): Socket { if g.ack then HandleAck(s, g.ackNum) else s }

  function AckedOut(s: Socket, g: Segment): seq<Segment> { if g.ack then AckOut(s.tx, g.ackNum) else [] }

  /** The end of the ESTABLISHED case: the answer to a FIN, or to data. */
  function Response(s: Socket, g: Segment, m: TxMem): (r: Result)
    ensures r.Done?
  {
    if g.fin && g.ack then
      var s1 := s.(ackNum := Add32(s.ackNum, 1));
      Done(Enqueue(s1, FinAck, [], m).(state := CLOSING), [Stamp(s1, FinAck, [])])
    else if g.data != [] then Done(s, [Stamp(s, Ack, [])])
    else Done(s, [])
  }

  function Receive(s: Socket, g: Segment, m: TxMem): (r: Result)
    ensures r.Done?
  {
    match s.state
    case LISTEN =>
      if !g.syn then Done(s, [])
      else
        var s1 := s.(ackNum := Add32(g.seqNum, 1));
        Done(Advance(Enqueue(s1, SynAck, [], m)).(state := SYN_RCVD), [Stamp(s1, SynAck, [])])
    case SYN_RCVD =>
      if !g.ack then Done(s, []) else Done(Take(Acked(s, g), g).(state := ESTABLISHED), AckedOut(s, g))
    case SYN_SENT =>
      if !(g.syn && g.ack) then Done(s, [])
      else
        var s1 := Acked(s, g).(ackNum := Add32(g.seqNum, 1));
        Done(s1.(state := ESTABLISHED), AckedOut(s, g) + [Stamp(s1, Ack, [])])
    case ESTABLISHED =>
      if g.data != [] && s.ackNum != g.seqNum then Done(s, [Stamp(s, Ack, [])])
      else
        var a := Response(Acked(Take(s, g), g), g, m);
        Done(a.sock, AckedOut(s, g) + a.out)
    case FIN_WAIT_1 =>
      var s1 := Acked(s, g);
      if g.fin && g.ack then
        var s2 := s1.(ackNum := Add32(s1.ackNum, 1));
        Done(s2.(state := CLOSED), AckedOut(s, g) + [Stamp(s2, Ack, [])])
      else Done(s1, AckedOut(s, g))
    case CLOSING => Done(if g.ack then s.(state := CLOSED) else s, [])
    case _ => Done(s, [])
  }

  // ----- the retransmission queue -----

  /** Queue order: send and wait numbers never decrease, and no wait number is ahead of seq_num. */
  ghost predicate QueueOrdered(tx: seq<TxEntry>, seqNum: nat) {
    && (forall i, j :: 0 <= i < j < |tx| ==> tx[i].sendSeq <= tx[j].sendSeq && tx[i].waitAck <= tx[j].waitAck)
    && (forall i :: 0 <= i < |tx| ==> tx[i].sendSeq <= tx[i].waitAck <= seqNum)
  }

  /** The entries an acknowledgement covers, counted from the oldest. */
  function Covered(tx: seq<TxEntry>, ack: nat): (k: nat)
    ensures k <= |tx|
    ensures forall i :: 0 <= i < k ==> tx[i].waitAck <= ack
    ensures k < |tx| ==> tx[k].waitAck > ack
  {
    if tx == [] || tx[0].waitAck > ack then 0 else 1 + Covered(tx[1..], ack)
  }

  function Min(a: int, b: int): int { if a < b then a else b }

  /** ack covers exactly the oldest k entries. */
  ghost predicate Covers(tx: seq<TxEntry>, ack: nat, k: nat) {
    && k <= |tx|
    && (forall i :: 0 <= i < k ==> tx[i].waitAck <= ack)
    && (forall i :: k <= i < |tx| ==> tx[i].waitAck > ack)
  }

  /** In an ordered queue the covered entries are the oldest ones. */
  lemma OldestCovered(tx: seq<TxEntry>, ack: nat, seqNum: nat)
    requires QueueOrdered(tx, seqNum)
    ensures Covers(tx, ack, Covered(tx, ack))
  {
    var k := Covered(tx, ack);
    forall i | k <= i < |tx| ensures tx[i].waitAck > ack {
      assert i > k ==> tx[k].waitAck <= tx[i].waitAck;
    }
  }

  /** One acknowledgement removes exactly the oldest min(2, k) of the k entries it covers. */
  lemma AckRemovesTwo(tx: seq<TxEntry>, ack: nat, k: nat)
    requires Covers(tx, ack, k)
    ensures AckRemove(tx, ack) == tx[Min(2, k)..]
  {
    if k >= 2 {
      assert FirstCovered(tx, 1, ack) == 1;
      assert (tx[..1] + tx[2..])[1..] == tx[2..];
    }
  }

  function Iterate<A>(f: A -> A, x: A, n: nat): A {
    if n == 0 then x else Iterate(f, f(x), n - 1)
  }

  function AckStep(ack: nat): seq<TxEntry> -> seq<TxEntry> { tx => AckRemove(tx, ack) }

  /** What n copies of one acknowledgement leave. */
  function Repeat(tx: seq<TxEntry>, ack: nat, n: nat): seq<TxEntry> { Iterate(AckStep(ack), tx, n) }

  lemma CoversDrop(tx: seq<TxEntry>, ack: nat, k: nat, m: nat)
    requires Covers(tx, ack, k) && m <= k
    ensures Covers(tx[m..], ack, k - m)
  {
  }

  lemma DropDrop(tx: seq<TxEntry>, m: nat, n: nat)
    requires m + n <= |tx|
    ensures tx[m..][n..] == tx[m + n..]
  {
  }

  lemma AckDrops(tx: seq<TxEntry>, ack: nat, k: nat, m: nat)
    requires Covers(tx, ack, k) && m <= k
    ensures AckRemove(tx[m..], ack) == tx[Min(m + 2, k)..]
  {
    CoversDrop(tx, ack, k, m);
    AckRemovesTwo(tx[m..], ack, k - m);
    DropDrop(tx, m, Min(2, k - m));
  }

  lemma {:induction false} IterateDrops(f: seq<TxEntry> -> seq<TxEntry>, tx: seq<TxEntry>, k: nat, m: nat, n: nat)
    requires m <= k <= |tx| && forall i: nat :: i <= k ==> f(tx[i..]) == tx[Min(i + 2, k)..]
    ensures Iterate(f, tx[m..], n) == tx[Min(m + 2 * n, k)..]
    decreases n
  {
    if n > 0 {
      IterateDrops(f, tx, k, Min(m + 2, k), n - 1);
    }
  }

  /** n copies of an acknowledgement remove the oldest min(2n, k) covered entries and keep the rest in order. */
  lemma RepeatRemoves(tx: seq<TxEntry>, ack: nat, n: nat, k: nat)
    requires Covers(tx, ack, k)
    ensures Repeat(tx, ack, n) == tx[Min(2 * n, k)..]
  {
    forall i: nat | i <= k ensures AckStep(ack)(tx[i..]) == tx[Min(i + 2, k)..] { AckDrops(tx, ack, k, i); }
    IterateDrops(AckStep(ack), tx, k, 0, n);
    assert tx[0..] == tx;
  }

  /** After ceil(k/2) copies exactly the entries that section 3.10.7.4 of RFC 9293 asks to remove are gone: the
      covered ones. */
  lemma CeilRepeatsClear(tx: seq<TxEntry>, ack: nat, seqNum: nat)
    requires QueueOrdered(tx, seqNum)
    ensures var k := Covered(tx, ack);
      && Repeat(tx, ack, (k + 1) / 2) == tx[k..]
      && (forall e :: e in tx[k..] ==> e.waitAck > ack)
      && (forall e :: e in tx[..k] ==> e.waitAck <= ack)
  {
    var k := Covered(tx, ack);
    OldestCovered(tx, ack, seqNum);
    CoveredSplit(tx, ack, k);
    assert Min(2 * ((k + 1) / 2), k) == k;
    RepeatRemoves(tx, ack, (k + 1) / 2, k);
  }

  lemma CoveredSplit(tx: seq<TxEntry>, ack: nat, k: nat)
    requires Covers(tx, ack, k)
    ensures (forall e :: e in tx[k..] ==> e.waitAck > ack) && (forall e :: e in tx[..k] ==> e.waitAck <= ack)
  {
  }

  // ----- duplicate acknowledgements -----

  /** The queue when the entries that start at ack have counted n duplicates. */
  function Dupped(tx: seq<TxEntry>, ack: nat, n: nat): (r: seq<TxEntry>)
    ensures |r| == |tx|
    ensures forall i :: 0 <= i < |tx| ==> r[i] == if tx[i].sendSeq == ack then tx[i].(dup := n) else tx[i]
  {
    seq(|tx|, i requires 0 <= i < |tx| => if tx[i].sendSeq == ack then tx[i].(dup := n) else tx[i])
  }

  lemma DupStep(tx: seq<TxEntry>, ack: nat, n: nat)
    requires n + 1 < TWO32 && Covers(tx, ack, 0)
    ensures AckTx(Dupped(tx, ack, n), ack) == Dupped(tx, ack, n + 1)
    ensures AckOut(Dupped(tx, ack, n), ack) == FastResent(Dupped(tx, ack, n + 1), ack)
  {
    var d := Dupped(tx, ack, n);
    AckRemovesTwo(d, ack, 0);
    assert CountDups(d, ack) == Dupped(tx, ack, n + 1);
  }

  lemma {:induction false} FastIsResent(tx: seq<TxEntry>, ack: nat, n: nat)
    ensures FastResent(Dupped(tx, ack, n), ack) == if n >= RETRANSMIT_DUP_ACK_NUM then Resent(tx, ack) else []
  {
    if tx != [] {
      FastIsResent(tx[1..], ack, n);
      assert Dupped(tx, ack, n)[1..] == Dupped(tx[1..], ack, n);
    }
  }

  function Duplicating(ack: nat): seq<TxEntry> -> seq<TxEntry> { tx => AckTx(tx, ack) }

  lemma {:induction false} IterateDups(f: seq<TxEntry> -> seq<TxEntry>, tx: seq<TxEntry>, ack: nat, m: nat, n: nat)
    requires forall k: nat :: k < m + n ==> f(Dupped(tx, ack, k)) == Dupped(tx, ack, k + 1)
    ensures Iterate(f, Dupped(tx, ack, m), n) == Dupped(tx, ack, m + n)
    decreases n
  {
    if n > 0 { IterateDups(f, tx, ack, m + 1, n - 1); }
  }

  lemma DupsCount(tx: seq<TxEntry>, ack: nat, n: nat)
    requires Covers(tx, ack, 0) && n < TWO32
    requires forall i :: 0 <= i < |tx| && tx[i].sendSeq == ack ==> tx[i].dup == 0
    ensures Iterate(Duplicating(ack), tx, n) == Dupped(tx, ack, n)
  {
    var f := Duplicating(ack);
    forall k: nat | k < n ensures f(Dupped(tx, ack, k)) == Dupped(tx, ack, k + 1) {
      DupStep(tx, ack, k);
    }
    IterateDups(f, tx, ack, 0, n);
    assert tx == Dupped(tx, ack, 0);
  }

  /** Fast retransmission: after n acknowledgements that cover nothing, one more of them sends again exactly what
      the timeout of that number would if it is the third or a later one, and nothing before. */
  lemma ThirdDuplicate(tx: seq<TxEntry>, ack: nat, n: nat)
    requires Covers(tx, ack, 0) && n + 1 < TWO32
    requires forall i :: 0 <= i < |tx| && tx[i].sendSeq == ack ==> tx[i].dup == 0
    ensures AckOut(Iterate(Duplicating(ack), tx, n), ack)
      == if n >= 2 then Resent(tx, ack) else []
  {
    DupsCount(tx, ack, n);
    DupStep(tx, ack, n);
    FastIsResent(tx, ack, n + 1);
  }

  // ----- what stops the machine, and what does not -----

  /** Each call panics in exactly these states. */
  lemma PanicsExactly(s: Socket, d: seq<Byte>, m: TxMem)
    ensures Connect(s, m).Panic? <==>
      s.state in {LISTEN, SYN_RCVD, SYN_SENT, ESTABLISHED, FIN_WAIT_1, CLOSING, CLOSE_WAIT}
    ensures Listen(s).Panic? <==>
      s.state in {LISTEN, SYN_RCVD, SYN_SENT, ESTABLISHED, FIN_WAIT_1, CLOSING, CLOSE_WAIT}
    ensures Send(s, d, m).Panic? <==>
      s.state in {CLOSED, LISTEN, SYN_RCVD, SYN_SENT, FIN_WAIT_1, CLOSING, CLOSE_WAIT}
    ensures Close(s, m).Panic? <==> s.state in {SYN_SENT, LISTEN, SYN_RCVD, FIN_WAIT_1, CLOSE_WAIT}
  {
  }

  /** Closing a connection that is over, or that the peer is ending, changes nothing and sends nothing; closing an open
      one sends its FIN, which uses up a number. */
  lemma CloseEffect(s: Socket, m: TxMem)
    ensures s.state in {CLOSED, CLOSING} ==> Close(s, m) == Done(s, [])
    ensures s.state == ESTABLISHED ==>
      var r := Close(s, m);
      && r.Done? && r.sock.state == FIN_WAIT_1 && |r.out| == 1 && r.out[0].fin && r.out[0].ack && !r.out[0].syn
      && r.out[0].seqNum == s.seqNum && r.out[0].ackNum == s.ackNum && r.sock.seqNum == Add32(s.seqNum, 1)
  {
  }

  /** The connect timer ends an attempt that is still waiting, and touches nothing else. */
  lemma ConnectTimeoutEnds(s: Socket)
    ensures var r := ConnectTimeout(s);
      && r.state != SYN_SENT && r.(state := s.state) == s
      && (if s.state == SYN_SENT then r.state == CLOSED else r.state == s.state)
  {
  }

  // ----- what goes out -----

  /** An entry that starts at q holds g. */
  ghost predicate Starts(tx: seq<TxEntry>, q: nat, g: Segment) {
    exists e :: e in tx && e.sendSeq == q && e.seg == g
  }

  /** A retransmission is made up entry by entry, in queue order ... */
  lemma {:induction false} ResentAppend(tx: seq<TxEntry>, rest: seq<TxEntry>, q: nat)
    ensures Resent(tx + rest, q) == Resent(tx, q) + Resent(rest, q)
  {
    if tx == [] {
      assert tx + rest == rest;
    } else {
      ResentAppend(tx[1..], rest, q);
      assert (tx + rest)[1..] == tx[1..] + rest;
      Assoc(if tx[0].sendSeq == q then [tx[0].seg] else [], Resent(tx[1..], q), Resent(rest, q));
    }
  }

  lemma Assoc(p: seq<Segment>, q: seq<Segment>, r: seq<Segment>)
    ensures p + (q + r) == p + q + r
  {
  }

  lemma ResentOne(e: TxEntry, q: nat)
    ensures Resent([e], q) == if e.sendSeq == q then [e.seg] else []
  {
    assert [e][1..] == [] && Resent([], q) == [];
  }

  /** ... of those that start at the number, and no other. */
  lemma {:induction false} ResentIff(tx: seq<TxEntry>, q: nat, g: Segment)
    ensures g in Resent(tx, q) <==> Starts(tx, q, g)
  {
    if tx != [] {
      ResentIff(tx[1..], q, g);
      StartsTail(tx, q, g);
    }
  }

  lemma StartsTail(tx: seq<TxEntry>, q: nat, g: Segment)
    requires tx != []
    ensures Starts(tx, q, g) <==> Starts(tx[1..], q, g) || (tx[0].sendSeq == q && tx[0].seg == g)
  {
    if e :| e in tx && e.sendSeq == q && e.seg == g {
      assert e in tx[1..] || e == tx[0];
    }
  }

  /** The segment brings a SYN, data or a FIN to a socket in whose state it counts. */
  predicate Owes(s: Socket, g: Segment) {
    match s.state
    case LISTEN => g.syn
    case SYN_SENT => g.syn && g.ack
    case ESTABLISHED => g.data != [] || (g.fin && g.ack)
    case FIN_WAIT_1 => g.fin && g.ack
    case _ => false
  }

  /** The last of the segments acknowledges what the socket has now; those before are retransmissions. */
  predicate Answers(s: Socket, r: Socket, out: seq<Segment>) {
    && out != []
    && var h := out[|out| - 1];
    && h.ack && h.ackNum == r.ackNum && h.seqNum == s.seqNum && h.data == []
    && h.syn == (s.state == LISTEN) && h.fin == (r.state == CLOSING)
  }

  ghost predicate Repeats(tx: seq<TxEntry>, q: nat, out: seq<Segment>) {
    forall g :: g in out ==> Starts(tx, q, g)
  }

  lemma {:induction false} FastRepeats(tx: seq<TxEntry>, q: nat)
    ensures Repeats(tx, q, FastResent(tx, q))
  {
    if tx != [] {
      FastRepeats(tx[1..], q);
      forall g | g in FastResent(tx, q) ensures Starts(tx, q, g) { StartsTail(tx, q, g); }
    }
  }

  /** Counting duplicates changes no segment. */
  lemma StartsCounted(tx: seq<TxEntry>, d: seq<TxEntry>, q: nat, g: Segment)
    requires |d| == |tx| && (forall i :: 0 <= i < |tx| ==> d[i].seg == tx[i].seg && d[i].sendSeq == tx[i].sendSeq)
    requires Starts(d, q, g)
    ensures Starts(tx, q, g)
  {
    var i :| 0 <= i < |d| && d[i].sendSeq == q && d[i].seg == g;
    assert tx[i] in tx;
  }

  lemma AckRepeats(tx: seq<TxEntry>, q: nat)
    ensures Repeats(tx, q, AckOut(tx, q))
  {
    if |AckRemove(tx, q)| >= |tx| {
      var d := CountDups(tx, q);
      FastRepeats(d, q);
      forall g | g in FastResent(d, q) ensures Starts(tx, q, g) { StartsCounted(tx, d, q, g); }
    }
  }

  predicate OnlyLast(out: seq<Segment>, front: seq<Segment>) {
    out != [] && out[..|out| - 1] == front
  }

  /** Retransmissions caused by the acknowledgement come first, the answer to the segment last. */
  lemma OutParts(s: Socket, g: Segment, m: TxMem)
    ensures var r, a := Receive(s, g, m), AckedOut(s, g);
      if Owes(s, g) then Answers(s, r.sock, r.out) && (OnlyLast(r.out, []) || OnlyLast(r.out, a))
      else r.out == [] || r.out == a
  {
    match s.state
    case ESTABLISHED => OutEstablished(s, g, m);
    case _ =>
  }

  lemma OutEstablished(s: Socket, g: Segment, m: TxMem)
    requires s.state == ESTABLISHED
    ensures var r, a := Receive(s, g, m), AckedOut(s, g);
      if Owes(s, g) then Answers(s, r.sock, r.out) && (OnlyLast(r.out, []) || OnlyLast(r.out, a))
      else r.out == [] || r.out == a
  {
    var a := AckedOut(s, g);
    if g.data == [] || s.ackNum == g.seqNum {
      var s1 := Acked(Take(s, g), g);
      var b := Response(s1, g, m);
      assert b.out == [] || (|b.out| == 1 && a + b.out == a + [b.out[0]]);
    }
  }

  /** Every SYN, every FIN and all data that count are acknowledged at once, with the number the socket then waits for;
      nothing else is, and all else that goes out repeats a queued segment of the acknowledged number. */
  lemma Answered(s: Socket, g: Segment, m: TxMem)
    ensures var r := Receive(s, g, m);
      if Owes(s, g) then Answers(s, r.sock, r.out) && Repeats(s.tx, g.ackNum, r.out[..|r.out| - 1])
      else Repeats(s.tx, g.ackNum, r.out)
  {
    OutParts(s, g, m);
    AckRepeats(s.tx, g.ackNum);
  }

  /** A SYN, a byte of data and the FIN of close use up one sequence number each, as section 3.4 of RFC 9293 asks; the
      FIN that answers a FIN does not. */
  lemma NumbersUsed(s: Socket, g: Segment, d: seq<Byte>, m: TxMem)
    requires s.seqNum < TWO32
    ensures Connect(s, m).Done? ==> Connect(s, m).sock.seqNum == Add32(s.seqNum, 1)
    ensures Send(s, d, m).Done? ==> Send(s, d, m).sock.seqNum == Add32(s.seqNum, |d|)
    ensures Close(s, m).Done? ==>
      Close(s, m).sock.seqNum == if Close(s, m).out == [] then s.seqNum else Add32(s.seqNum, 1)
    ensures Receive(s, g, m).sock.seqNum ==
      if s.state == LISTEN && g.syn then Add32(s.seqNum, 1) else s.seqNum
  {
  }

  /** The edges of the state diagram: an arrival changes the state exactly along these. */
  lemma MovesExactly(s: Socket, g: Segment, m: TxMem)
    ensures var st := Receive(s, g, m).sock.state;
      && (s.state == LISTEN ==> (st == SYN_RCVD <==> g.syn))
      && (s.state in {SYN_RCVD, CLOSING} ==> (st != s.state <==> g.ack))
      && (s.state == SYN_SENT ==> (st != s.state <==> g.syn && g.ack))
      && (s.state == ESTABLISHED ==>
            (st != s.state <==> g.fin && g.ack && (g.data == [] || g.seqNum == s.ackNum)))
      && (s.state == FIN_WAIT_1 ==> (st != s.state <==> g.fin && g.ack))
      && (st == s.state || (s.state, st) in {(LISTEN, SYN_RCVD), (SYN_RCVD, ESTABLISHED), (SYN_SENT, ESTABLISHED),
            (ESTABLISHED, CLOSING), (FIN_WAIT_1, CLOSED), (CLOSING, CLOSED)})
  {
  }

  /** Whatever has to be acknowledged stays queued: each segment with a SYN, a FIN or data. */
  ghost predicate Held(tx: seq<TxEntry>, out: seq<Segment>) {
    forall g :: g in out && (g.syn || g.fin || g.data != []) ==> Starts(tx, g.seqNum, g)
  }

  lemma EnqueueHolds(s: Socket, k: Kind, data: seq<Byte>, m: TxMem)
    ensures Starts(Enqueue(s, k, data, m).tx, s.seqNum, Stamp(s, k, data))
  {
    var r := Enqueue(s, k, data, m);
    assert r.tx[|s.tx|] in r.tx;
  }

  /** In calls from the user. */
  lemma CallHolds(s: Socket, d: seq<Byte>, m: TxMem)
    ensures Connect(s, m).Done? ==> Held(Connect(s, m).sock.tx, Connect(s, m).out)
    ensures Send(s, d, m).Done? ==> Held(Send(s, d, m).sock.tx, Send(s, d, m).out)
    ensures Close(s, m).Done? ==> Held(Close(s, m).sock.tx, Close(s, m).out)
  {
    EnqueueHolds(s, Syn, [], m);
    EnqueueHolds(s, Ack, d, m);
    EnqueueHolds(s, FinAck, [], m);
  }

  /** And in the answer to a segment. */
  lemma AnswerHolds(s: Socket, g: Segment, m: TxMem)
    requires Owes(s, g)
    ensures var r := Receive(s, g, m);
      r.out != [] && var h := r.out[|r.out| - 1]; h.syn || h.fin ==> Starts(r.sock.tx, s.seqNum, h)
  {
    OutParts(s, g, m);
    var s1 := s.(ackNum := Add32(g.seqNum, 1));
    EnqueueHolds(s1, SynAck, [], m);
    if s.state == ESTABLISHED && g.fin && g.ack && (g.data == [] || s.ackNum == g.seqNum) {
      var s2 := Acked(Take(s, g), g);
      EnqueueHolds(s2.(ackNum := Add32(s2.ackNum, 1)), FinAck, [], m);
    }
  }
}
