/** A socket of kernel/net/tcp.c in the heap, with its retransmission queue as an intrusive list. Every method is
    proved against the function of the same name in Tcp. */
module TcpSockets {
  import opened Words
  import opened Lists
  import T = Tcp

  /** struct tcp_tx_data; only the duplicate counter changes after it is queued. */
  class TxData {
    const sendSeq: nat
    const waitAck: nat
    var dup: nat
    const seg: T.Segment
    const mem: T.TxMem

    constructor (sendSeq: nat, waitAck: nat, seg: T.Segment, mem: T.TxMem)
      ensures Value() == T.TxEntry(sendSeq, waitAck, 0, seg, mem)
    {
      this.sendSeq, this.waitAck, this.dup, this.seg, this.mem := sendSeq, waitAck, 0, seg, mem;
    }

    ghost function Value(): T.TxEntry
      reads this
    {
      T.TxEntry(sendSeq, waitAck, dup, seg, mem)
    }
  }

  ghost function Values(rs: seq<TxData>): (r: seq<T.TxEntry>)
    reads rs
    ensures |r| == |rs| && forall i :: 0 <= i < |rs| ==> r[i] == rs[i].Value()
  {
    seq(|rs|, i requires 0 <= i < |rs| reads rs => rs[i].Value())
  }

  /** Every node of s is one of t. */
  ghost predicate Within(s: seq<Node<TxData>>, t: seq<Node<TxData>>) {
    forall i :: 0 <= i < |s| ==> s[i] in t
  }

  ghost predicate Distinct(rs: seq<TxData>) {
    forall i, j :: 0 <= i < j < |rs| ==> rs[i] != rs[j]
  }

  /** list_remove of the entry at position i, which is then cut off from its successor. */
  method Unlink(tx: List<TxData>, prev: Node<TxData>, ghost i: nat)
    requires tx.Valid() && 1 <= i < |tx.items| && prev == tx.items[i - 1]
    modifies tx, tx.items`next
    ensures tx.Valid() && tx.items == Cut(old(tx.items), i) && old(tx.items[i]).next == null
  {
    ghost var p, was := i - 1, tx.items;
    tx.Remove(prev, p);
    assert p + 1 == i && tx.items == was[..i] + was[i + 1..];
  }

  /** The scan of handle_ack: removes the first covered entry behind the head, and ends there because list_remove
      has cleared the link it would follow. */
  method RemoveBehindHead(tx: List<TxData>, ack: nat) returns (found: bool)
    requires tx.Valid() && tx.items != []
    modifies tx, tx.items`next
    ensures tx.Valid() && tx.head == old(tx.head)
    ensures !found ==> tx.items == old(tx.items)
    ensures Within(tx.items, old(tx.items))
    ensures var was := old(tx.Contents());
      var i := T.FirstCovered(old(Values(tx.Contents())), 1, ack);
      && found == (i < |was|)
      && tx.Contents() == Without(was, i)
  {
    ghost var was, vals := tx.Contents(), Values(tx.Contents());
    ghost var nodes := tx.items;
    var prev := tx.head;
    var cur := prev.next;
    ghost var i := 1;
    found := false;
    while cur != null
      invariant tx.Valid() && 1 <= i <= |nodes|
      invariant Uncovered(was, i, ack)
      invariant !found ==> prev == nodes[i - 1] && cur == Succ(nodes, i - 1)
      invariant found ==> cur == null && i < |nodes| && was[i].waitAck <= ack
      invariant tx.items == if found then Cut(nodes, i) else nodes
      decreases if cur == null then 0 else |nodes| + 1 - i
    {
      if cur.data.waitAck <= ack {
        Unlink(tx, prev, i);
        found := true;
      } else {
        UncoveredNext(was, i, ack);
        i := i + 1;
      }
      prev := cur;
      cur := cur.next;
    }
    FirstIs(vals, i, ack);
    CutNodes(nodes, i);
  }

  /** No record behind the head and before i is covered. */
  ghost predicate Uncovered(rs: seq<TxData>, i: nat, ack: nat) {
    i <= |rs| && forall j :: 1 <= j < i ==> rs[j].waitAck > ack
  }

  lemma UncoveredNext(rs: seq<TxData>, i: nat, ack: nat)
    requires Uncovered(rs, i, ack) && i < |rs| && rs[i].waitAck > ack
    ensures Uncovered(rs, i + 1, ack)
  {
  }

  ghost function Cut(s: seq<Node<TxData>>, i: nat): seq<Node<TxData>> {
    if i < |s| then s[..i] + s[i + 1..] else s
  }

  lemma CutNodes(s: seq<Node<TxData>>, i: nat)
    requires 1 <= i <= |s|
    ensures Within(Cut(s, i), s) && Cut(s, i)[0] == s[0]
    ensures Payloads(Cut(s, i)) == Without(Payloads(s), i)
  {
    if i < |s| { PayloadsCut(s, i); }
  }

  lemma {:induction false} FirstFrom(tx: seq<T.TxEntry>, j: nat, i: nat, ack: nat)
    requires j <= i <= |tx|
    requires forall k :: j <= k < i ==> tx[k].waitAck > ack
    requires i < |tx| ==> tx[i].waitAck <= ack
    ensures T.FirstCovered(tx, j, ack) == i
    decreases i - j
  {
    if j < i { FirstFrom(tx, j + 1, i, ack); }
  }

  lemma FirstIs(tx: seq<T.TxEntry>, i: nat, ack: nat)
    requires 1 <= i <= |tx|
    requires forall k :: 1 <= k < i ==> tx[k].waitAck > ack
    requires i < |tx| ==> tx[i].waitAck <= ack
    ensures T.FirstCovered(tx, 1, ack) == i
  {
    FirstFrom(tx, 1, i, ack);
  }

  lemma CutValues(rs: seq<TxData>, i: nat)
    requires i < |rs|
    ensures Values(rs[..i] + rs[i + 1..]) == Values(rs)[..i] + Values(rs)[i + 1..]
  {
    var t := rs[..i] + rs[i + 1..];
    forall k | 0 <= k < |t| ensures t[k] == if k < i then rs[k] else rs[k + 1] {}
  }

  lemma CutDistinct(rs: seq<TxData>, i: nat)
    requires Distinct(rs) && i < |rs|
    ensures Distinct(rs[..i] + rs[i + 1..])
  {
    var t := rs[..i] + rs[i + 1..];
    forall k | 0 <= k < |t| ensures t[k] == if k < i then rs[k] else rs[k + 1] {}
  }

  /** What is left of rs when position i, if there is one, has been taken out. */
  ghost function Without(rs: seq<TxData>, i: nat): seq<TxData> {
    if i < |rs| then rs[..i] + rs[i + 1..] else rs
  }

  lemma WithoutValues(rs: seq<TxData>, i: nat)
    requires i <= |rs| && Distinct(rs)
    ensures Values(Without(rs, i)) == if i < |rs| then Values(rs)[..i] + Values(rs)[i + 1..] else Values(rs)
    ensures Distinct(Without(rs, i))
  {
    if i < |rs| {
      CutValues(rs, i);
      CutDistinct(rs, i);
    }
  }

  /** The check of the head that follows the scan. */
  method RemoveHead(tx: List<TxData>, ack: nat) returns (found: bool)
    requires tx.Valid() && tx.items != []
    modifies tx, tx.head`next
    ensures tx.Valid() && Within(tx.items, old(tx.items))
    ensures !found ==> tx.items == old(tx.items)
    ensures found == (old(tx.Contents())[0].waitAck <= ack)
    ensures tx.Contents() == if found then old(tx.Contents())[1..] else old(tx.Contents())
  {
    found := tx.head.data.waitAck <= ack;
    if found {
      var first := tx.PopFront();
    }
  }

  /** The entries left by the scan, whose find stands at position i, and the check of the head. */
  ghost function Left(rs: seq<TxData>, i: nat, ack: nat): seq<TxData>
    requires 1 <= i <= |rs|
  {
    var rest := Without(rs, i);
    if rest[0].waitAck <= ack then rest[1..] else rest
  }

  lemma LeftValues(rs: seq<TxData>, ack: nat)
    requires rs != [] && Distinct(rs)
    ensures var left := Left(rs, T.FirstCovered(Values(rs), 1, ack), ack);
      T.AckRemove(Values(rs), ack) == Values(left) && Distinct(left)
  {
    var i := T.FirstCovered(Values(rs), 1, ack);
    WithoutValues(rs, i);
    WithoutFirst(Without(rs, i));
  }

  lemma WithoutFirst(rs: seq<TxData>)
    requires rs != [] && Distinct(rs)
    ensures Values(rs[1..]) == Values(rs)[1..] && Distinct(rs[1..])
  {
    WithoutValues(rs, 0);
    assert Without(rs, 0) == rs[1..];
  }

  method RemoveOldest(tx: List<TxData>, ack: nat) returns (found: bool)
    requires tx.Valid() && tx.items != []
    modifies tx, tx.items`next
    ensures tx.Valid() && Within(tx.items, old(tx.items))
    ensures !found ==> tx.items == old(tx.items)
    ensures tx.Contents() == Left(old(tx.Contents()), T.FirstCovered(old(Values(tx.Contents())), 1, ack), ack)
    ensures found == (|tx.items| < |old(tx.items)|)
  {
    found := RemoveBehindHead(tx, ack);
    var first := RemoveHead(tx, ack);
    found := found || first;
  }

  /** The removing half of handle_ack, on a queue that is not empty. */
  method RemoveAcked(tx: List<TxData>, ack: nat) returns (found: bool)
    requires tx.Valid() && tx.items != [] && Distinct(tx.Contents())
    modifies tx, tx.items`next
    ensures tx.Valid() && Distinct(tx.Contents()) && Within(tx.items, old(tx.items))
    ensures !found ==> tx.items == old(tx.items)
    ensures Values(tx.Contents()) == T.AckRemove(old(Values(tx.Contents())), ack)
    ensures found == (|tx.items| < |old(tx.items)|)
  {
    LeftValues(tx.Contents(), ack);
    ghost var left := Left(tx.Contents(), T.FirstCovered(Values(tx.Contents()), 1, ack), ack);
    ghost var vals := Values(left);
    found := RemoveOldest(tx, ack);
    assert forall k :: 0 <= k < |left| ==> left[k].Value() == vals[k];
  }

  /** The records up to i have been counted, the others still hold what they were. */
  ghost predicate CountedTo(rs: seq<TxData>, i: nat, was: seq<T.TxEntry>, ack: nat)
    reads rs
  {
    && |rs| == |was|
    && forall k :: 0 <= k < |rs| ==> rs[k].Value() == if k < i then T.CountDup(was[k], ack) else was[k]
  }

  lemma CountedAll(rs: seq<TxData>, was: seq<T.TxEntry>, ack: nat)
    requires CountedTo(rs, |rs|, was, ack)
    ensures Values(rs) == T.CountDups(was, ack)
    ensures T.CountDups(was, ack)[..|rs|] == T.CountDups(was, ack)
  {
  }

  /** Counts a duplicate for one entry, which must be sent again from the third on. */
  method CountDup(r: TxData, ack: nat, ghost rs: seq<TxData>, ghost i: nat, ghost was: seq<T.TxEntry>)
    returns (again: bool)
    requires i < |rs| && rs[i] == r && Distinct(rs) && CountedTo(rs, i, was, ack)
    modifies r`dup
    ensures CountedTo(rs, i + 1, was, ack)
    ensures again == (r.sendSeq == ack && T.CountDups(was, ack)[i].dup >= T.RETRANSMIT_DUP_ACK_NUM)
  {
    again := false;
    if r.sendSeq == ack {
      r.dup := Add32(r.dup, 1);
      again := r.dup >= T.RETRANSMIT_DUP_ACK_NUM;
    }
  }

  /** One turn of the loop below. */
  method CountNext(r: TxData, ack: nat, sent: seq<T.Segment>, ghost rs: seq<TxData>, ghost i: nat,
                   ghost was: seq<T.TxEntry>) returns (out: seq<T.Segment>)
    requires i < |rs| && rs[i] == r && Distinct(rs) && CountedTo(rs, i, was, ack)
    requires sent == T.FastResent(T.CountDups(was, ack)[..i], ack)
    modifies r`dup
    ensures CountedTo(rs, i + 1, was, ack) && out == T.FastResent(T.CountDups(was, ack)[..i + 1], ack)
  {
    FastResentNext(T.CountDups(was, ack), i, ack);
    out := sent;
    var again := CountDup(r, ack, rs, i, was);
    if again {
      out := out + [r.seg];
    }
  }

  /** The loop over the queue, whose nodes are those given. */
  method CountLoop(head: Node?<TxData>, ack: nat, ghost nodes: seq<Node<TxData>>, ghost rs: seq<TxData>,
                   ghost was: seq<T.TxEntry>) returns (out: seq<T.Segment>)
    requires Chain(head, nodes) && rs == Payloads(nodes) && Distinct(rs) && CountedTo(rs, 0, was, ack)
    modifies rs`dup
    ensures CountedTo(rs, |rs|, was, ack) && out == T.FastResent(T.CountDups(was, ack)[..|rs|], ack)
  {
    ghost var i := 0;
    var cur := head;
    out := [];
    while cur != null
      invariant i <= |nodes| && cur == if i < |nodes| then nodes[i] else null
      invariant CountedTo(rs, i, was, ack)
      invariant out == T.FastResent(T.CountDups(was, ack)[..i], ack)
      decreases |nodes| - i
    {
      assert nodes[i].next == Succ(nodes, i);
      out := CountNext(cur.data, ack, out, rs, i, was);
      cur := cur.next;
      i := i + 1;
    }
  }

  /** The other half of handle_ack: counts a duplicate acknowledgement and retransmits after the third. */
  method CountDups(tx: List<TxData>, ack: nat) returns (out: seq<T.Segment>)
    requires tx.Valid() && Distinct(tx.Contents())
    modifies tx.Contents()`dup
    ensures Values(tx.Contents()) == T.CountDups(old(Values(tx.Contents())), ack)
    ensures out == T.FastResent(Values(tx.Contents()), ack)
    ensures tx.Valid() && tx.items == old(tx.items)
  {
    ghost var rs, was := tx.Contents(), Values(tx.Contents());
    out := CountLoop(tx.head, ack, tx.items, rs, was);
    CountedAll(rs, was, ack);
  }

  lemma FastResentNext(tx: seq<T.TxEntry>, i: nat, ack: nat)
    requires i < |tx|
    ensures T.FastResent(tx[..i + 1], ack) == T.FastResent(tx[..i], ack)
      + if tx[i].sendSeq == ack && tx[i].dup >= T.RETRANSMIT_DUP_ACK_NUM then [tx[i].seg] else []
  {
    FastResentSnoc(tx[..i], tx[i], ack);
    assert tx[..i] + [tx[i]] == tx[..i + 1];
  }

  lemma {:induction false} FastResentSnoc(tx: seq<T.TxEntry>, e: T.TxEntry, ack: nat)
    ensures T.FastResent(tx + [e], ack) == T.FastResent(tx, ack)
      + if e.sendSeq == ack && e.dup >= T.RETRANSMIT_DUP_ACK_NUM then [e.seg] else []
  {
    if tx == [] {
      assert [e][1..] == [];
    } else {
      FastResentSnoc(tx[1..], e, ack);
      assert (tx + [e])[1..] == tx[1..] + [e];
    }
  }

  /** An acknowledgement that shortens the queue by nothing leaves it as it is. */
  lemma NoneRemoved(tx: seq<T.TxEntry>, ack: nat)
    ensures |T.AckRemove(tx, ack)| <= |tx|
    ensures |T.AckRemove(tx, ack)| == |tx| ==> T.AckRemove(tx, ack) == tx
    ensures T.AckTx([], ack) == [] && T.AckOut([], ack) == []
  {
  }

  /** handle_ack on the queue. */
  method AckQueue(tx: List<TxData>, ack: nat) returns (out: seq<T.Segment>)
    requires tx.Valid() && Distinct(tx.Contents())
    modifies tx, tx.items`next, tx.Contents()`dup
    ensures tx.Valid() && Distinct(tx.Contents()) && Within(tx.items, old(tx.items))
    ensures Values(tx.Contents()) == T.AckTx(old(Values(tx.Contents())), ack)
    ensures out == T.AckOut(old(Values(tx.Contents())), ack)
    ensures |tx.items| <= |old(tx.items)|
  {
    NoneRemoved(Values(tx.Contents()), ack);
    out := [];
    if tx.head == null { return; }
    var found := RemoveAcked(tx, ack);
    if found { return; }
    out := CountDups(tx, ack);
  }

  class TcpSocket {
    var state: T.State
    var seqNum: nat
    var ackNum: nat
    var rx: seq<seq<Byte>>
    const tx: List<TxData>

    ghost predicate Valid()
      reads this, tx, tx.items
    {
      tx.Valid() && Distinct(tx.Contents())
    }

    ghost function Value(): (r: T.Socket)
      reads this, tx, tx.Contents()
    {
      T.Socket(state, seqNum, ackNum, rx, Values(tx.Contents()))
    }

    /** tcp_socket_init and tcp_socket. */
    constructor ()
      ensures Valid() && Value() == T.Socket(T.CLOSED, 0, 0, [], [])
    {
      state, seqNum, ackNum, rx := T.CLOSED, 0, 0, [];
      tx := new List<TxData>();
    }

    /** The part of tcp_send that keeps a segment until it is acknowledged. */
    method Keep(seg: T.Segment, m: T.TxMem)
      requires Valid() && |tx.items| + 1 < UINT16 && seg.seqNum == seqNum
      modifies this`seqNum, tx, tx.items`next
      ensures Valid() && seqNum == Add32(old(seqNum), |seg.data|)
      ensures Values(tx.Contents()) == old(Values(tx.Contents())) + [T.TxEntry(old(seqNum), seqNum, 0, seg, m)]
    {
      ghost var rs, was := tx.Contents(), Values(tx.Contents());
      var next := Add32(seqNum, |seg.data|);
      var r := new TxData(seqNum, next, seg, m);
      seqNum := next;
      var item := new Node(r);
      tx.PushBack(item);
      assert forall i :: 0 <= i < |rs| ==> rs[i] != r && rs[i].Value() == was[i];
    }

    /** tcp_send without need_ack: the segment is built, transmitted and forgotten. */
    method Stamped(k: T.Kind, data: seq<Byte>) returns (seg: T.Segment)
      ensures seg == T.Stamp(Value(), k, data)
    {
      seg := T.Segment(seqNum, ackNum, k.Syn? || k.SynAck?, !k.Syn?, k.FinAck?, data);
    }

    /** tcp_send with need_ack: transmits, and keeps the segment until it is acknowledged. */
    method Transmit(k: T.Kind, data: seq<Byte>, m: T.TxMem) returns (seg: T.Segment)
      requires Valid() && |tx.items| + 1 < UINT16
      modifies this`seqNum, tx, tx.items`next
      ensures Valid() && seg == T.Stamp(old(Value()), k, data)
      ensures Value() == T.Enqueue(old(Value()), k, data, m)
    {
      seg := Stamped(k, data);
      Keep(seg, m);
    }

    method HandleAck(ack: nat) returns (out: seq<T.Segment>)
      requires Valid()
      modifies tx, tx.items`next, tx.Contents()`dup
      ensures Valid() && Value() == T.HandleAck(old(Value()), ack)
      ensures out == T.AckOut(old(Value()).tx, ack)
      ensures Within(tx.items, old(tx.items)) && |tx.items| <= |old(tx.items)|
    {
      out := AckQueue(tx, ack);
    }

    /** The acknowledgement of a segment, if it carries one. */
    method TakeAck(g: T.Segment) returns (out: seq<T.Segment>)
      requires Valid()
      modifies tx, tx.items`next, tx.Contents()`dup
      ensures Valid() && Value() == T.Acked(old(Value()), g) && out == T.AckedOut(old(Value()), g)
      ensures Within(tx.items, old(tx.items)) && |tx.items| <= |old(tx.items)|
    {
      out := [];
      if g.ack {
        out := HandleAck(g.ackNum);
      }
    }

    // ----- one field at a time -----

    method Enter(st: T.State)
      requires Valid()
      modifies this`state
      ensures Valid() && Value() == old(Value()).(state := st)
    {
      state := st;
    }

    method Advance()
      requires Valid()
      modifies this`seqNum
      ensures Valid() && Value() == T.Advance(old(Value()))
    {
      seqNum := Add32(seqNum, 1);
    }

    method SetAck(n: nat)
      requires Valid()
      modifies this`ackNum
      ensures Valid() && Value() == old(Value()).(ackNum := n)
    {
      ackNum := n;
    }

    /** The copy of an accepted payload into rx_data_list. */
    method Store(g: T.Segment)
      requires Valid() && T.Accepted(Value(), g) == g.data
      modifies this`rx, this`ackNum
      ensures Valid() && Value() == T.Take(old(Value()), g)
    {
      if |g.data| > 0 {
        rx := rx + [g.data];
        ackNum := Add32(g.seqNum, |g.data|);
      }
    }

    // ----- calls from the user: a panic stops the machine -----

    method Connect(m: T.TxMem) returns (panic: bool, out: seq<T.Segment>)
      requires Valid() && |tx.items| + 1 < UINT16
      modifies this, tx, tx.items`next
      ensures Valid() && T.Connect(old(Value()), m) == if panic then T.Panic else T.Done(Value(), out)
    {
      panic, out := state != T.CLOSED, [];
      if !panic {
        var seg := Transmit(T.Syn, [], m);
        Advance();
        Enter(T.SYN_SENT);
        out := [seg];
      }
    }

    method Listen() returns (panic: bool)
      requires Valid()
      modifies this`state
      ensures Valid() && T.Listen(old(Value())) == if panic then T.Panic else T.Done(Value(), [])
    {
      panic := state != T.CLOSED;
      if !panic {
        Enter(T.LISTEN);
      }
    }

    method Send(data: seq<Byte>, m: T.TxMem) returns (panic: bool, out: seq<T.Segment>)
      requires Valid() && |tx.items| + 1 < UINT16
      modifies this, tx, tx.items`next
      ensures Valid() && T.Send(old(Value()), data, m) == if panic then T.Panic else T.Done(Value(), out)
    {
      panic, out := state != T.ESTABLISHED, [];
      if !panic {
        var seg := Transmit(T.Ack, data, m);
        out := [seg];
      }
    }

    method Close(m: T.TxMem) returns (panic: bool, out: seq<T.Segment>)
      requires Valid() && |tx.items| + 1 < UINT16
      modifies this, tx, tx.items`next
      ensures Valid() && T.Close(old(Value()), m) == if panic then T.Panic else T.Done(Value(), out)
    {
      panic, out := false, [];
      match state
      case ESTABLISHED =>
        var seg := Transmit(T.FinAck, [], m);
        Advance();
        Enter(T.FIN_WAIT_1);
        out := [seg];
      case CLOSED =>
      case CLOSING =>
      case _ => panic := true;
    }

    // ----- timers -----

    method ConnectTimeout()
      requires Valid()
      modifies this`state
      ensures Valid() && Value() == T.ConnectTimeout(old(Value()))
    {
      if state == T.SYN_SENT {
        state := T.CLOSED;
      }
    }

    /** The scan of tcp_ack_timeout: what it sends again, and whether the timeout must be set anew. */
    method AckTimeout(sendSeq: nat) returns (again: bool, out: seq<T.Segment>)
      requires Valid()
      ensures out == if state == T.CLOSED then [] else T.Resent(Value().tx, sendSeq)
      ensures again == (out != [])
    {
      again, out := false, [];
      if state == T.CLOSED { return; }
      ghost var nodes, vals := tx.items, Values(tx.Contents());
      ghost var i := 0;
      var cur := tx.head;
      while cur != null
        invariant i <= |nodes| && cur == if i < |nodes| then nodes[i] else null
        invariant out == T.Resent(vals[..i], sendSeq) && again == (out != [])
        decreases |nodes| - i
      {
        assert cur.data.Value() == vals[i] && nodes[i].next == Succ(nodes, i);
        if cur.data.sendSeq == sendSeq {
          again, out := true, out + [cur.data.seg];
        }
        ResentNext(vals, i, sendSeq);
        i := i + 1;
        cur := cur.next;
      }
      assert vals[..i] == vals;
    }

    // ----- segment arrives -----

    method ReceiveListen(g: T.Segment, m: T.TxMem) returns (out: seq<T.Segment>)
      requires Valid() && |tx.items| + 1 < UINT16 && state == T.LISTEN
      modifies this, tx, tx.items`next
      ensures Valid() && T.Receive(old(Value()), g, m) == T.Done(Value(), out)
    {
      out := [];
      if g.syn {
        SetAck(Add32(g.seqNum, 1));
        var seg := Transmit(T.SynAck, [], m);
        Advance();
        Enter(T.SYN_RCVD);
        out := [seg];
      }
    }

    method ReceiveSynRcvd(g: T.Segment, m: T.TxMem) returns (out: seq<T.Segment>)
      requires Valid() && state == T.SYN_RCVD
      modifies this, tx, tx.items`next, tx.Contents()`dup
      ensures Valid() && T.Receive(old(Value()), g, m) == T.Done(Value(), out)
    {
      out := [];
      if g.ack {
        out := TakeAck(g);
        Store(g);
        Enter(T.ESTABLISHED);
      }
    }

    /** Sets ack_num, acknowledges and changes state: the last half of a handshake, and of a closing connection. */
    method Answer(n: nat, st: T.State) returns (seg: T.Segment)
      requires Valid()
      modifies this`ackNum, this`state
      ensures Valid() && var s := old(Value()).(ackNum := n);
        Value() == s.(state := st) && seg == T.Stamp(s, T.Ack, [])
    {
      SetAck(n);
      seg := Stamped(T.Ack, []);
      Enter(st);
    }

    method ReceiveSynSent(g: T.Segment, m: T.TxMem) returns (out: seq<T.Segment>)
      requires Valid() && state == T.SYN_SENT
      modifies this, tx, tx.items`next, tx.Contents()`dup
      ensures Valid() && T.Receive(old(Value()), g, m) == T.Done(Value(), out)
    {
      out := [];
      if g.syn && g.ack {
        out := TakeAck(g);
        var seg := Answer(Add32(g.seqNum, 1), T.ESTABLISHED);
        out := out + [seg];
      }
    }

    method ReceiveFinWait1(g: T.Segment, m: T.TxMem) returns (out: seq<T.Segment>)
      requires Valid() && state == T.FIN_WAIT_1
      modifies this, tx, tx.items`next, tx.Contents()`dup
      ensures Valid() && T.Receive(old(Value()), g, m) == T.Done(Value(), out)
    {
      ghost var s0 := Value();
      out := TakeAck(g);
      var fin := g.fin && g.ack;
      if fin {
        var seg := Answer(Add32(ackNum, 1), T.CLOSED);
        out := out + [seg];
      }
      FinWait1Is(s0, g, m, Value(), out);
    }

    /** What ends the handling of a segment in ESTABLISHED: the answer to its FIN or to its data. */
    method Respond(g: T.Segment, m: T.TxMem) returns (out: seq<T.Segment>)
      requires Valid() && |tx.items| + 1 < UINT16
      modifies this, tx, tx.items`next
      ensures Valid() && T.Response(old(Value()), g, m) == T.Done(Value(), out)
    {
      out := [];
      if g.fin && g.ack {
        SetAck(Add32(ackNum, 1));
        var seg := Transmit(T.FinAck, [], m);
        out := [seg];
        Enter(T.CLOSING);
      } else if |g.data| > 0 {
        var seg := Stamped(T.Ack, []);
        out := [seg];
      }
    }

    method ReceiveEstablished(g: T.Segment, m: T.TxMem) returns (out: seq<T.Segment>)
      requires Valid() && |tx.items| + 1 < UINT16 && state == T.ESTABLISHED
      modifies this, tx, tx.items`next, tx.Contents()`dup
      ensures Valid() && T.Receive(old(Value()), g, m) == T.Done(Value(), out)
    {
      out := [];
      if |g.data| > 0 && ackNum != g.seqNum {
        var seg := Stamped(T.Ack, []);
        return [seg];
      }
      ghost var s0 := Value();
      Store(g);
      out := TakeAck(g);
      var answer := Respond(g, m);
      EstablishedIs(s0, g, m, Value(), out, answer);
      out := out + answer;
    }

    /** tcp_recv_pkt. */
    method Receive(g: T.Segment, m: T.TxMem) returns (out: seq<T.Segment>)
      requires Valid() && |tx.items| + 1 < UINT16
      modifies this, tx, tx.items`next, tx.Contents()`dup
      ensures Valid() && T.Receive(old(Value()), g, m) == T.Done(Value(), out)
    {
      out := [];
      match state
      case LISTEN => out := ReceiveListen(g, m);
      case SYN_RCVD => out := ReceiveSynRcvd(g, m);
      case SYN_SENT => out := ReceiveSynSent(g, m);
      case ESTABLISHED => out := ReceiveEstablished(g, m);
      case FIN_WAIT_1 => out := ReceiveFinWait1(g, m);
      case CLOSING => if g.ack { state := T.CLOSED; }
      case _ =>
    }
  }

  /** The ESTABLISHED branch, for a segment that is not dropped. */
  lemma EstablishedIs(s: T.Socket, g: T.Segment, m: T.TxMem, r: T.Socket, out: seq<T.Segment>, answer: seq<T.Segment>)
    requires s.state == T.ESTABLISHED && T.Accepted(s, g) == g.data && out == T.AckedOut(T.Take(s, g), g)
    requires T.Response(T.Acked(T.Take(s, g), g), g, m) == T.Done(r, answer)
    ensures T.Receive(s, g, m) == T.Done(r, out + answer)
  {
  }

  /** The FIN_WAIT_1 branch, from the acknowledgement on. */
  lemma FinWait1Is(s: T.Socket, g: T.Segment, m: T.TxMem, r: T.Socket, out: seq<T.Segment>)
    requires s.state == T.FIN_WAIT_1
    requires var s1 := T.Acked(s, g);
      var s2 := s1.(ackNum := Add32(s1.ackNum, 1));
      if g.fin && g.ack then r == s2.(state := T.CLOSED) && out == T.AckedOut(s, g) + [T.Stamp(s2, T.Ack, [])]
      else r == s1 && out == T.AckedOut(s, g)
    ensures T.Receive(s, g, m) == T.Done(r, out)
  {
  }

  lemma ResentNext(tx: seq<T.TxEntry>, i: nat, sendSeq: nat)
    requires i < |tx|
    ensures T.Resent(tx[..i + 1], sendSeq)
      == T.Resent(tx[..i], sendSeq) + if tx[i].sendSeq == sendSeq then [tx[i].seg] else []
  {
    ResentSnoc(tx[..i], tx[i], sendSeq);
    assert tx[..i] + [tx[i]] == tx[..i + 1];
  }

  lemma {:induction false} ResentSnoc(tx: seq<T.TxEntry>, e: T.TxEntry, sendSeq: nat)
    ensures T.Resent(tx + [e], sendSeq) == T.Resent(tx, sendSeq) + if e.sendSeq == sendSeq then [e.seg] else []
  {
    if tx == [] {
      assert [e][1..] == [];
    } else {
      ResentSnoc(tx[1..], e, sendSeq);
      assert (tx + [e])[1..] == tx[1..] + [e];
    }
  }
}
