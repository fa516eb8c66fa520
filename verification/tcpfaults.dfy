/** Runs in which kernel/net/tcp.c breaks a law for want of a check: the premises of TcpRuns are needed. In all of them
    a client sends the byte 7, and 8 or its FIN after it, to a listener. */
module TcpFaults {
  import opened Tcp
  import opened TcpHist
  import opened TcpNet
  import opened TcpRuns

  const SYN := Segment(0, 0, true, false, false, [])
  const SYN_ACK := Segment(0, 1, true, true, false, [])
  const ACK := Segment(1, 1, false, true, false, [])
  const SEVEN := Segment(1, 1, false, true, false, [7])
  const EIGHT := Segment(2, 1, false, true, false, [8])
  const FIN := Segment(2, 1, false, true, true, [])
  const FIN_ACK := Segment(1, 2, false, true, true, [])

  /** Of the later openings of the client. */
  const FIN1 := Segment(1, 1, false, true, true, [])
  const SYN2 := Segment(2, 2, true, false, false, [])
  const NINE := Segment(3, 1, false, true, false, [9])
  const FIN4 := Segment(4, 2, false, true, true, [])
  const SYN4 := Segment(4, 2, true, false, false, [])
  const SYN_ACK5 := Segment(1, 5, true, true, false, [])

  /** Of a listener that sends the byte 5 while the client closes. */
  const FIVE := Segment(1, 1, false, true, false, [5])
  const FIN2 := Segment(2, 2, false, true, true, [])
  const ACK2 := Segment(2, 2, false, true, false, [])

  // ----- the client -----

  function Caller(m: TxMem): End { Act(START, Connecting(m)) }
  function Client(m: TxMem): End { Act(Caller(m), Delivery(SYN_ACK, m)) }
  function Speaker(m: TxMem): End { Act(Client(m), Sending([7], m)) }
  function Leaver(m: TxMem): End { Act(Speaker(m), Closing(m)) }

  /** Nothing is sent again when the head of the queue is acknowledged or the queue is empty. */
  lemma AckSilent(tx: seq<TxEntry>, ack: nat)
    requires tx == [] || tx[0].waitAck <= ack
    ensures AckOut(tx, ack) == []
  {
  }

  lemma CallerIs(m: TxMem)
    ensures var x := Caller(m);
      && x.sock == Socket(SYN_SENT, 1, 0, [], [TxEntry(0, 0, 0, SYN, m)]) && x.wire == {SYN}
  {
    ActConnect(START, m);
    assert {} + {SYN} == {SYN};
  }

  lemma ClientIs(m: TxMem)
    ensures var x := Client(m);
      && x.sock == Socket(ESTABLISHED, 1, 1, [], []) && x.wire == {SYN, ACK}
  {
    CallerIs(m);
    var x := Caller(m);
    AckSilent(x.sock.tx, 1);
    AckRemovesTwo(x.sock.tx, 1, 1);
    ActSynSent(x, SYN_ACK, m);
    assert {SYN} + {ACK} == {SYN, ACK};
  }

  lemma SpeakerIs(m: TxMem)
    ensures var x := Speaker(m);
      && x.sock == Socket(ESTABLISHED, 2, 1, [], [TxEntry(1, 2, 0, SEVEN, m)]) && x.wire == {SYN, ACK, SEVEN}
  {
    ClientIs(m);
    ActSend(Client(m), [7], m);
    assert {SYN, ACK} + {SEVEN} == {SYN, ACK, SEVEN};
  }

  lemma LeaverIs(m: TxMem)
    ensures var x := Leaver(m);
      && x.sock == Socket(FIN_WAIT_1, 3, 1, [], [TxEntry(1, 2, 0, SEVEN, m), TxEntry(2, 2, 0, FIN, m)])
      && x.wire == {SYN, ACK, SEVEN, FIN}
  {
    SpeakerIs(m);
    ActClose(Speaker(m), m);
    assert {SYN, ACK, SEVEN} + {FIN} == {SYN, ACK, SEVEN, FIN};
  }

  // ----- the listener -----

  function Open(m: TxMem): End { Act(Act(START, Listening), Delivery(SYN, m)) }

  lemma OpenIs(m: TxMem)
    ensures var x := Open(m);
      && x.sock == Socket(SYN_RCVD, 1, 1, [], [TxEntry(0, 0, 0, SYN_ACK, m)]) && x.wire == {SYN_ACK}
      && x.hist == Synced(Opened(NONE, 1), 1) && x.stored == []
  {
    OutOne({}, SYN);
    ActListen(Act(START, Listening), SYN, m);
    assert {} + {SYN_ACK} == {SYN_ACK};
  }

  // ----- building runs -----

  /** If the step takes a FIN, it is in order. */
  predicate FinOk(n: Net, st: Step) {
    var x := if st.AtA? then n.a else n.b;
    st.ev.Delivery? && TakesFin(x.sock, st.ev.g) ==> st.ev.g.seqNum == x.sock.ackNum
  }

  predicate FinOkAt(ns: seq<Net>, sts: seq<Step>, i: nat) { i < |sts| && i < |ns| && FinOk(ns[i], sts[i]) }

  ghost predicate FinsInOrder(ns: seq<Net>, sts: seq<Step>) { forall i: nat :: i < |sts| ==> FinOkAt(ns, sts, i) }

  lemma Then(ns: seq<Net>, sts: seq<Step>, st: Step, n': Net) returns (ms: seq<Net>, rs: seq<Step>)
    requires IsRun(ns, sts) && StepOf(ns[|sts|], n', st)
    ensures IsRun(ms, rs) && ms[|rs|] == n' && rs == sts + [st]
    ensures FinsInOrder(ns, sts) && FinOk(ns[|sts|], st) ==> FinsInOrder(ms, rs)
  {
    ms, rs := ns + [n'], sts + [st];
    forall i: nat | i < |rs| ensures StepAt(ms, rs, i) {
      if i < |sts| { assert StepAt(ns, sts, i); }
    }
    if FinsInOrder(ns, sts) && FinOk(ns[|sts|], st) {
      forall i: nat | i < |rs| ensures FinOkAt(ms, rs, i) {
        if i < |sts| { assert FinOkAt(ns, sts, i); }
      }
    }
  }

  lemma StepA(x: End, y: End, ev: Event)
    requires Enabled(x, y, ev)
    ensures StepOf(Net(x, y), Net(Act(x, ev), y), AtA(ev))
  {
  }

  lemma StepB(x: End, y: End, ev: Event)
    requires Enabled(y, x, ev)
    ensures StepOf(Net(x, y), Net(x, Act(y, ev)), AtB(ev))
  {
  }

  function Hello(m: TxMem): seq<Step> {
    [AtA(Connecting(m))] + [AtB(Listening)] + [AtB(Delivery(SYN, m))] + [AtA(Delivery(SYN_ACK, m))]
  }

  /** The handshake, up to the client's last ACK. */
  lemma Handshake(m: TxMem) returns (ns: seq<Net>, sts: seq<Step>)
    ensures IsRun(ns, sts) && FinsInOrder(ns, sts) && ns[|sts|] == Net(Client(m), Open(m))
    ensures sts == Hello(m)
  {
    CallerIs(m);
    OpenIs(m);
    ns, sts := [Net(START, START)], [];
    ns, sts := Then(ns, sts, AtA(Connecting(m)), Net(Caller(m), START));
    ns, sts := Then(ns, sts, AtB(Listening), Net(Caller(m), Act(START, Listening)));
    ns, sts := Then(ns, sts, AtB(Delivery(SYN, m)), Net(Caller(m), Open(m)));
    ns, sts := Then(ns, sts, AtA(Delivery(SYN_ACK, m)), Net(Client(m), Open(m)));
  }

  // ----- data before its turn -----

  /** The bare ACK and the first byte are lost, and the listener takes the second byte as the first. */
  lemma HandshakeDataOutOfOrder(m: TxMem) returns (ns: seq<Net>, sts: seq<Step>)
    ensures IsRun(ns, sts) && EIGHT in ns[|sts|].a.wire && !InOrder(ns[|sts|].b.sock, EIGHT)
    ensures Act(ns[|sts|].b, Delivery(EIGHT, m)).stored == [8]
  {
    ns, sts := Handshake(m);
    ClientIs(m);
    SpeakerIs(m);
    ns, sts := Then(ns, sts, AtA(Sending([7], m)), Net(Speaker(m), Open(m)));
    ActSend(Speaker(m), [8], m);
    ns, sts := Then(ns, sts, AtA(Sending([8], m)), Net(Act(Speaker(m), Sending([8], m)), Open(m)));
    OpenIs(m);
    var x := Open(m);
    AckSilent(x.sock.tx, 1);
    ActSynRcvdData(x, Acking(x, EIGHT), EIGHT, m);
  }

  // ----- a FIN before its data -----

  function Greeted(m: TxMem): End { Act(Open(m), Delivery(ACK, m)) }
  function Ended(m: TxMem): End { Act(Greeted(m), Delivery(FIN, m)) }
  function Gone(m: TxMem): End { Act(Leaver(m), Delivery(FIN_ACK, m)) }

  lemma GreetedIs(m: TxMem)
    ensures var x := Greeted(m);
      && x.sock == Socket(ESTABLISHED, 1, 1, [], []) && x.wire == {SYN_ACK}
      && x.hist == Synced(Opened(NONE, 1), 1) && x.stored == []
  {
    OpenIs(m);
    var x := Open(m);
    AckSilent(x.sock.tx, 1);
    AckRemovesTwo(x.sock.tx, 1, 1);
    ActSynRcvd(x, Acking(x, ACK), ACK, m);
  }

  lemma EndedIs(m: TxMem)
    ensures var x := Ended(m);
      && x.sock.state == CLOSING && x.sock.ackNum == 2 && x.wire == {SYN_ACK, FIN_ACK}
      && x.hist == FinSent(FinTook(Synced(Opened(NONE, 1), 1))) && x.stored == []
  {
    GreetedIs(m);
    var x := Greeted(m);
    AckSilent(x.sock.tx, 1);
    ActFin(x, Acking(x, FIN), FIN, m);
    assert {SYN_ACK} + {FIN_ACK} == {SYN_ACK, FIN_ACK};
  }

  lemma GoneIs(m: TxMem)
    ensures Gone(m).sock.state == CLOSED && Gone(m).sock.tx == [] && SEVEN in Gone(m).wire
  {
    LeaverIs(m);
    var x := Leaver(m);
    AckSilent(x.sock.tx, 2);
    AckRemovesTwo(x.sock.tx, 2, 2);
    ActFinWait1(x, Acking(x, FIN_ACK), FIN_ACK, m);
  }

  lemma FinRun(m: TxMem) returns (ns: seq<Net>, sts: seq<Step>)
    ensures IsRun(ns, sts) && ns[|sts|] == Net(Gone(m), Ended(m))
  {
    ns, sts := Handshake(m);
    ClientIs(m);
    ns, sts := Then(ns, sts, AtA(Sending([7], m)), Net(Speaker(m), Open(m)));
    SpeakerIs(m);
    ns, sts := Then(ns, sts, AtA(Closing(m)), Net(Leaver(m), Open(m)));
    LeaverIs(m);
    OpenIs(m);
    ns, sts := Then(ns, sts, AtB(Delivery(ACK, m)), Net(Leaver(m), Greeted(m)));
    GreetedIs(m);
    ns, sts := Then(ns, sts, AtB(Delivery(FIN, m)), Net(Leaver(m), Ended(m)));
    EndedIs(m);
    ns, sts := Then(ns, sts, AtA(Delivery(FIN_ACK, m)), Net(Gone(m), Ended(m)));
  }

  /** A run in which the FIN overtakes the byte before it. The listener takes it out of order and acknowledges past the
      byte, which the client then drops from its queue and closes: the byte has been sent, has not been accepted, and
      is kept nowhere. */
  lemma FinOvertakes(m: TxMem) returns (ns: seq<Net>, sts: seq<Step>)
    ensures IsRun(ns, sts)
    ensures var a, b := ns[|sts|].a, ns[|sts|].b;
      && a.sock.state == CLOSED && a.sock.tx == [] && SEVEN in a.wire && b.stored == []
      && !Remembered(a, b) && b.hist.base in b.hist.taken && !Whole(a.hist, b.hist, b.hist.base)
  {
    ns, sts := FinRun(m);
    GoneIs(m);
    EndedIs(m);
    LeaverHist(m);
    assert forall t :: !Within(Ended(m).hist, t, SEVEN);
  }

  /** The client's opening holds the byte. */
  lemma LeaverHist(m: TxMem)
    ensures 1 in Gone(m).hist.streams && Gone(m).hist.streams[1] == [7]
  {
    SpeakerHist(m);
    SpeakerIs(m);
    ActClose(Speaker(m), m);
    LeaverIs(m);
    AckSilent(Leaver(m).sock.tx, 2);
    ActFinWait1(Leaver(m), Acking(Leaver(m), FIN_ACK), FIN_ACK, m);
  }

  lemma SpeakerHist(m: TxMem)
    ensures Speaker(m).hist == Sent(Synced(Opened(NONE, 1), 1), [7])
  {
    ActConnect(START, m);
    CallerIs(m);
    AckSilent(Caller(m).sock.tx, 1);
    ActSynSent(Caller(m), SYN_ACK, m);
    ClientIs(m);
    ActSend(Client(m), [7], m);
  }

  // ----- a SYN used twice -----

  function Hearer(m: TxMem): End { Act(Open(m), Delivery(SEVEN, m)) }
  function Over(m: TxMem): End { Act(Hearer(m), Delivery(FIN, m)) }
  function Shut(m: TxMem): End { Act(Over(m), Delivery(ACK, m)) }
  function Waiter(m: TxMem): End { Act(Shut(m), Listening) }
  function Reopened(m: TxMem): End { Act(Waiter(m), Delivery(SYN, m)) }
  function Twice(m: TxMem): End { Act(Reopened(m), Delivery(SEVEN, m)) }

  lemma HearerIs(m: TxMem)
    ensures var x := Hearer(m);
      && x.sock == Socket(ESTABLISHED, 1, 2, [[7]], []) && x.stored == [7]
      && x.hist == Took(Synced(Opened(NONE, 1), 1), [7])
  {
    OpenIs(m);
    var x := Open(m);
    AckSilent(x.sock.tx, 1);
    AckRemovesTwo(x.sock.tx, 1, 1);
    ActSynRcvdData(x, Acking(x, SEVEN), SEVEN, m);
  }

  lemma OverIs(m: TxMem)
    ensures var x := Over(m);
      && x.sock.state == CLOSING && x.sock.seqNum == 1
      && x.sock.tx == [TxEntry(1, 1, 0, Segment(1, 3, false, true, true, []), m)]
      && x.stored == [7] && x.hist == FinSent(FinTook(Took(Synced(Opened(NONE, 1), 1), [7])))
  {
    HearerIs(m);
    var x := Hearer(m);
    AckSilent(x.sock.tx, 1);
    ActFin(x, Acking(x, FIN), FIN, m);
  }

  lemma WaiterIs(m: TxMem)
    ensures Shut(m).sock.state == CLOSED && Waiter(m).sock == Over(m).sock.(state := LISTEN)
    ensures Waiter(m).stored == [7] && Waiter(m).hist == Over(m).hist
  {
    OverIs(m);
    ActClosing(Over(m), ACK, m);
    OutOne(Shut(m).wire, ACK);
  }

  lemma ReopenedIs(m: TxMem)
    ensures var x := Reopened(m);
      && x.sock.state == SYN_RCVD && x.sock.seqNum == 2 && x.sock.ackNum == 1 && x.stored == [7]
      && x.sock.tx != [] && x.sock.tx[0].waitAck == 1
      && x.hist == Synced(Opened(Over(m).hist, 2), 1)
  {
    OverIs(m);
    WaiterIs(m);
    var w := Waiter(m);
    assert w.sock.state == LISTEN && w.sock.seqNum == 1 && |w.sock.tx| == 1 && w.sock.tx[0].waitAck == 1;
    ActListen(w, SYN, m);
    AnsweringIs(w, m);
  }

  lemma AnsweringIs(w: End, m: TxMem)
    requires w.sock.state == LISTEN && w.sock.seqNum == 1
    ensures var s := Answering(w, SYN, m).sock;
      s.state == SYN_RCVD && s.seqNum == 2 && s.ackNum == 1 && w.sock.tx <= s.tx
  {
  }

  lemma TwiceIs(m: TxMem)
    ensures Twice(m).stored == [7, 7] && Twice(m).hist == Took(Synced(Opened(Over(m).hist, 2), 1), [7])
  {
    ReopenedIs(m);
    var x := Reopened(m);
    AckSilent(x.sock.tx, 1);
    ActSynRcvdData(x, Acking(x, SEVEN), SEVEN, m);
    assert [7] + [7] == [7, 7];
  }

  lemma TwiceRun(m: TxMem) returns (ns: seq<Net>, sts: seq<Step>)
    ensures IsRun(ns, sts) && FinsInOrder(ns, sts) && ns[|sts|] == Net(Leaver(m), Twice(m))
  {
    ns, sts := Handshake(m);
    ClientIs(m);
    ns, sts := Then(ns, sts, AtA(Sending([7], m)), Net(Speaker(m), Open(m)));
    SpeakerIs(m);
    ns, sts := Then(ns, sts, AtA(Closing(m)), Net(Leaver(m), Open(m)));
    LeaverIs(m);
    OpenIs(m);
    ns, sts := Then(ns, sts, AtB(Delivery(SEVEN, m)), Net(Leaver(m), Hearer(m)));
    HearerIs(m);
    ns, sts := Then(ns, sts, AtB(Delivery(FIN, m)), Net(Leaver(m), Over(m)));
    OverIs(m);
    ns, sts := Then(ns, sts, AtB(Delivery(ACK, m)), Net(Leaver(m), Shut(m)));
    WaiterIs(m);
    ns, sts := Then(ns, sts, AtB(Listening), Net(Leaver(m), Waiter(m)));
    ns, sts := Then(ns, sts, AtB(Delivery(SYN, m)), Net(Leaver(m), Reopened(m)));
    ReopenedIs(m);
    ns, sts := Then(ns, sts, AtB(Delivery(SEVEN, m)), Net(Leaver(m), Twice(m)));
  }

  /** A run in which the listener, opened again, takes the old SYN and the old byte behind it: the client sent one byte,
      the listener has accepted it twice, everything being in order. */
  lemma AcceptedTwice(m: TxMem) returns (ns: seq<Net>, sts: seq<Step>)
    ensures IsRun(ns, sts) && FinsInOrder(ns, sts)
    ensures var h := ns[|sts|].b.hist;
      && ns[|sts|].b.stored == [7, 7]
      && 1 in h.links && 2 in h.links && 1 in h.got && 2 in h.got && h.links[1] == h.links[2] && Overlap(h, 1, 2)
  {
    ns, sts := TwiceRun(m);
    TwiceIs(m);
    OverIs(m);
    assert Holds(Twice(m).hist, 1, 1) && Holds(Twice(m).hist, 2, 1);
  }

  // ----- a SYN used twice, and data forgotten -----

  function Left(m: TxMem): End { Act(Client(m), Closing(m)) }
  function Answered(m: TxMem): End { Act(Greeted(m), Delivery(FIN1, m)) }
  function Done1(m: TxMem): End { Act(Left(m), Delivery(FIN_ACK, m)) }
  function Caller2(m: TxMem): End { Act(Done1(m), Connecting(m)) }
  function Client2(m: TxMem): End { Act(Caller2(m), Delivery(SYN_ACK, m)) }
  function Speaker2(m: TxMem): End { Act(Client2(m), Sending([9], m)) }
  function Ending2(m: TxMem): End { Act(Speaker2(m), Delivery(FIN_ACK, m)) }
  function Done2(m: TxMem): End { Act(Ending2(m), Delivery(SYN_ACK, m)) }
  function Caller3(m: TxMem): End { Act(Done2(m), Connecting(m)) }
  function Client3(m: TxMem): End { Act(Caller3(m), Delivery(SYN_ACK5, m)) }
  function Shut1(m: TxMem): End { Act(Answered(m), Delivery(ACK, m)) }
  function Waiter1(m: TxMem): End { Act(Shut1(m), Listening) }
  function Open2(m: TxMem): End { Act(Waiter1(m), Delivery(SYN4, m)) }

  lemma LeftIs(m: TxMem)
    ensures var x := Left(m); x.sock == Socket(FIN_WAIT_1, 2, 1, [], [TxEntry(1, 1, 0, FIN1, m)]) && FIN1 in x.wire
  {
    ClientIs(m);
    ActClose(Client(m), m);
  }

  lemma AnsweredIs(m: TxMem)
    ensures var x := Answered(m);
      && x.sock == Socket(CLOSING, 1, 2, [], [TxEntry(1, 1, 0, FIN_ACK, m)]) && SYN_ACK in x.wire && FIN_ACK in x.wire
      && x.hist == FinSent(FinTook(Synced(Opened(NONE, 1), 1)))
  {
    GreetedIs(m);
    var x := Greeted(m);
    AckSilent(x.sock.tx, 1);
    ActFin(x, Acking(x, FIN1), FIN1, m);
  }

  lemma Done1Is(m: TxMem)
    ensures Done1(m).sock == Socket(CLOSED, 2, 2, [], [])
  {
    LeftIs(m);
    var x := Left(m);
    AckSilent(x.sock.tx, 2);
    AckRemovesTwo(x.sock.tx, 2, 1);
    ActFinWait1(x, Acking(x, FIN_ACK), FIN_ACK, m);
  }

  lemma Caller2Is(m: TxMem)
    ensures Caller2(m).sock == Socket(SYN_SENT, 3, 2, [], [TxEntry(2, 2, 0, SYN2, m)])
  {
    Done1Is(m);
    ActConnect(Done1(m), m);
  }

  /** An acknowledgement that covers nothing and starts no entry changes nothing. */
  lemma AckNothing(tx: seq<TxEntry>, ack: nat)
    requires |tx| == 1 && tx[0].waitAck > ack && tx[0].sendSeq != ack
    ensures AckTx(tx, ack) == tx && AckOut(tx, ack) == []
  {
    AckRemovesTwo(tx, ack, 0);
    assert tx[0..] == tx && tx[1..] == [] && CountDups(tx, ack) == tx;
    assert FastResent(tx, ack) == [] + FastResent(tx[1..], ack);
  }

  lemma Client2Is(m: TxMem)
    ensures Client2(m).sock == Socket(ESTABLISHED, 3, 1, [], [TxEntry(2, 2, 0, SYN2, m)])
  {
    Caller2Is(m);
    var x := Caller2(m);
    AckNothing(x.sock.tx, 1);
    ActSynSent(x, SYN_ACK, m);
  }

  lemma Speaker2Is(m: TxMem)
    ensures var x := Speaker2(m);
      x.sock == Socket(ESTABLISHED, 4, 1, [], [TxEntry(2, 2, 0, SYN2, m), TxEntry(3, 4, 0, NINE, m)]) && NINE in x.wire
  {
    Client2Is(m);
    ActSend(Client2(m), [9], m);
  }

  lemma Ending2Is(m: TxMem)
    ensures var x := Ending2(m);
      x.sock == Socket(CLOSING, 4, 2, [], [TxEntry(3, 4, 0, NINE, m), TxEntry(4, 4, 0, FIN4, m)]) && NINE in x.wire
  {
    Speaker2Is(m);
    var x := Speaker2(m);
    AckSilent(x.sock.tx, 2);
    AckRemovesTwo(x.sock.tx, 2, 1);
    ActFin(x, Acking(x, FIN_ACK), FIN_ACK, m);
  }

  lemma Caller3Is(m: TxMem)
    ensures Done2(m).sock.state == CLOSED && Done2(m).sock.seqNum == 4
    ensures var x := Caller3(m);
      && x.sock == Socket(SYN_SENT, 5, 2, [],
           [TxEntry(3, 4, 0, NINE, m), TxEntry(4, 4, 0, FIN4, m), TxEntry(4, 4, 0, SYN4, m)])
      && NINE in x.wire && SYN4 in x.wire
  {
    Ending2Is(m);
    ActClosing(Ending2(m), SYN_ACK, m);
    ActConnect(Done2(m), m);
  }

  lemma Client3Is(m: TxMem)
    ensures Client3(m).sock.tx == [TxEntry(4, 4, 0, SYN4, m)] && NINE in Client3(m).wire
  {
    Caller3Is(m);
    var x := Caller3(m);
    AckSilent(x.sock.tx, 5);
    AckRemovesTwo(x.sock.tx, 5, 3);
    ActSynSent(x, SYN_ACK5, m);
  }

  lemma Shut1Is(m: TxMem)
    ensures SYN_ACK in Shut1(m).wire && FIN_ACK in Shut1(m).wire
  {
    AnsweredIs(m);
    ActClosing(Answered(m), ACK, m);
  }

  lemma Open2Is(m: TxMem)
    ensures Shut1(m).sock.state == CLOSED && Waiter1(m).sock.state == LISTEN && Waiter1(m).sock.seqNum == 1
    ensures SYN_ACK5 in Open2(m).wire
    ensures Open2(m).hist == Synced(Opened(FinSent(FinTook(Synced(Opened(NONE, 1), 1))), 2), 5)
  {
    AnsweredIs(m);
    ActClosing(Answered(m), ACK, m);
    OutOne(Shut1(m).wire, ACK);
    ActListen(Waiter1(m), SYN4, m);
  }

  lemma ForgetRun0(m: TxMem) returns (ns: seq<Net>, sts: seq<Step>)
    ensures IsRun(ns, sts) && FinsInOrder(ns, sts) && ns[|sts|] == Net(Left(m), Greeted(m))
    ensures sts == Hello(m) + [AtB(Delivery(ACK, m))] + [AtA(Closing(m))]
  {
    ns, sts := Handshake(m);
    ClientIs(m);
    OpenIs(m);
    StepB(Client(m), Open(m), Delivery(ACK, m));
    ns, sts := Then(ns, sts, AtB(Delivery(ACK, m)), Net(Client(m), Greeted(m)));
    StepA(Client(m), Greeted(m), Closing(m));
    ns, sts := Then(ns, sts, AtA(Closing(m)), Net(Left(m), Greeted(m)));
  }

  lemma ForgetRun1(m: TxMem) returns (ns: seq<Net>, sts: seq<Step>)
    ensures IsRun(ns, sts) && FinsInOrder(ns, sts) && ns[|sts|] == Net(Left(m), Shut1(m))
  {
    ns, sts := ForgetRun0(m);
    GreetedIs(m);
    LeftIs(m);
    LeftWire(m);
    ns, sts := Then(ns, sts, AtB(Delivery(FIN1, m)), Net(Left(m), Answered(m)));
    AnsweredIs(m);
    ns, sts := Then(ns, sts, AtB(Delivery(ACK, m)), Net(Left(m), Shut1(m)));
  }

  lemma ForgetRun2(m: TxMem) returns (ns: seq<Net>, sts: seq<Step>)
    ensures IsRun(ns, sts) && FinsInOrder(ns, sts) && ns[|sts|] == Net(Caller2(m), Shut1(m))
  {
    ns, sts := ForgetRun1(m);
    Shut1Is(m);
    LeftIs(m);
    ns, sts := Then(ns, sts, AtA(Delivery(FIN_ACK, m)), Net(Done1(m), Shut1(m)));
    Done1Is(m);
    ns, sts := Then(ns, sts, AtA(Connecting(m)), Net(Caller2(m), Shut1(m)));
  }

  lemma LeftWire(m: TxMem)
    ensures ACK in Left(m).wire
  {
    ClientIs(m);
    ActClose(Client(m), m);
  }

  lemma ForgetRun3(m: TxMem) returns (ns: seq<Net>, sts: seq<Step>)
    ensures IsRun(ns, sts) && FinsInOrder(ns, sts) && ns[|sts|] == Net(Speaker2(m), Shut1(m))
  {
    ns, sts := ForgetRun2(m);
    Shut1Is(m);
    Caller2Is(m);
    var x, y := Caller2(m), Shut1(m);
    StepA(x, y, Delivery(SYN_ACK, m));
    ns, sts := Then(ns, sts, AtA(Delivery(SYN_ACK, m)), Net(Client2(m), y));
    Client2Is(m);
    StepA(Client2(m), y, Sending([9], m));
    ns, sts := Then(ns, sts, AtA(Sending([9], m)), Net(Speaker2(m), y));
  }

  lemma ForgetRun4(m: TxMem) returns (ns: seq<Net>, sts: seq<Step>)
    ensures IsRun(ns, sts) && FinsInOrder(ns, sts) && ns[|sts|] == Net(Done2(m), Shut1(m))
  {
    ns, sts := ForgetRun3(m);
    Shut1Is(m);
    Speaker2Is(m);
    ns, sts := Then(ns, sts, AtA(Delivery(FIN_ACK, m)), Net(Ending2(m), Shut1(m)));
    Ending2Is(m);
    ns, sts := Then(ns, sts, AtA(Delivery(SYN_ACK, m)), Net(Done2(m), Shut1(m)));
  }

  lemma ForgetRun5(m: TxMem) returns (ns: seq<Net>, sts: seq<Step>)
    ensures IsRun(ns, sts) && FinsInOrder(ns, sts) && ns[|sts|] == Net(Client3(m), Open2(m))
  {
    ns, sts := ForgetRun4(m);
    Open2Is(m);
    Caller3Is(m);
    ns, sts := Then(ns, sts, AtA(Connecting(m)), Net(Caller3(m), Shut1(m)));
    ns, sts := Then(ns, sts, AtB(Listening), Net(Caller3(m), Waiter1(m)));
    ns, sts := Then(ns, sts, AtB(Delivery(SYN4, m)), Net(Caller3(m), Open2(m)));
    ns, sts := Then(ns, sts, AtA(Delivery(SYN_ACK5, m)), Net(Client3(m), Open2(m)));
  }

  /** tcp_socket_connect draws a port from the tick: TCP_PORT_START + (t * t + t) % 10000. */
  function Port(t: nat): nat { 6000 + (t * t + t) % 10000 }

  /** Ports come round every 10000 ticks, so segments of an earlier opening do find the socket again. */
  lemma PortRepeats(t: nat)
    ensures Port(t + 10000) == Port(t)
  {
    var u := t + 10000;
    assert u * u + u == t * t + t + 10000 * (2 * t + 10001);
    Mod10000(t * t + t, 2 * t + 10001);
  }

  lemma {:induction false} Mod10000(x: nat, k: nat)
    ensures (x + 10000 * k) % 10000 == x % 10000
  {
    if k > 0 { Mod10000(x, k - 1); }
  }

  /** A run in which every FIN is in order, but the client, opened again, takes the old SYN and the old FIN behind it,
      and so leaves its second opening before the listener has seen it. The third SYN's answer then acknowledges past
      the byte 9, which nobody has accepted and nobody keeps. */
  lemma StaleSynForgets(m: TxMem) returns (ns: seq<Net>, sts: seq<Step>)
    ensures IsRun(ns, sts) && FinsInOrder(ns, sts) && NINE in ns[|sts|].a.wire && !Remembered(ns[|sts|].a, ns[|sts|].b)
  {
    ns, sts := ForgetRun5(m);
    Client3Is(m);
    Open2Is(m);
    assert !Queued(Client3(m).sock.tx, NINE);
    assert forall t :: !Within(Open2(m).hist, t, NINE);
  }

  // ----- data that meets a closing socket -----

  function Talker(m: TxMem): End { Act(Greeted(m), Sending([5], m)) }
  function Deaf(m: TxMem): End { Act(Left(m), Delivery(FIVE, m)) }
  function Refused(m: TxMem): End { Act(Talker(m), Delivery(FIN1, m)) }
  function Quit(m: TxMem): End { Act(Deaf(m), Delivery(FIN2, m)) }
  function Dropped(m: TxMem): End { Act(Refused(m), Delivery(ACK2, m)) }

  lemma TalkerIs(m: TxMem)
    ensures var x := Talker(m);
      && x.sock == Socket(ESTABLISHED, 2, 1, [], [TxEntry(1, 2, 0, FIVE, m)]) && FIVE in x.wire
      && x.hist == Sent(Synced(Opened(NONE, 1), 1), [5])
  {
    GreetedIs(m);
    ActSend(Greeted(m), [5], m);
  }

  lemma LeftHist(m: TxMem)
    ensures Left(m).hist == FinSent(Synced(Opened(NONE, 1), 1)) && Left(m).stored == []
  {
    ActConnect(START, m);
    CallerIs(m);
    AckSilent(Caller(m).sock.tx, 1);
    ActSynSent(Caller(m), SYN_ACK, m);
    ClientIs(m);
    ActClose(Client(m), m);
  }

  /** The byte arrives in order, and nothing happens. */
  lemma DeafIs(m: TxMem)
    ensures var x := Deaf(m);
      && x.sock == Socket(FIN_WAIT_1, 2, 1, [], []) && FIN1 in x.wire && FIVE.seqNum == Left(m).sock.ackNum
      && x.stored == [] && x.hist == Left(m).hist
  {
    LeftIs(m);
    LeftHist(m);
    var x := Left(m);
    AckSilent(x.sock.tx, 1);
    AckRemovesTwo(x.sock.tx, 1, 1);
    ActFinWait1(x, Acking(x, FIVE), FIVE, m);
  }

  /** A first duplicate is only counted. */
  lemma AckDup(tx: seq<TxEntry>, ack: nat)
    requires |tx| == 1 && tx[0].waitAck > ack && tx[0].dup == 0
    ensures AckOut(tx, ack) == []
  {
    AckRemovesTwo(tx, ack, 0);
    var d := CountDups(tx, ack);
    assert tx[0..] == tx && d[1..] == [] && FastResent(d, ack) == [] + FastResent(d[1..], ack);
  }

  lemma RefusedIs(m: TxMem)
    ensures var x := Refused(m);
      x.sock.state == CLOSING && x.sock.seqNum == 2 && FIN2 in x.wire && x.hist.streams == Talker(m).hist.streams
  {
    TalkerIs(m);
    var x := Talker(m);
    AckDup(x.sock.tx, 1);
    ActFin(x, Acking(x, FIN1), FIN1, m);
  }

  lemma QuitIs(m: TxMem)
    ensures var x := Quit(m);
      x.sock.state == CLOSED && ACK2 in x.wire && x.stored == [] && x.hist == FinTook(Left(m).hist)
  {
    DeafIs(m);
    var x := Deaf(m);
    AckSilent(x.sock.tx, 2);
    ActFinWait1(x, Acking(x, FIN2), FIN2, m);
  }

  lemma DroppedIs(m: TxMem)
    ensures Dropped(m).sock.state == CLOSED && Dropped(m).hist.streams == Talker(m).hist.streams
  {
    RefusedIs(m);
    ActClosing(Refused(m), ACK2, m);
  }

  /** Every segment is delivered once, in the order sent. */
  function Fifo1(m: TxMem): seq<Step> {
    Hello(m) + [AtB(Delivery(ACK, m))] + [AtA(Closing(m))] + [AtB(Sending([5], m))] + [AtA(Delivery(FIVE, m))]
  }

  function Fifo(m: TxMem): seq<Step> {
    Fifo1(m) + [AtB(Delivery(FIN1, m))] + [AtA(Delivery(FIN2, m))] + [AtB(Delivery(ACK2, m))]
  }

  lemma LossRun1(m: TxMem) returns (ns: seq<Net>, sts: seq<Step>)
    ensures IsRun(ns, sts) && ns[|sts|] == Net(Deaf(m), Talker(m)) && sts == Fifo1(m)
  {
    ns, sts := ForgetRun0(m);
    GreetedIs(m);
    StepB(Left(m), Greeted(m), Sending([5], m));
    ns, sts := Then(ns, sts, AtB(Sending([5], m)), Net(Left(m), Talker(m)));
    TalkerIs(m);
    LeftIs(m);
    StepA(Left(m), Talker(m), Delivery(FIVE, m));
    ns, sts := Then(ns, sts, AtA(Delivery(FIVE, m)), Net(Deaf(m), Talker(m)));
  }

  lemma LossRun2(m: TxMem) returns (ns: seq<Net>, sts: seq<Step>)
    ensures IsRun(ns, sts) && ns[|sts|] == Net(Deaf(m), Refused(m)) && sts == Fifo1(m) + [AtB(Delivery(FIN1, m))]
  {
    ns, sts := LossRun1(m);
    DeafIs(m);
    TalkerIs(m);
    StepB(Deaf(m), Talker(m), Delivery(FIN1, m));
    ns, sts := Then(ns, sts, AtB(Delivery(FIN1, m)), Net(Deaf(m), Refused(m)));
  }

  lemma LossRun3(m: TxMem) returns (ns: seq<Net>, sts: seq<Step>)
    ensures IsRun(ns, sts) && ns[|sts|] == Net(Quit(m), Dropped(m)) && sts == Fifo(m)
  {
    ns, sts := LossRun2(m);
    DeafIs(m);
    RefusedIs(m);
    StepA(Deaf(m), Refused(m), Delivery(FIN2, m));
    ns, sts := Then(ns, sts, AtA(Delivery(FIN2, m)), Net(Quit(m), Refused(m)));
    QuitIs(m);
    StepB(Quit(m), Refused(m), Delivery(ACK2, m));
    ns, sts := Then(ns, sts, AtB(Delivery(ACK2, m)), Net(Quit(m), Dropped(m)));
  }

  /** A run on a network that loses, repeats and reorders nothing: every segment is delivered once, in the order sent.
      The client closes while the listener's byte is on the way. FIN_WAIT_1 drops the byte, which is in order; the
      listener's FIN is then taken out of order, and both ends are CLOSED with the byte accepted by nobody. */
  lemma CloseLosesData(m: TxMem) returns (ns: seq<Net>, sts: seq<Step>)
    ensures IsRun(ns, sts) && sts == Fifo(m)
    ensures var a, b := ns[|sts|].a, ns[|sts|].b;
      && a.sock.state == CLOSED && b.sock.state == CLOSED && a.stored == []
      && 1 in b.hist.streams && b.hist.streams[1] == [5] && 1 in a.hist.taken && !Whole(b.hist, a.hist, 1)
  {
    ns, sts := LossRun3(m);
    QuitIs(m);
    LeftHist(m);
    TalkerIs(m);
    DroppedIs(m);
  }
}
