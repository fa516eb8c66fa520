/** What TCP gets done, over every run of TcpRuns: what is outstanding can always be had again, every arrival that
    counts is acknowledged, and closing behind the peer's FIN is always allowed. */
module TcpProgress {
  import opened Words
  import opened Tcp
  import opened TcpHist
  import opened TcpNet
  import opened TcpRuns

  // ----- segments lie end to end -----

  /** A data segment that starts, or ends, at q. */
  ghost predicate DataAt(wire: set<Segment>, q: nat) { exists g :: g in wire && g.data != [] && g.seqNum == q }

  ghost predicate DataTo(wire: set<Segment>, q: nat) {
    exists g :: g in wire && g.data != [] && g.seqNum + |g.data| == q
  }

  predicate EndOf(h: Hist, b: nat, q: nat) { b in h.streams && q == b + |h.streams[b]| }

  ghost predicate Ends(h: Hist, q: nat) { exists b :: EndOf(h, b, q) }

  /** Every opening's bytes start with a segment, and behind each segment there is another, or nothing more to send. */
  ghost predicate Tiled(wire: set<Segment>, h: Hist) {
    && (forall b :: b in h.streams && h.streams[b] != [] ==> DataAt(wire, b))
    && (forall g :: g in wire && g.data != [] ==> Joined(wire, h, g))
  }

  ghost predicate Joined(wire: set<Segment>, h: Hist, g: Segment) {
    DataAt(wire, g.seqNum + |g.data|) || Ends(h, g.seqNum + |g.data|)
  }

  /** What has been accepted ends where a segment does. */
  ghost predicate AtStop(h: Hist, wire: set<Segment>) {
    h.base in h.links && At(h.got, h.base) != [] ==> DataTo(wire, h.links[h.base] + |h.got[h.base]|)
  }

  /** The only new data a step puts on the wire is what was passed to send, at seq_num. */
  ghost predicate NewData(wire: set<Segment>, wire': set<Segment>, ev: Event, seqNum: nat) {
    && wire <= wire'
    && (forall g :: g in wire' && g !in wire && g.data != [] ==> ev.Sending? && g.data == ev.data && g.seqNum == seqNum)
    && (ev.Sending? && ev.data != [] ==> DataAt(wire', seqNum))
  }

  lemma OutBare(s: Socket, g: Segment, m: TxMem, wire: set<Segment>, h: Segment)
    requires EntriesOk(s.tx, wire) && h in Receive(s, g, m).out
    ensures h in wire || h.data == []
  {
    var out := Receive(s, g, m).out;
    Answered(s, g, m);
    if Owes(s, g) {
      assert out == out[..|out| - 1] + [out[|out| - 1]];
      if h != out[|out| - 1] { assert h in out[..|out| - 1] && Starts(s.tx, g.ackNum, h); }
    } else {
      assert Starts(s.tx, g.ackNum, h);
    }
  }

  lemma ActNewData(x: End, y: End, ev: Event)
    requires Inv(x, y) && Enabled(x, y, ev)
    ensures NewData(x.wire, Act(x, ev).wire, ev, x.sock.seqNum)
  {
    match ev
    case Connecting(m) => ActConnect(x, m);
    case Sending(d, m) =>
      ActSend(x, d, m);
      assert Stamp(x.sock, Ack, d) in Act(x, ev).wire;
    case Closing(m) => ActClose(x, m);
    case AckTimer(q) => ResentOld(x.sock.tx, q, x.wire);
    case Delivery(g, m) =>
      forall h | h in Act(x, ev).wire && h !in x.wire ensures h.data == [] { OutBare(x.sock, g, m, x.wire, h); }
    case _ =>
  }

  /** Openings are added empty, and grow by what is sent. */
  ghost predicate NewStreams(h: Hist, h': Hist, ev: Event) {
    if ev.Sending? then h.base in h.streams && h'.streams == h.streams[h.base := h.streams[h.base] + ev.data]
    else forall b :: if b in h.streams then b in h'.streams && h'.streams[b] == h.streams[b]
                     else b in h'.streams ==> h'.streams[b] == []
  }

  lemma HeardNewStreams(h: Hist, s: Socket, g: Segment, ev: Event)
    requires s.state == LISTEN ==> Add32(s.seqNum, 1) !in h.streams
    requires !ev.Sending?
    ensures NewStreams(h, Heard(h, s, g), ev)
  {
  }

  lemma DeliveryNewStreams(x: End, g: Segment, m: TxMem)
    requires Local(x) && Ok(x.hist)
    ensures NewStreams(x.hist, Act(x, Delivery(g, m)).hist, Delivery(g, m))
  {
    if x.sock.state == LISTEN { NewNumber(x); }
    HeardNewStreams(x.hist, x.sock, g, Delivery(g, m));
  }

  lemma ActNewStreams(x: End, y: End, ev: Event)
    requires Local(x) && Ok(x.hist) && Enabled(x, y, ev)
    ensures NewStreams(x.hist, Act(x, ev).hist, ev)
  {
    match ev
    case Connecting(m) => OpenedApart(x.hist, x.sock.seqNum + 1);
    case Delivery(g, m) => DeliveryNewStreams(x, g, m);
    case _ =>
  }

  /** An end of an opening stays one, but for the bytes just sent behind it. */
  lemma EndsKept(h: Hist, h': Hist, ev: Event, q: nat)
    requires NewStreams(h, h', ev) && Ends(h, q) && (ev.Sending? && ev.data != [] ==> !EndOf(h, h.base, q))
    ensures Ends(h', q)
  {
    var b :| EndOf(h, b, q);
    assert EndOf(h', b, q);
  }

  lemma StartsKept(wire: set<Segment>, wire': set<Segment>, h: Hist, h': Hist, ev: Event, b: nat)
    requires Tiled(wire, h) && wire <= wire' && NewStreams(h, h', ev) && (ev.Sending? ==> ev.data == [])
    requires b in h'.streams && h'.streams[b] != []
    ensures DataAt(wire', b)
  {
    assert b in h.streams && h.streams[b] != [];
    assert DataAt(wire, b);
  }

  lemma JoinedKept(wire: set<Segment>, wire': set<Segment>, h: Hist, h': Hist, ev: Event, g: Segment)
    requires Joined(wire, h, g) && wire <= wire' && NewStreams(h, h', ev) && (ev.Sending? ==> ev.data == [])
    ensures Joined(wire', h', g)
  {
    if Ends(h, g.seqNum + |g.data|) { EndsKept(h, h', ev, g.seqNum + |g.data|); }
  }

  /** Steps that send no data. */
  lemma TiledQuiet(wire: set<Segment>, wire': set<Segment>, h: Hist, h': Hist, ev: Event, seqNum: nat)
    requires Tiled(wire, h) && NewData(wire, wire', ev, seqNum) && NewStreams(h, h', ev)
    requires ev.Sending? ==> ev.data == []
    ensures Tiled(wire', h')
  {
    forall b | b in h'.streams && h'.streams[b] != [] ensures DataAt(wire', b) {
      StartsKept(wire, wire', h, h', ev, b);
    }
    forall g | g in wire' && g.data != [] ensures Joined(wire', h', g) {
      assert g in wire;
      JoinedKept(wire, wire', h, h', ev, g);
    }
  }

  /** Data sent continues where the stream ended. */
  lemma TiledSend(wire: set<Segment>, wire': set<Segment>, h: Hist, h': Hist, ev: Event, seqNum: nat)
    requires Tiled(wire, h) && NewData(wire, wire', ev, seqNum) && NewStreams(h, h', ev)
    requires ev.Sending? && ev.data != [] && EndOf(h, h.base, seqNum)
    ensures Tiled(wire', h')
  {
    assert EndOf(h', h.base, seqNum + |ev.data|);
    forall g | g in wire' && g.data != [] ensures Joined(wire', h', g) {
      if g in wire {
        assert Joined(wire, h, g);
        var q := g.seqNum + |g.data|;
        if Ends(h, q) && q != seqNum { EndsKept(h, h', ev, q); }
      }
    }
  }

  lemma TiledStep(x: End, y: End, ev: Event)
    requires Inv(x, y) && Enabled(x, y, ev) && Tiled(x.wire, x.hist)
    ensures Tiled(Act(x, ev).wire, Act(x, ev).hist)
  {
    var x' := Act(x, ev);
    ActNewData(x, y, ev);
    ActNewStreams(x, y, ev);
    if ev.Sending? && ev.data != [] {
      TiledSend(x.wire, x'.wire, x.hist, x'.hist, ev, x.sock.seqNum);
    } else {
      TiledQuiet(x.wire, x'.wire, x.hist, x'.hist, ev, x.sock.seqNum);
    }
  }

  lemma StopStep(x: End, y: End, ev: Event)
    requires Inv(x, y) && Enabled(x, y, ev) && AtStop(x.hist, y.wire)
    ensures AtStop(Act(x, ev).hist, y.wire)
  {
    match ev
    case Delivery(g, m) => HeardStop(x.sock, x.hist, y.wire, g);
    case _ =>
  }

  lemma HeardStop(s: Socket, h: Hist, wire: set<Segment>, g: Segment)
    requires Shape(h) && SockOk(s, h) && AckOk(s, h) && InOrder(s, g) && g in wire && AtStop(h, wire)
    ensures AtStop(Heard(h, s, g), wire)
  {
    var h' := Heard(h, s, g);
    if Accepted(s, g) != [] { assert h'.got[h'.base] == h.got[h.base] + g.data; }
  }

  lemma StopWaits(h: Hist, wire: set<Segment>, wire': set<Segment>)
    requires AtStop(h, wire) && wire <= wire'
    ensures AtStop(h, wire')
  {
  }

  ghost predicate Placed(x: End, y: End) {
    Tiled(x.wire, x.hist) && Tiled(y.wire, y.hist) && AtStop(x.hist, y.wire) && AtStop(y.hist, x.wire)
  }

  lemma PlacedStep(x: End, y: End, ev: Event)
    requires Inv(x, y) && Enabled(x, y, ev) && Placed(x, y)
    ensures Placed(Act(x, ev), y)
  {
    TiledStep(x, y, ev);
    StopStep(x, y, ev);
    ActNewData(x, y, ev);
    StopWaits(y.hist, x.wire, Act(x, ev).wire);
  }

  lemma PlacedNext(n: Net, n': Net, st: Step)
    requires StepOf(n, n', st) && Inv(n.a, n.b) && Placed(n.a, n.b)
    ensures Placed(n'.a, n'.b)
  {
    match st
    case AtA(ev) => PlacedStep(n.a, n.b, ev);
    case AtB(ev) =>
      Mirror(n.a, n.b);
      PlacedStep(n.b, n.a, ev);
  }

  ghost predicate PlacedAt(ns: seq<Net>, n: nat) { n >= |ns| || Placed(ns[n].a, ns[n].b) }

  lemma PlacedOne(ns: seq<Net>, sts: seq<Step>, i: nat, n: nat)
    requires IsRun(ns, sts) && n == i + 1
    ensures PlacedAt(ns, n) || !PlacedAt(ns, i)
  {
    if n < |ns| && Placed(ns[i].a, ns[i].b) {
      RunKeeps(ns, sts, i);
      assert StepAt(ns, sts, i);
      PlacedNext(ns[i], ns[n], sts[i]);
    }
  }

  lemma PlacedStart()
    ensures Placed(START, START)
  {
  }

  lemma {:induction false} RunPlaced(ns: seq<Net>, sts: seq<Step>, n: nat)
    requires IsRun(ns, sts)
    ensures PlacedAt(ns, n)
    decreases n
  {
    if n == 0 {
      PlacedStart();
    } else {
      var i: nat := n - 1;
      PlacedOne(ns, sts, i, n);
      RunPlaced(ns, sts, i);
    }
  }

  // ----- what is outstanding can be had -----

  /** y is established and has not yet accepted all that the opening it is linked to was given to send. */
  predicate Behind(x: End, y: End) {
    && y.sock.state == ESTABLISHED && Waiting(y) && y.hist.links[y.hist.base] in x.hist.streams
    && |y.hist.got[y.hist.base]| < |x.hist.streams[y.hist.links[y.hist.base]]|
  }

  /** The number of bytes outstanding. */
  function Missing(x: End, y: End): nat
    requires Behind(x, y)
  {
    |x.hist.streams[y.hist.links[y.hist.base]]| - |y.hist.got[y.hist.base]|
  }

  lemma InsideNoEnd(x: Hist, c: nat, q: nat)
    requires Ok(x) && c in x.streams && c <= q < c + |x.streams[c]|
    ensures !Ends(x, q)
  {
    forall b: nat ensures !EndOf(x, b, q) { if b in x.streams && b < c { assert b + |x.streams[b]| < c; } }
  }

  lemma NextData(x: Hist, wire: set<Segment>, c: nat, q: nat)
    requires Tiled(wire, x) && c in x.streams && c <= q < c + |x.streams[c]| && (q == c || DataTo(wire, q))
    requires !Ends(x, q)
    ensures DataAt(wire, q)
  {
    if q != c {
      var g :| g in wire && g.data != [] && g.seqNum + |g.data| == q;
      assert Joined(wire, x, g);
    }
  }

  lemma AckNum(x: End, y: End)
    requires Inv(x, y) && Waiting(y)
    ensures y.sock.ackNum == y.hist.links[y.hist.base] + |y.hist.got[y.hist.base]|
  {
  }

  /** Some segment that has been transmitted starts exactly at ack_num. */
  lemma NextThere(x: End, y: End)
    requires Inv(x, y) && Placed(x, y) && Behind(x, y)
    ensures DataAt(x.wire, y.sock.ackNum)
  {
    AckNum(x, y);
    InsideNoEnd(x.hist, y.hist.links[y.hist.base], y.sock.ackNum);
    NextData(x.hist, x.wire, y.hist.links[y.hist.base], y.sock.ackNum);
  }

  /** What its arrival does: the data is stored and acknowledged, and less is outstanding. */
  ghost predicate Advances(x: End, y: End, y': End, g: Segment) {
    && y'.sock.state == y.sock.state && y'.sock.seqNum == y.sock.seqNum
    && y'.hist == Took(y.hist, g.data) && y'.stored == y.stored + g.data
    && (exists h :: h in y'.wire && h.ack && h.ackNum == g.seqNum + |g.data|)
  }

  lemma ArrivalAdvances(x: End, y: End, g: Segment, m: TxMem)
    requires Inv(x, y) && Behind(x, y) && g in x.wire && g.data != [] && g.seqNum == y.sock.ackNum
    ensures Advances(x, y, Act(y, Delivery(g, m)), g)
  {
    Mirror(x, y);
    DataSmall(y, x, g);
    assert !g.fin by { if g.fin { FinBare(y, x, g); } }
    var y1 := Taking(y, g);
    var y2 := Acking(y1, g);
    DataMoves(y, y1, y2, x, g);
    ActData(y, y1, y2, g, m);
    assert Stamp(y2.sock, Ack, []) in Act(y, Delivery(g, m)).wire;
  }

  lemma AdvancesLess(x: End, y: End, y': End, g: Segment)
    requires Behind(x, y) && Advances(x, y, y', g) && g.data != []
    ensures Behind(x, y') ==> Missing(x, y') < Missing(x, y)
  {
    assert y'.hist.got[y.hist.base] == y.hist.got[y.hist.base] + g.data;
  }

  /** Deliveries to y, one after the other, of segments x has transmitted. */
  ghost predicate Fed(x: End, y: End, gs: seq<Segment>, m: TxMem)
    decreases |gs|
  {
    gs != [] ==> Enabled(y, x, Delivery(gs[0], m)) && Fed(x, Act(y, Delivery(gs[0], m)), gs[1..], m)
  }

  function After(y: End, gs: seq<Segment>, m: TxMem): End
    decreases |gs|
  {
    if gs == [] then y else After(Act(y, Delivery(gs[0], m)), gs[1..], m)
  }

  /** y has accepted everything of the opening that y0 is linked to. */
  predicate Caught(x: Hist, y0: Hist, y: Hist) {
    && y.base == y0.base && y.links == y0.links && y0.base in y0.links && y0.base in y.got
    && y0.links[y0.base] in x.streams && y.got[y0.base] == x.streams[y0.links[y0.base]]
  }

  lemma CatchStep(x: End, y: End, y1: End, g: Segment, m: TxMem)
    requires Inv(x, y) && Placed(x, y) && Behind(x, y) && y.sock.seqNum + 2 < TWO32 && y1 == Act(y, Delivery(g, m))
    requires g in x.wire && g.data != [] && g.seqNum == y.sock.ackNum
    ensures Enabled(y, x, Delivery(g, m)) && Inv(x, y1) && Placed(x, y1) && Advances(x, y, y1, g)
  {
    Mirror(x, y);
    ArrivalAdvances(x, y, g, m);
    StepKeeps(y, x, Delivery(g, m));
    PlacedStep(y, x, Delivery(g, m));
    Mirror(y1, x);
  }

  lemma CaughtNow(x: End, y: End, y1: End, g: Segment)
    requires Fits(x.hist, y1.hist) && Behind(x, y) && Advances(x, y, y1, g)
    ensures Behind(x, y1) || Caught(x.hist, y.hist, y1.hist)
  {
    var b, c := y.hist.base, y.hist.links[y.hist.base];
    assert Prefix(x.hist, c, y1.hist.got[b]);
    if |y1.hist.got[b]| == |x.hist.streams[c]| { assert y1.hist.got[b] == x.hist.streams[c]; }
  }

  lemma FedFirst(x: End, y: End, y1: End, g: Segment, rest: seq<Segment>, m: TxMem)
    requires y1 == Act(y, Delivery(g, m)) && Enabled(y, x, Delivery(g, m)) && Fed(x, y1, rest, m)
    ensures Fed(x, y, [g] + rest, m) && After(y, [g] + rest, m) == After(y1, rest, m)
  {
    assert ([g] + rest)[1..] == rest;
  }

  /** Whatever has been lost or reordered, nothing is out of reach: from every such state the segments already
      transmitted include a sequence whose arrival leaves y with all that was sent. */
  lemma {:induction false} CatchesUp(x: End, y: End, m: TxMem) returns (gs: seq<Segment>)
    requires Inv(x, y) && Placed(x, y) && Behind(x, y) && y.sock.seqNum + 2 < TWO32
    ensures Fed(x, y, gs, m) && Caught(x.hist, y.hist, After(y, gs, m).hist)
    decreases Missing(x, y)
  {
    NextThere(x, y);
    var g :| g in x.wire && g.data != [] && g.seqNum == y.sock.ackNum;
    var y1 := Act(y, Delivery(g, m));
    CatchStep(x, y, y1, g, m);
    CaughtNow(x, y, y1, g);
    AdvancesLess(x, y, y1, g);
    var rest: seq<Segment> := [];
    if Behind(x, y1) { rest := CatchesUp(x, y1, m); }
    FedFirst(x, y, y1, g, rest, m);
    gs := [g] + rest;
  }

  /** The two ends, seen from either side. */
  function Here(n: Net, atA: bool): End { if atA then n.a else n.b }

  function There(n: Net, atA: bool): End { Here(n, !atA) }

  lemma EitherSide(ns: seq<Net>, sts: seq<Step>, n: nat, atA: bool)
    requires IsRun(ns, sts) && n < |ns|
    ensures Inv(Here(ns[n], atA), There(ns[n], atA)) && Placed(Here(ns[n], atA), There(ns[n], atA))
  {
    RunKeeps(ns, sts, n);
    RunPlaced(ns, sts, n);
    Mirror(ns[n].a, ns[n].b);
  }

  /** Nothing is out of reach in any state of any run, in either direction. */
  lemma AlwaysCatchesUp(ns: seq<Net>, sts: seq<Step>, n: nat, atA: bool, m: TxMem) returns (gs: seq<Segment>)
    requires IsRun(ns, sts) && n < |ns| && Behind(There(ns[n], atA), Here(ns[n], atA))
    requires Here(ns[n], atA).sock.seqNum + 2 < TWO32
    ensures var x, y := There(ns[n], atA), Here(ns[n], atA);
      Fed(x, y, gs, m) && Caught(x.hist, y.hist, After(y, gs, m).hist)
  {
    EitherSide(ns, sts, n, !atA);
    gs := CatchesUp(There(ns[n], atA), Here(ns[n], atA), m);
  }

  // ----- the sender will send it again -----

  /** No opening has accepted the segment one waits for. */
  lemma NotTaken(x: Hist, y: Hist, g: Segment)
    requires Ok(x) && Fits(x, y) && Fresh(y) && y.base in y.links && y.base in y.got && g.data != []
    requires y.links[y.base] in x.streams && g.seqNum == y.links[y.base] + |y.got[y.base]|
    requires |y.got[y.base]| < |x.streams[y.links[y.base]]|
    ensures !TakenBy(y, g)
  {
    forall t ensures !Within(y, t, g) {
      if t in y.links && t in y.got { assert Prefix(x, y.links[t], y.got[t]); }
    }
  }

  lemma QueuedResent(tx: seq<TxEntry>, wire: set<Segment>, g: Segment)
    requires Queued(tx, g) && EntriesOk(tx, wire)
    ensures g in Resent(tx, g.seqNum)
  {
    var i :| 0 <= i < |tx| && tx[i].seg == g;
    assert EntryOk(tx[i], wire);
    ResentIff(tx, g.seqNum, g);
  }

  /** The segment y waits for is still in the queue of x, so a timeout of its number transmits it again. */
  lemma NextQueued(x: End, y: End, g: Segment)
    requires Inv(x, y) && Full(x, y) && Behind(x, y) && g in x.wire && g.data != [] && g.seqNum == y.sock.ackNum
    ensures g in Resent(x.sock.tx, g.seqNum)
  {
    AckNum(x, y);
    NotTaken(x.hist, y.hist, g);
    QueuedResent(x.sock.tx, x.wire, g);
  }

  /** The opening y waits for is the latest of x, and x has not taken a FIN in it. */
  lemma LatestOpening(x: Hist, y: Hist)
    requires Pair(x, y) && StrictPair(x, y) && y.base in y.links && y.base !in y.fins && y.links[y.base] in x.streams
    requires y.links[y.base] in x.links
    ensures y.links[y.base] == x.base && x.base !in x.taken
  {
    var c := y.links[y.base];
    NotEnded(x, y, c);
    assert c < x.base ==> c in x.taken;
  }

  lemma NotEnded(x: Hist, y: Hist, c: nat)
    requires Pair(x, y) && StrictPair(x, y) && y.base in y.links && y.base !in y.fins && y.links[y.base] == c
    requires c in x.links
    ensures c !in x.taken
  {
    assert c in x.taken ==> Mate(x, y, c, x.links[c]) && Whole(y, x, c);
  }

  /** So x is in a state in which its timeouts retransmit. */
  lemma StillSending(x: End, y: End)
    requires Inv(x, y) && StrictPair(x.hist, y.hist) && Behind(x, y)
    ensures x.sock.state in {ESTABLISHED, FIN_WAIT_1} && y.hist.links[y.hist.base] == x.hist.base
  {
    LatestOpening(x.hist, y.hist);
  }

  /** Recovery: in every state of every proper run, while anything is outstanding, the sender's queue holds a segment
      that starts at the receiver's ack_num; the sender is in a state in which the timeout for that number sends it
      again, also if no copy of it is left in the network, and its arrival is stored and acknowledged. */
  lemma Recovers(ns: seq<Net>, sts: seq<Step>, n: nat, atA: bool, m: TxMem) returns (g: Segment)
    requires IsProper(ns, sts) && n < |ns| && Behind(There(ns[n], atA), Here(ns[n], atA))
    ensures var x, y := There(ns[n], atA), Here(ns[n], atA);
      && x.sock.state in {ESTABLISHED, FIN_WAIT_1} && g in Resent(x.sock.tx, y.sock.ackNum) && g.data != []
      && Accepted(y.sock, g) == g.data && Advances(x, y, Act(y, Delivery(g, m)), g)
  {
    EitherSide(ns, sts, n, !atA);
    ProperKeeps(ns, sts, n);
    Mirror(ns[n].a, ns[n].b);
    var x, y := There(ns[n], atA), Here(ns[n], atA);
    NextThere(x, y);
    g :| g in x.wire && g.data != [] && g.seqNum == y.sock.ackNum;
    NextQueued(x, y, g);
    StillSending(x, y);
    ArrivalAdvances(x, y, g, m);
  }

  // ----- acknowledgements tell the truth, and are sent -----

  /** The acknowledgement of what x has. */
  ghost predicate Acknowledged(x: End) {
    exists h :: h in x.wire && h.ack && h.ackNum == x.sock.ackNum
      && (Waiting(x) ==> h.ackNum == x.hist.links[x.hist.base] + |x.hist.got[x.hist.base]|)
  }

  lemma AnswerOnWire(x: End, g: Segment, m: TxMem) returns (h: Segment)
    requires Owes(x.sock, g)
    ensures var x' := Act(x, Delivery(g, m)); h in x'.wire && h.ack && h.ackNum == x'.sock.ackNum
  {
    Answered(x.sock, g, m);
    var out := Receive(x.sock, g, m).out;
    h := out[|out| - 1];
  }

  lemma EndAnswers(x: End, x': End, y: End, g: Segment, m: TxMem)
    requires Owes(x.sock, g) && x' == Act(x, Delivery(g, m)) && Inv(y, x')
    ensures Acknowledged(x')
  {
    var h := AnswerOnWire(x, g, m);
    if Waiting(x') { AckNum(y, x'); }
  }

  /** In every state of every run a SYN, data or a FIN that counts puts an acknowledgement on the wire, and while the
      socket waits for more its number is that of the peer's opening plus what has been accepted. */
  lemma AlwaysAnswered(ns: seq<Net>, sts: seq<Step>, n: nat, atA: bool, g: Segment, m: TxMem)
    requires IsRun(ns, sts) && n < |ns|
    requires Enabled(Here(ns[n], atA), There(ns[n], atA), Delivery(g, m)) && Owes(Here(ns[n], atA).sock, g)
    ensures Acknowledged(Act(Here(ns[n], atA), Delivery(g, m)))
  {
    var x, y := Here(ns[n], atA), There(ns[n], atA);
    var x' := Act(x, Delivery(g, m));
    EitherSide(ns, sts, n, atA);
    StepKeeps(x, y, Delivery(g, m));
    Mirror(x', y);
    EndAnswers(x, x', y, g, m);
  }

  // ----- closing -----

  predicate ClosesQuietly(x: End, m: TxMem) {
    x.hist.base in x.hist.taken && x.sock.state != LISTEN ==> Close(x.sock, m) == Tcp.Done(x.sock, [])
  }

  /** In every state of every run, once the peer's FIN has been taken and the socket has not been told to listen again,
      closing it is allowed, sends nothing and leaves it as it is. */
  lemma CloseAfterFin(ns: seq<Net>, sts: seq<Step>, n: nat, m: TxMem)
    requires IsRun(ns, sts) && n < |ns|
    ensures ClosesQuietly(ns[n].a, m) && ClosesQuietly(ns[n].b, m)
  {
    RunKeeps(ns, sts, n);
    CloseEffect(ns[n].a.sock, m);
    CloseEffect(ns[n].b.sock, m);
  }
}
