/** The laws of TCP over every run of two endpoints, and the runs in which the code breaks them. */
module TcpRuns {
  import opened Words
  import opened Tcp
  import opened TcpHist
  import opened TcpNet

  datatype Net = Net(a: End, b: End)

  /** An event at endpoint a, or at endpoint b. */
  datatype Step = AtA(ev: Event) | AtB(ev: Event)

  predicate CanStep(n: Net, st: Step) {
    match st
    case AtA(ev) => Enabled(n.a, n.b, ev)
    case AtB(ev) => Enabled(n.b, n.a, ev)
  }

  function Next(n: Net, st: Step): Net {
    match st
    case AtA(ev) => n.(a := Act(n.a, ev))
    case AtB(ev) => n.(b := Act(n.b, ev))
  }

  predicate StepOf(n: Net, n': Net, st: Step) { CanStep(n, st) && n' == Next(n, st) }

  predicate StepAt(ns: seq<Net>, sts: seq<Step>, i: nat) {
    i < |sts| && i + 1 < |ns| && StepOf(ns[i], ns[i + 1], sts[i])
  }

  ghost predicate IsRun(ns: seq<Net>, sts: seq<Step>) {
    |ns| == |sts| + 1 && ns[0] == Net(START, START) && forall i: nat :: i < |sts| ==> StepAt(ns, sts, i)
  }

  /** FINs are taken in order, and no SYN twice. */
  ghost predicate ProperStep(n: Net, st: Step) { Proper(if st.AtA? then n.a else n.b, st.ev) }

  ghost predicate ProperAt(ns: seq<Net>, sts: seq<Step>, i: nat) {
    i < |sts| && i < |ns| && ProperStep(ns[i], sts[i])
  }

  ghost predicate IsProper(ns: seq<Net>, sts: seq<Step>) {
    IsRun(ns, sts) && forall i: nat :: i < |sts| ==> ProperAt(ns, sts, i)
  }

  lemma Mirror(x: End, y: End)
    ensures Inv(x, y) ==> Inv(y, x)
    ensures Full(x, y) ==> Full(y, x)
  {
  }

  lemma NextKeeps(n: Net, n': Net, st: Step)
    requires StepOf(n, n', st)
    ensures Inv(n'.a, n'.b) || !Inv(n.a, n.b)
    ensures Full(n'.a, n'.b) || !Full(n.a, n.b) || !Inv(n.a, n.b) || !ProperStep(n, st)
  {
    if Inv(n.a, n.b) {
      match st
      case AtA(ev) => StepKeeps(n.a, n.b, ev);
      case AtB(ev) =>
        Mirror(n.a, n.b);
        StepKeeps(n.b, n.a, ev);
        Mirror(n'.b, n'.a);
    }
  }

  ghost predicate InvAt(ns: seq<Net>, n: nat) { n >= |ns| || Inv(ns[n].a, ns[n].b) }

  lemma InvStep(ns: seq<Net>, sts: seq<Step>, i: nat, n: nat)
    requires IsRun(ns, sts) && n == i + 1
    ensures InvAt(ns, n) || !InvAt(ns, i)
  {
    if n < |ns| {
      assert StepAt(ns, sts, i);
      NextKeeps(ns[i], ns[n], sts[i]);
    }
  }

  lemma StartOk()
    ensures Inv(START, START)
  {
  }

  lemma StartsOk(ns: seq<Net>, sts: seq<Step>)
    requires IsRun(ns, sts)
    ensures InvAt(ns, 0)
  {
    StartOk();
  }

  /** The laws of the pair hold in every state of every run ... */
  lemma {:induction false} RunKeeps(ns: seq<Net>, sts: seq<Step>, n: nat)
    requires IsRun(ns, sts)
    ensures InvAt(ns, n)
    decreases n
  {
    if n == 0 {
      StartsOk(ns, sts);
    } else {
      var i: nat := n - 1;
      InvStep(ns, sts, i, n);
      RunKeeps(ns, sts, i);
    }
  }

  ghost predicate FullAt(ns: seq<Net>, n: nat) { n >= |ns| || Full(ns[n].a, ns[n].b) }

  lemma FullStep(ns: seq<Net>, sts: seq<Step>, i: nat, n: nat)
    requires IsProper(ns, sts) && n == i + 1
    ensures FullAt(ns, n) || !FullAt(ns, i)
  {
    if n < |ns| {
      RunKeeps(ns, sts, i);
      assert StepAt(ns, sts, i) && ProperAt(ns, sts, i);
      NextKeeps(ns[i], ns[n], sts[i]);
    }
  }

  lemma StartsStrict(ns: seq<Net>, sts: seq<Step>)
    requires IsRun(ns, sts)
    ensures FullAt(ns, 0)
  {
    assert Full(START, START);
  }

  /** ... and the strict ones in every state of every proper run. */
  lemma {:induction false} ProperKeeps(ns: seq<Net>, sts: seq<Step>, n: nat)
    requires IsProper(ns, sts)
    ensures FullAt(ns, n)
    decreases n
  {
    if n == 0 {
      StartsStrict(ns, sts);
    } else {
      var i: nat := n - 1;
      FullStep(ns, sts, i, n);
      ProperKeeps(ns, sts, i);
    }
  }

  // ----- in order -----

  /** Every opening of y has accepted a prefix of the bytes x was given to send in the opening whose SYN it took, and
      until it takes a FIN its ack_num is peer ISN + 1 + accepted length. */
  ghost predicate Delivered(x: End, y: End) {
    && (forall t :: t in y.hist.links ==> t in y.hist.got && Prefix(x.hist, y.hist.links[t], y.hist.got[t]))
    && (Waiting(y) ==> y.sock.ackNum == y.hist.links[y.hist.base] + |y.hist.got[y.hist.base]|)
  }

  lemma InvDelivers(x: End, y: End)
    requires Inv(x, y)
    ensures Delivered(x, y) && Delivered(y, x)
  {
    forall t | t in y.hist.links ensures Prefix(x.hist, y.hist.links[t], y.hist.got[t]) {}
    forall t | t in x.hist.links ensures Prefix(y.hist, x.hist.links[t], x.hist.got[t]) {}
  }

  /** In-order receive: in every state of every run, with any number of openings on either side. */
  lemma InOrderReceive(ns: seq<Net>, sts: seq<Step>, n: nat)
    requires IsRun(ns, sts) && n < |ns|
    ensures Delivered(ns[n].a, ns[n].b) && Delivered(ns[n].b, ns[n].a)
  {
    RunKeeps(ns, sts, n);
    InvDelivers(ns[n].a, ns[n].b);
  }

  // ----- exactly once -----

  /** Two openings of an endpoint accept the same byte exactly when both accept something behind the same SYN. */
  ghost predicate TwiceOnlyBySyn(h: Hist) {
    forall s, t :: s in h.links && t in h.links && s in h.got && t in h.got ==>
      (Overlap(h, s, t) <==> h.links[s] == h.links[t] && h.got[s] != [] && h.got[t] != [])
  }

  lemma TwiceIff(ns: seq<Net>, sts: seq<Step>, n: nat)
    requires IsRun(ns, sts) && n < |ns|
    ensures TwiceOnlyBySyn(ns[n].a.hist) && TwiceOnlyBySyn(ns[n].b.hist)
  {
    RunKeeps(ns, sts, n);
    Mirror(ns[n].a, ns[n].b);
    PairTwice(ns[n].a.hist, ns[n].b.hist);
    PairTwice(ns[n].b.hist, ns[n].a.hist);
  }

  lemma PairTwice(x: Hist, y: Hist)
    requires Pair(x, y)
    ensures TwiceOnlyBySyn(y)
  {
    forall s, t | s in y.links && t in y.links && s in y.got && t in y.got
      ensures Overlap(y, s, t) <==> y.links[s] == y.links[t] && y.got[s] != [] && y.got[t] != []
    {
      OverlapIff(x, y, s, t);
    }
  }

  /** The step that makes it possible: a SYN keeps the links of a socket apart exactly when it has not been used. */
  lemma FreshIff(x: End, y: End, g: Segment, m: TxMem)
    requires Inv(x, y) && Fresh(x.hist) && Enabled(x, y, Delivery(g, m)) && Syncs(x.sock, g)
    ensures Fresh(Heard(x.hist, x.sock, g)) <==> Unused(x.hist, g.seqNum + 1)
  {
    var h := Heard(x.hist, x.sock, g);
    if x.sock.state == LISTEN { NewNumber(x); }
    SyncedFresh(x.hist, h, h.base, g.seqNum + 1);
  }

  /** In-order, exactly-once receive: if no SYN is taken twice and FINs are taken in order, no byte is accepted twice,
      ack_num is peer ISN + 1 + accepted length + 1 for a FIN, and whoever has taken a FIN has accepted everything
      that was sent before it. */
  ghost predicate Once(x: End, y: End) {
    && (forall s, t :: s in y.hist.links && t in y.hist.links && s in y.hist.got && t in y.hist.got && s != t ==>
          !Overlap(y.hist, s, t))
    && (y.hist.base in y.hist.links && y.hist.base in y.hist.got ==>
          y.sock.ackNum == y.hist.links[y.hist.base] + |y.hist.got[y.hist.base]|
                           + if y.hist.base in y.hist.taken then 1 else 0)
    && (forall t :: t in y.hist.taken ==> Whole(x.hist, y.hist, t))
  }

  lemma FullOnce(x: End, y: End)
    requires Inv(x, y) && Full(x, y)
    ensures Once(x, y)
  {
    forall s, t | s in y.hist.links && t in y.hist.links && s in y.hist.got && t in y.hist.got && s != t
      ensures !Overlap(y.hist, s, t)
    {
      OverlapIff(x.hist, y.hist, s, t);
    }
  }

  lemma InOrderExactlyOnce(ns: seq<Net>, sts: seq<Step>, n: nat)
    requires IsProper(ns, sts) && n < |ns|
    ensures Once(ns[n].a, ns[n].b) && Once(ns[n].b, ns[n].a)
  {
    RunKeeps(ns, sts, n);
    ProperKeeps(ns, sts, n);
    FullOnce(ns[n].a, ns[n].b);
    Mirror(ns[n].a, ns[n].b);
    FullOnce(ns[n].b, ns[n].a);
  }

  // ----- nothing is forgotten -----

  /** In every state of every such run, through FINs and new openings, each data segment ever sent is still in the
      sender's tx_data_list or has been accepted by the peer, whatever old, duplicated or reordered segments arrive. */
  lemma NothingForgotten(ns: seq<Net>, sts: seq<Step>, n: nat)
    requires IsProper(ns, sts) && n < |ns|
    ensures Remembered(ns[n].a, ns[n].b) && Remembered(ns[n].b, ns[n].a)
  {
    ProperKeeps(ns, sts, n);
  }

  // ----- the exact conditions -----

  /** A FIN of the peer is at ack_num exactly when it is that of the opening one is linked to and everything sent
      before it has been accepted; in every state of every run, by InOrderReceive. */
  lemma FinIff(x: End, y: End, g: Segment)
    requires Delivered(y, x) && Waiting(x) && Ok(y.hist) && WireOk(g, y.hist) && g.fin
    ensures var b, got := x.hist.links[x.hist.base], x.hist.got[x.hist.base];
      g.seqNum == x.sock.ackNum <==> IsFin(y.hist, b, g) && got == y.hist.streams[b]
  {
    if g.seqNum == x.sock.ackNum { FinWhole(y.hist, x.hist, g); }
  }

  /** The step that takes a FIN leaves everything complete exactly when the linked opening has sent its FIN and all
      its bytes have been accepted, whichever FIN it is. */
  lemma CompleteIff(x: End, y: End, g: Segment)
    requires Inv(x, y) && g in y.wire && TakesFin(x.sock, g) && Complete(y.hist, x.hist)
    ensures var b := x.hist.links[x.hist.base];
      Complete(y.hist, Heard(x.hist, x.sock, g)) <==> b in y.hist.fins && x.hist.got[x.hist.base] == y.hist.streams[b]
  {
    FinBare(x, y, g);
    HeardFin(x.hist, x.sock, g);
    CompleteAt(x.hist, y.hist, Heard(x.hist, x.sock, g));
  }

  lemma HeardFin(h: Hist, s: Socket, g: Segment)
    requires TakesFin(s, g) && g.data == []
    ensures var h' := Heard(h, s, g); h'.links == h.links && h'.got == h.got && h'.taken == h.taken + {h.base}
  {
  }

  lemma CompleteAt(x: Hist, y: Hist, h: Hist)
    requires h.links == x.links && h.got == x.got && h.taken == x.taken + {x.base} && Complete(y, x)
    requires Pair(x, y) && x.base in x.links
    ensures var b := x.links[x.base]; Complete(y, h) <==> b in y.fins && x.got[x.base] == y.streams[b]
  {
    assert Prefix(y, x.links[x.base], x.got[x.base]);
    HeardComplete(x, y, h);
  }

  lemma HeardComplete(x: Hist, y: Hist, h: Hist)
    requires h.links == x.links && h.got == x.got && h.taken == x.taken + {x.base} && Complete(y, x)
    requires x.base in x.links && x.base in x.got && x.links[x.base] in y.streams
    ensures Complete(y, h) <==> x.links[x.base] in y.fins && x.got[x.base] == y.streams[x.links[x.base]]
  {
    if Complete(y, h) { assert Whole(y, h, x.base); }
    if Whole(y, x, x.base) {
      forall t | t in h.taken ensures Whole(y, h, t) { if t != x.base { assert Whole(y, x, t); } }
    }
  }

  // ----- closing with data on the way -----

  /** x has closed while bytes of the opening it is linked to are still to be accepted. */
  predicate Stuck(x: End, y: End) {
    && x.sock.state == FIN_WAIT_1 && Waiting(x) && x.hist.links[x.hist.base] in y.hist.streams
    && |x.hist.got[x.hist.base]| < |y.hist.streams[x.hist.links[x.hist.base]]|
  }

  /** Data that reaches FIN_WAIT_1 is dropped, even in order, and not acknowledged. */
  lemma FinWait1Drops(x: End, y: End, g: Segment, m: TxMem)
    requires Inv(x, y) && g in y.wire && x.sock.state == FIN_WAIT_1 && g.data != []
    ensures var x' := Act(x, Delivery(g, m));
      x'.stored == x.stored && x'.hist == x.hist && x'.sock.ackNum == x.sock.ackNum && x'.wire == x.wire
  {
    if g.fin { FinBare(x, y, g); }
    AckingKeeps(x, Acking(x, g), y, g);
    ActFinWait1(x, Acking(x, g), g, m);
  }

  /** Once stuck, a step of the socket itself that is proper leaves it there, with nothing more accepted ... */
  lemma StuckStays(x: End, y: End, ev: Event)
    requires Stuck(x, y) && Inv(x, y) && Enabled(x, y, ev) && Proper(x, ev)
    ensures Stuck(Act(x, ev), y) && Act(x, ev).hist == x.hist
  {
    match ev
    case Delivery(g, m) =>
      AckingKeeps(x, Acking(x, g), y, g);
      ActFinWait1(x, Acking(x, g), g, m);
      if g.fin && g.ack {
        InvDelivers(x, y);
        assert WireOk(g, y.hist);
        FinIff(x, y, g);
        assert false;
      }
    case _ =>
  }

  /** ... and so does a step of its peer, whose openings only grow. */
  lemma StuckWaits(x: End, y: End, ev: Event)
    requires Stuck(x, y) && Inv(y, x) && Enabled(y, x, ev)
    ensures Stuck(x, Act(y, ev))
  {
    StreamsGrow(y, x, ev);
  }

  /** Streams are never cut short. */
  ghost predicate Longer(h: Hist, h': Hist) {
    forall b :: b in h.streams ==> b in h'.streams && |h.streams[b]| <= |h'.streams[b]|
  }

  lemma StreamsGrow(y: End, x: End, ev: Event)
    requires Inv(y, x) && Enabled(y, x, ev)
    ensures Longer(y.hist, Act(y, ev).hist)
  {
    match ev
    case Connecting(m) => OpenedApart(y.hist, y.sock.seqNum + 1);
    case Delivery(g, m) =>
      if y.sock.state == LISTEN { NewNumber(y); }
      HeardLonger(y.hist, y.sock, g);
    case _ =>
  }

  lemma HeardLonger(h: Hist, s: Socket, g: Segment)
    requires s.state == LISTEN ==> s.seqNum + 1 !in h.streams && s.seqNum + 1 < TWO32
    ensures Longer(h, Heard(h, s, g))
  {
  }

  ghost predicate StuckAt(ns: seq<Net>, atA: bool, h: Hist, n: nat) {
    n < |ns| &&
    (if atA then Stuck(ns[n].a, ns[n].b) && ns[n].a.hist == h else Stuck(ns[n].b, ns[n].a) && ns[n].b.hist == h)
  }

  lemma StuckNext(n: Net, n': Net, st: Step)
    requires StepOf(n, n', st) && ProperStep(n, st) && Inv(n.a, n.b)
    ensures Stuck(n.a, n.b) ==> Stuck(n'.a, n'.b) && n'.a.hist == n.a.hist
    ensures Stuck(n.b, n.a) ==> Stuck(n'.b, n'.a) && n'.b.hist == n.b.hist
  {
    Mirror(n.a, n.b);
    match st
    case AtA(ev) =>
      if Stuck(n.a, n.b) { StuckStays(n.a, n.b, ev); }
      if Stuck(n.b, n.a) { StuckWaits(n.b, n.a, ev); }
    case AtB(ev) =>
      if Stuck(n.a, n.b) { StuckWaits(n.a, n.b, ev); }
      if Stuck(n.b, n.a) { StuckStays(n.b, n.a, ev); }
  }

  lemma StuckStep(ns: seq<Net>, sts: seq<Step>, atA: bool, h: Hist, i: nat)
    requires IsProper(ns, sts) && i < |sts| && StuckAt(ns, atA, h, i)
    ensures StuckAt(ns, atA, h, i + 1)
  {
    RunKeeps(ns, sts, i);
    assert StepAt(ns, sts, i) && ProperAt(ns, sts, i);
    StuckNext(ns[i], ns[i + 1], sts[i]);
  }

  /** A socket that closes while data of its peer is on the way never finishes in a proper run: from then on it stays in
      FIN_WAIT_1 and accepts nothing more, for the peer's FIN can never be in order. */
  lemma {:induction false} ClosesTooEarly(ns: seq<Net>, sts: seq<Step>, atA: bool, h: Hist, n: nat, m: nat)
    requires IsProper(ns, sts) && n <= m < |ns| && StuckAt(ns, atA, h, n)
    ensures StuckAt(ns, atA, h, m)
    decreases m
  {
    if n < m {
      ClosesTooEarly(ns, sts, atA, h, n, m - 1);
      StuckStep(ns, sts, atA, h, m - 1);
    }
  }

  /** The SYN_RCVD branch does not look at the sequence number. Its result is right exactly when the payload, if there
      is one, starts at ack_num. */
  lemma HandshakeDataIff(x: End, y: End, g: Segment, m: TxMem)
    requires Inv(x, y) && x.sock.state == SYN_RCVD && g in y.wire && g.ack
    ensures var x' := Act(x, Delivery(g, m));
      (AckOk(x'.sock, x'.hist) && Fits(y.hist, x'.hist)) <==> InOrder(x.sock, g)
  {
    if InOrder(x.sock, g) { DeliverSynRcvd(x, y, g, m); } else { HandshakeBreaks(x, y, g, m); }
  }

  lemma HandshakeBreaks(x: End, y: End, g: Segment, m: TxMem)
    requires Inv(x, y) && x.sock.state == SYN_RCVD && g in y.wire && g.ack && !InOrder(x.sock, g)
    ensures var x' := Act(x, Delivery(g, m)); !AckOk(x'.sock, x'.hist)
  {
    var x1 := Acking(x, g);
    AckingKeeps(x, x1, y, g);
    DataSmall(x, y, g);
    ActSynRcvdData(x, x1, g, m);
    TakingBreaks(x1, g);
  }

  /** Data from elsewhere takes ack_num away from the accepted bytes. */
  lemma TakingBreaks(x: End, g: Segment)
    requires x.sock.state == SYN_RCVD && SockOk(x.sock, x.hist) && AckOk(x.sock, x.hist) && g.seqNum != x.sock.ackNum
    ensures !AckOk(Taking(x, g).sock, Taking(x, g).hist)
  {
    assert At(x.hist.got, x.hist.base) + g.data == g.data;
  }

  // ----- what the application reads -----

  function Flat(rx: seq<seq<Byte>>): seq<Byte> {
    if rx == [] then [] else rx[0] + Flat(rx[1..])
  }

  lemma {:induction false} FlatSnoc(rx: seq<seq<Byte>>, d: seq<Byte>)
    ensures Flat(rx + [d]) == Flat(rx) + d
  {
    if rx == [] {
      assert [d][1..] == [];
    } else {
      FlatSnoc(rx[1..], d);
      assert (rx + [d])[1..] == rx[1..] + [d];
    }
  }

  /** Everything accepted has been read or waits in rx_data_list. */
  predicate Stored(x: End) { x.read + Flat(x.sock.rx) == x.stored }

  /** tcp_socket_recv drops what does not fit the caller's buffer: a read loses nothing exactly when the buffer is
      at least as long as the oldest record. */
  lemma ReadIff(x: End, size: nat)
    requires Stored(x) && x.sock.rx != []
    ensures Stored(Act(x, Reading(size))) <==> size >= |x.sock.rx[0]|
  {
    var d, rest := x.sock.rx[0], Flat(x.sock.rx[1..]);
    assert x.read + (d + rest) == x.read + d + rest;
    if size >= |d| { assert d[..|d|] == d; }
  }

  lemma ReceiveRx(s: Socket, g: Segment, m: TxMem)
    ensures Receive(s, g, m).sock.rx == if Accepted(s, g) == [] then s.rx else s.rx + [Accepted(s, g)]
  {
  }

  lemma StoreAccepted(x: End, x': End, d: seq<Byte>)
    requires Stored(x) && x'.read == x.read && x'.stored == x.stored + d
    requires x'.sock.rx == if d == [] then x.sock.rx else x.sock.rx + [d]
    ensures Stored(x')
  {
    var f := Flat(x.sock.rx);
    if d == [] {
      assert x.stored + d == x.stored;
    } else {
      FlatSnoc(x.sock.rx, d);
      assert x.read + (f + d) == x.read + f + d;
    }
  }

  lemma StoredKept(x: End, ev: Event)
    requires Stored(x) && (ev.Reading? && x.sock.rx != [] ==> ev.size >= |x.sock.rx[0]|)
    ensures Stored(Act(x, ev))
  {
    match ev
    case Reading(size) => if x.sock.rx != [] { ReadIff(x, size); }
    case Delivery(g, m) =>
      ReceiveRx(x.sock, g, m);
      StoreAccepted(x, Act(x, ev), Accepted(x.sock, g));
    case _ =>
  }

  /** What the openings up to b have accepted, one after the other. */
  function Joined(got: map<nat, seq<Byte>>, b: nat): seq<Byte> {
    (if b == 0 then [] else Joined(got, b - 1)) + At(got, b)
  }

  lemma {:induction false} JoinedSame(got: map<nat, seq<Byte>>, h: map<nat, seq<Byte>>, b: nat)
    requires forall c: nat :: c <= b ==> At(h, c) == At(got, c)
    ensures Joined(h, b) == Joined(got, b)
  {
    if b > 0 { JoinedSame(got, h, b - 1); }
  }

  lemma {:induction false} JoinedGap(got: map<nat, seq<Byte>>, b: nat, c: nat)
    requires b <= c && forall d: nat :: b < d <= c ==> At(got, d) == []
    ensures Joined(got, c) == Joined(got, b)
  {
    if c > b { JoinedGap(got, b, c - 1); }
  }

  /** The bytes accepted in all are those of the openings in turn. */
  ghost predicate InTurn(x: End) { x.stored == Joined(x.hist.got, x.hist.base) }

  lemma TookJoined(h: Hist, d: seq<Byte>)
    ensures Joined(Took(h, d).got, h.base) == Joined(h.got, h.base) + d
  {
    var got := Took(h, d).got;
    if h.base > 0 { JoinedSame(h.got, got, h.base - 1); }
    Assoc(if h.base == 0 then [] else Joined(h.got, h.base - 1), At(h.got, h.base), d);
  }

  lemma Assoc(p: seq<Byte>, q: seq<Byte>, r: seq<Byte>)
    ensures p + (q + r) == p + q + r
  {
  }

  lemma OpenedJoined(h: Hist, b: nat)
    requires Shape(h) && b > h.base
    ensures Joined(Opened(h, b).got, b) == Joined(h.got, h.base)
  {
    JoinedSame(h.got, Opened(h, b).got, h.base);
    JoinedGap(Opened(h, b).got, h.base, b);
  }

  lemma HeardJoined(h: Hist, s: Socket, g: Segment)
    requires Shape(h) && (s.state == LISTEN && g.syn ==> Add32(s.seqNum, 1) > h.base)
    ensures var h' := Heard(h, s, g); Joined(h'.got, h'.base) == Joined(h.got, h.base) + Accepted(s, g)
  {
    var b: nat := Add32(s.seqNum, 1);
    if s.state == LISTEN && g.syn { OpenedJoined(h, b); } else { TookJoined(h, g.data); }
  }

  lemma InTurnKept(x: End, y: End, ev: Event)
    requires InTurn(x) && Inv(x, y) && Enabled(x, y, ev)
    ensures InTurn(Act(x, ev))
  {
    match ev
    case Connecting(m) => OpenedJoined(x.hist, x.sock.seqNum + 1);
    case Delivery(g, m) => DeliveryInTurn(x, g, m);
    case _ =>
  }

  lemma DeliveryInTurn(x: End, g: Segment, m: TxMem)
    requires InTurn(x) && Shape(x.hist) && SockOk(x.sock, x.hist)
    ensures InTurn(Act(x, Delivery(g, m)))
  {
    HeardJoined(x.hist, x.sock, g);
  }

  /** The buffer of every read is long enough for the record it takes. */
  predicate Roomy(n: Net, st: Step) {
    var x := if st.AtA? then n.a else n.b;
    st.ev.Reading? && x.sock.rx != [] ==> st.ev.size >= |x.sock.rx[0]|
  }

  ghost predicate Kept(n: Net) { Stored(n.a) && Stored(n.b) && InTurn(n.a) && InTurn(n.b) }

  lemma EndKept(x: End, y: End, ev: Event)
    requires Stored(x) && InTurn(x) && Inv(x, y) && Enabled(x, y, ev)
    requires ev.Reading? && x.sock.rx != [] ==> ev.size >= |x.sock.rx[0]|
    ensures Stored(Act(x, ev)) && InTurn(Act(x, ev))
  {
    StoredKept(x, ev);
    InTurnKept(x, y, ev);
  }

  lemma NextKept(n: Net, n': Net, st: Step)
    requires StepOf(n, n', st) && Roomy(n, st) && Inv(n.a, n.b)
    ensures Kept(n) ==> Kept(n')
  {
    if !Kept(n) { return; }
    Mirror(n.a, n.b);
    match st
    case AtA(ev) => EndKept(n.a, n.b, ev);
    case AtB(ev) => EndKept(n.b, n.a, ev);
  }

  predicate RoomyAt(ns: seq<Net>, sts: seq<Step>, i: nat) { i < |sts| && i < |ns| && Roomy(ns[i], sts[i]) }

  ghost predicate AllRoomy(ns: seq<Net>, sts: seq<Step>) { forall i: nat :: i < |sts| ==> RoomyAt(ns, sts, i) }

  ghost predicate KeptAt(ns: seq<Net>, n: nat) { n >= |ns| || Kept(ns[n]) }

  lemma StoredStep(ns: seq<Net>, sts: seq<Step>, i: nat, n: nat)
    requires IsRun(ns, sts) && AllRoomy(ns, sts) && n == i + 1
    ensures KeptAt(ns, n) || !KeptAt(ns, i)
  {
    if n < |ns| {
      RunKeeps(ns, sts, i);
      assert StepAt(ns, sts, i) && RoomyAt(ns, sts, i);
      NextKept(ns[i], ns[n], sts[i]);
    }
  }

  lemma {:induction false} RunStored(ns: seq<Net>, sts: seq<Step>, n: nat)
    requires IsRun(ns, sts) && AllRoomy(ns, sts)
    ensures KeptAt(ns, n)
    decreases n
  {
    if n > 0 {
      var i: nat := n - 1;
      StoredStep(ns, sts, i, n);
      RunStored(ns, sts, i);
    }
  }

  /** With such buffers each application reads, in every state of every run, a prefix of what its openings accepted one
      after the other, each of which is a prefix of what the peer sent in the opening linked to it. */
  lemma ReadsInOrder(ns: seq<Net>, sts: seq<Step>, n: nat)
    requires IsRun(ns, sts) && n < |ns| && AllRoomy(ns, sts)
    ensures var x, y := ns[n].a, ns[n].b;
      && x.read <= Joined(x.hist.got, x.hist.base) && Delivered(y, x)
      && y.read <= Joined(y.hist.got, y.hist.base) && Delivered(x, y)
  {
    RunStored(ns, sts, n);
    InOrderReceive(ns, sts, n);
  }
}
