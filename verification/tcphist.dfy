/** The openings of a TCP socket over its life. A socket of kernel/net/tcp.c may be opened again after it has
    closed; seq_num goes on, so every opening has its own stretch of sequence numbers behind its own SYN. */
module TcpHist {
  import opened Words

  /** Openings are named by the sequence number behind their SYN; `base` is the latest. For each: the bytes passed to
      tcp_socket_send, the bytes accepted, the peer's opening whose SYN set ack_num, and whether a FIN has been sent
      and whether one has been taken. */
  datatype Hist = Hist(base: nat, streams: map<nat, seq<Byte>>, got: map<nat, seq<Byte>>, links: map<nat, nat>,
                       fins: set<nat>, taken: set<nat>)

  /** Before the first opening. */
  const NONE := Hist(0, map[0 := []], map[0 := []], map[], {}, {})

  // ----- what happens to it -----

  function Opened(h: Hist, b: nat): Hist { h.(base := b, streams := h.streams[b := []], got := h.got[b := []]) }

  function Synced(h: Hist, p: nat): Hist { h.(links := h.links[h.base := p]) }

  function At(m: map<nat, seq<Byte>>, b: nat): seq<Byte> { if b in m then m[b] else [] }

  function Sent(h: Hist, d: seq<Byte>): Hist { h.(streams := h.streams[h.base := At(h.streams, h.base) + d]) }

  function Took(h: Hist, d: seq<Byte>): Hist { h.(got := h.got[h.base := At(h.got, h.base) + d]) }

  function FinSent(h: Hist): Hist { h.(fins := h.fins + {h.base}) }

  function FinTook(h: Hist): Hist { h.(taken := h.taken + {h.base}) }

  // ----- one socket -----

  ghost predicate Shape(h: Hist) {
    && h.base in h.streams && h.streams.Keys == h.got.Keys && h.links.Keys <= h.streams.Keys
    && h.fins <= h.links.Keys && h.taken <= h.links.Keys
    && (forall b :: b in h.streams ==> b <= h.base)
    && (forall b :: b in h.streams && b !in h.links ==> h.streams[b] == [] == h.got[b])
    && (forall b :: b in h.links && b < h.base ==> b in h.fins && b in h.taken)
  }

  /** The stretches of different openings do not touch. */
  ghost predicate Apart(h: Hist) {
    forall b, c :: b in h.streams && c in h.streams && b < c ==> b + |h.streams[b]| < c
  }

  ghost predicate Ok(h: Hist) { Shape(h) && Apart(h) }

  /** The latest opening is over, or has not been synchronised. */
  predicate Idle(h: Hist) { h.base in h.links ==> h.base in h.fins && h.base in h.taken }

  lemma OneStretch(h: Hist, b: nat, c: nat, q: nat)
    requires Ok(h) && b in h.streams && c in h.streams
    requires b <= q <= b + |h.streams[b]| && c <= q <= c + |h.streams[c]|
    ensures b == c
  {
  }

  // ----- two sockets -----

  /** Each opening of y has accepted a prefix of what x was given to send in the opening it is linked to. */
  ghost predicate Fits(x: Hist, y: Hist) {
    forall t :: t in y.links && t in y.got ==> Prefix(x, y.links[t], y.got[t])
  }

  predicate Prefix(x: Hist, b: nat, d: seq<Byte>) { b in x.streams && d <= x.streams[b] }

  /** No SYN of the peer has synchronised two openings. */
  ghost predicate Fresh(y: Hist) {
    forall s, t :: s in y.links && t in y.links && y.links[s] == y.links[t] ==> s == t
  }

  /** p's SYN has synchronised no opening of y. */
  ghost predicate Unused(y: Hist, p: nat) { forall t :: t in y.links ==> y.links[t] != p }

  /** Whoever has taken a FIN has everything that was sent before it. */
  ghost predicate Complete(x: Hist, y: Hist) {
    forall t :: t in y.taken ==> Whole(x, y, t)
  }

  predicate Whole(x: Hist, y: Hist, t: nat) {
    && t in y.links && t in y.got && y.links[t] in x.fins && y.links[t] in x.streams
    && y.got[t] == x.streams[y.links[t]]
  }

  /** A FIN was sent by an opening that had been synchronised before the FIN was taken. */
  ghost predicate Causal(x: Hist, y: Hist) {
    forall t :: t in y.taken && t in y.links ==> Earlier(x, y.links[t], t)
  }

  predicate Earlier(x: Hist, b: nat, t: nat) { b in x.links && x.links[b] <= t }

  /** An opening b of x that is over was linked to an opening of y that was linked to b; or else to one that is still
      waiting for a FIN that x will never send. */
  ghost predicate Paired(x: Hist, y: Hist) {
    forall b :: b in x.taken && b in x.links ==> Mate(x, y, b, x.links[b])
  }

  predicate Mate(x: Hist, y: Hist, b: nat, t: nat) {
    t in y.links && (y.links[t] == b || (t !in y.taken && y.links[t] < b && y.links[t] !in x.fins))
  }

  ghost predicate Strict(x: Hist, y: Hist) { Fresh(y) && Complete(x, y) && Causal(x, y) && Paired(x, y) }

  ghost predicate Pair(x: Hist, y: Hist) { Ok(x) && Ok(y) && Fits(x, y) && Fits(y, x) }

  ghost predicate StrictPair(x: Hist, y: Hist) { Strict(x, y) && Strict(y, x) }

  /** A change of x from x to x' keeps the laws of the pair, and the strict ones too. Here and in TcpNet, "if B then A"
      is written `A || !B` where A and B are whole laws: the verifier splits the consequent of an implication into its
      many clauses, and takes a disjunction as it stands. */
  ghost predicate Follows(x: Hist, x': Hist, y: Hist) {
    (Pair(x', y) || !Pair(x, y)) && (StrictPair(x', y) || !StrictPair(x, y) || !Pair(x, y))
  }

  // ----- what happens keeps all this -----

  /** x' has the openings of x, with nothing changed in those that are over. */
  ghost predicate Grown(x: Hist, x': Hist) {
    && (forall b :: b in x.streams ==> b in x'.streams && x.streams[b] <= x'.streams[b])
    && (forall b :: b in x.links ==> b in x'.links && x'.links[b] == x.links[b])
    && (forall b :: b in x.fins ==> b in x'.fins && (b in x.streams ==> x'.streams[b] == x.streams[b]))
    && (forall b :: b in x'.fins ==> b in x.fins || b == x.base)
    && (forall b :: b in x.taken ==> b in x'.taken && (b in x.got && b in x'.got ==> x'.got[b] == x.got[b]))
  }

  lemma FitsGrown(x: Hist, x': Hist, y: Hist)
    requires Fits(x, y) && Grown(x, x')
    ensures Fits(x', y)
  {
    forall t | t in y.links && t in y.got ensures Prefix(x', y.links[t], y.got[t]) {
      assert Prefix(x, y.links[t], y.got[t]);
    }
  }

  /** As long as no FIN is taken, the strict laws only need that links stay apart. */
  lemma StrictGrown(x: Hist, x': Hist, y: Hist)
    requires StrictPair(x, y) && Ok(x) && Grown(x, x') && x'.taken == x.taken && Fresh(x')
    requires x'.streams.Keys == x'.got.Keys && x.streams.Keys <= x'.streams.Keys
    ensures StrictPair(x', y)
  {
    SentGrown(x, x', y);
    GotGrown(y, x, x');
  }

  lemma SentGrown(x: Hist, x': Hist, y: Hist)
    requires Strict(x, y) && Shape(x) && Grown(x, x') && x'.taken == x.taken
    ensures Strict(x', y)
  {
    forall t | t in y.taken ensures Whole(x', y, t) { assert Whole(x, y, t); }
    forall t | t in y.taken && t in y.links ensures Earlier(x', y.links[t], t) { assert Earlier(x, y.links[t], t); }
    forall b | b in x'.taken && b in x'.links ensures Mate(x', y, b, x'.links[b]) { assert Mate(x, y, b, x.links[b]); }
  }

  lemma GotGrown(x: Hist, y: Hist, y': Hist)
    requires Strict(x, y) && Shape(y) && Grown(y, y') && y'.taken == y.taken && Fresh(y')
    requires y'.streams.Keys == y'.got.Keys
    ensures Strict(x, y')
  {
    forall t | t in y'.taken ensures Whole(x, y', t) { assert Whole(x, y, t); }
    forall t | t in y'.taken && t in y'.links ensures Earlier(x, y'.links[t], t) { assert Earlier(x, y.links[t], t); }
    forall b | b in x.taken && b in x.links ensures Mate(x, y', b, x.links[b]) { assert Mate(x, y, b, x.links[b]); }
  }

  /** A new opening lies behind all others. */
  lemma Behind(x: Hist, b: nat, c: nat)
    requires Ok(x) && b > x.base + |x.streams[x.base]| && c in x.streams
    ensures c + |x.streams[c]| < b
  {
    assert c < x.base ==> c + |x.streams[c]| < x.base;
  }

  lemma OpenedApart(x: Hist, b: nat)
    requires Ok(x) && b > x.base + |x.streams[x.base]|
    ensures b !in x.streams && Apart(Opened(x, b))
  {
    forall c | c in x.streams ensures c + |x.streams[c]| < b { Behind(x, b, c); }
  }

  lemma OpenedShape(x: Hist, b: nat)
    requires Shape(x) && Idle(x) && b > x.base
    ensures Shape(Opened(x, b))
  {
  }

  lemma OpenedGrown(x: Hist, b: nat)
    requires Shape(x) && b !in x.streams
    ensures Grown(x, Opened(x, b))
  {
  }

  lemma OpenedFits(x: Hist, y: Hist, b: nat)
    requires Fits(y, x) && Shape(x) && b !in x.streams
    ensures Fits(y, Opened(x, b))
  {
    var x' := Opened(x, b);
    forall t | t in x'.links && t in x'.got ensures Prefix(y, x'.links[t], x'.got[t]) {
      assert Prefix(y, x.links[t], x.got[t]);
    }
  }

  lemma OpenedKeeps(x: Hist, y: Hist, b: nat)
    ensures Idle(x) && b > x.base + |At(x.streams, x.base)| ==> Follows(x, Opened(x, b), y)
  {
    if Pair(x, y) && Idle(x) && b > x.base + |x.streams[x.base]| {
      OpenedApart(x, b);
      OpenedShape(x, b);
      OpenedGrown(x, b);
      OpenedFits(x, y, b);
      Keeps(x, Opened(x, b), y);
    }
  }

  lemma SyncedOk(x: Hist, p: nat)
    requires Ok(x) && x.base !in x.links
    ensures Ok(Synced(x, p)) && Grown(x, Synced(x, p))
  {
  }

  /** Taking a SYN keeps links apart exactly when it has not been used. */
  lemma SyncedFresh(x: Hist, h: Hist, b: nat, p: nat)
    requires Fresh(x) && b !in x.links && h.links == x.links[b := p]
    ensures Fresh(h) <==> Unused(x, p)
  {
    if Fresh(h) {
      forall t | t in x.links ensures x.links[t] != p {
        assert h.links[t] == x.links[t] && h.links[b] == p;
      }
    }
  }

  lemma SyncedKeeps(x: Hist, y: Hist, p: nat)
    requires x.base !in x.links && p in y.streams
    ensures Pair(Synced(x, p), y) || !Pair(x, y)
    ensures Unused(x, p) ==> Follows(x, Synced(x, p), y)
  {
    if Pair(x, y) {
      SyncedOk(x, p);
      if Fresh(x) { SyncedFresh(x, Synced(x, p), x.base, p); }
      GotSame(x, y, Synced(x, p));
      Keeps(x, Synced(x, p), y);
    }
  }

  lemma SentOk(x: Hist, d: seq<Byte>)
    requires Ok(x) && x.base in x.links && x.base !in x.fins
    ensures Ok(Sent(x, d)) && Grown(x, Sent(x, d))
  {
    SentApart(x, d);
  }

  lemma SentApart(x: Hist, d: seq<Byte>)
    requires Ok(x)
    ensures Apart(Sent(x, d))
  {
  }

  lemma SentKeeps(x: Hist, y: Hist, d: seq<Byte>)
    requires x.base in x.links && x.base !in x.fins
    ensures Follows(x, Sent(x, d), y)
  {
    if Pair(x, y) {
      SentOk(x, d);
      GotSame(x, y, Sent(x, d));
      Keeps(x, Sent(x, d), y);
    }
  }

  lemma FinSentOk(x: Hist)
    requires Ok(x) && x.base in x.links
    ensures Ok(FinSent(x)) && Grown(x, FinSent(x))
  {
  }

  lemma FinSentKeeps(x: Hist, y: Hist)
    requires x.base in x.links
    ensures Follows(x, FinSent(x), y)
  {
    if Pair(x, y) {
      FinSentOk(x);
      GotSame(x, y, FinSent(x));
      Keeps(x, FinSent(x), y);
    }
  }

  lemma TookOk(x: Hist, d: seq<Byte>)
    requires Ok(x) && x.base in x.links && x.base !in x.taken
    ensures Ok(Took(x, d)) && Grown(x, Took(x, d))
  {
  }

  lemma TookFits(x: Hist, y: Hist, d: seq<Byte>)
    requires Fits(y, x) && Shape(x) && x.base in x.links && Prefix(y, x.links[x.base], At(x.got, x.base) + d)
    ensures Fits(y, Took(x, d))
  {
    GotSame(x, y, Took(x, d));
  }

  lemma TookKeeps(x: Hist, y: Hist, d: seq<Byte>)
    requires x.base in x.links && x.base !in x.taken && Prefix(y, x.links[x.base], At(x.got, x.base) + d)
    ensures Follows(x, Took(x, d), y)
  {
    if Pair(x, y) {
      TookOk(x, d);
      TookFits(x, y, d);
      Keeps(x, Took(x, d), y);
    }
  }

  /** What a changed socket has accepted is still a prefix, if that of its latest opening is. */
  lemma GotSame(x: Hist, y: Hist, x': Hist)
    requires Fits(y, x) && Shape(x) && x'.links.Keys <= x.links.Keys + {x.base}
    requires forall t :: t in x.links && t != x.base ==> t in x'.links && x'.links[t] == x.links[t]
    requires forall t :: t in x.got && t != x.base ==> t in x'.got && x'.got[t] == x.got[t]
    requires x.base in x'.links && x.base in x'.got ==> Prefix(y, x'.links[x.base], x'.got[x.base])
    ensures Fits(y, x')
  {
    forall t | t in x'.links && t in x'.got ensures Prefix(y, x'.links[t], x'.got[t]) {
      if t != x.base { assert Prefix(y, x.links[t], x.got[t]); }
    }
  }

  lemma Keeps(x: Hist, x': Hist, y: Hist)
    requires Pair(x, y) && Ok(x') && Grown(x, x') && Fits(y, x')
    ensures Pair(x', y)
    ensures StrictPair(x, y) && x'.taken == x.taken && Fresh(x') ==> StrictPair(x', y)
  {
    FitsGrown(x, x', y);
    if StrictPair(x, y) && x'.taken == x.taken && Fresh(x') { StrictGrown(x, x', y); }
  }

  lemma FinTookOk(x: Hist)
    requires Ok(x) && x.base in x.links
    ensures Ok(FinTook(x)) && Grown(x, FinTook(x))
  {
  }

  /** Taking a FIN; for the strict laws it must be that of the opening one is linked to, with all that came before. */
  lemma FinTookKeeps(x: Hist, y: Hist)
    requires x.base in x.links
    ensures Pair(FinTook(x), y) || !Pair(x, y)
    ensures Whole(y, x, x.base) ==> Follows(x, FinTook(x), y)
  {
    if Pair(x, y) {
      FinTookOk(x);
      GotSame(x, y, FinTook(x));
      Keeps(x, FinTook(x), y);
      if StrictPair(x, y) && Whole(y, x, x.base) {
        FinTookSender(x, y);
        FinTookReceiver(x, y);
      }
    }
  }

  lemma FinTookSender(x: Hist, y: Hist)
    requires Pair(x, y) && StrictPair(x, y) && x.base in x.links && Whole(y, x, x.base)
    ensures Strict(FinTook(x), y)
  {
    var x' := FinTook(x);
    forall s | s in y.taken ensures Whole(x', y, s) { assert Whole(x, y, s); }
    forall s | s in y.taken && s in y.links ensures Earlier(x', y.links[s], s) { assert Earlier(x, y.links[s], s); }
    NewMate(x, y);
    forall b | b in x'.taken && b in x'.links ensures Mate(x', y, b, x'.links[b]) {
      if b != x.base { assert Mate(x, y, b, x.links[b]); }
    }
  }

  lemma FinTookReceiver(x: Hist, y: Hist)
    requires Pair(x, y) && StrictPair(x, y) && x.base in x.links && Whole(y, x, x.base)
    ensures Strict(y, FinTook(x))
  {
    var x', t := FinTook(x), x.links[x.base];
    assert Prefix(x, y.links[t], y.got[t]);
    forall b | b in x'.taken ensures Whole(y, x', b) { if b != x.base { assert Whole(y, x, b); } }
    forall b | b in x'.taken && b in x'.links ensures Earlier(y, x'.links[b], b) {
      if b != x.base { assert Earlier(y, x.links[b], b); }
    }
    forall s | s in y.taken && s in y.links ensures Mate(y, x', s, y.links[s]) { assert Mate(y, x, s, y.links[s]); }
  }

  /** The opening y whose FIN x takes is linked to the opening x takes it in, or waits for ever. */
  lemma NewMate(x: Hist, y: Hist)
    requires Pair(x, y) && StrictPair(x, y) && x.base in x.links && Whole(y, x, x.base)
    ensures Mate(FinTook(x), y, x.base, x.links[x.base])
  {
    var t := x.links[x.base];
    assert Prefix(x, y.links[t], y.got[t]);
    var b := y.links[t];
    assert b in x.taken && b in x.links ==> Mate(x, y, b, x.links[b]);
    assert t in y.taken ==> Earlier(x, b, t) && Whole(x, y, t);
  }

  /** When y is between openings, it has accepted everything of every earlier opening of x. */
  lemma AllAccepted(x: Hist, y: Hist, b: nat)
    requires Pair(x, y) && Strict(x, y) && Idle(y) && b in x.streams && b < x.base && x.streams[b] != []
    ensures b in x.links && Whole(x, y, x.links[b]) && y.links[x.links[b]] == b
  {
    assert Mate(x, y, b, x.links[b]);
    assert Whole(x, y, x.links[b]);
  }

  // ----- exactly once -----

  /** Openings s and t of y have accepted one and the same byte of x. */
  ghost predicate Overlap(y: Hist, s: nat, t: nat)
    requires s in y.links && t in y.links && s in y.got && t in y.got
  {
    exists q: nat :: Holds(y, s, q) && Holds(y, t, q)
  }

  predicate Holds(y: Hist, t: nat, q: nat)
    requires t in y.links && t in y.got
  {
    y.links[t] <= q < y.links[t] + |y.got[t]|
  }

  /** Two openings accept the same byte exactly when both accept something behind one and the same SYN. */
  lemma OverlapIff(x: Hist, y: Hist, s: nat, t: nat)
    requires Pair(x, y) && s in y.links && t in y.links
    ensures Overlap(y, s, t) <==> y.links[s] == y.links[t] && y.got[s] != [] && y.got[t] != []
  {
    assert Prefix(x, y.links[s], y.got[s]) && Prefix(x, y.links[t], y.got[t]);
    if Overlap(y, s, t) {
      var q: nat :| Holds(y, s, q) && Holds(y, t, q);
      OneStretch(x, y.links[s], y.links[t], q);
    }
    if y.links[s] == y.links[t] && y.got[s] != [] && y.got[t] != [] {
      assert Holds(y, s, y.links[s]) && Holds(y, t, y.links[s]);
    }
  }
}
