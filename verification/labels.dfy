/** The splitting at dots shared by parse_ipaddr (kernel/user/user_app.c) and set_qsection (kernel/user/dns.c).
    Both loops advance before they look, so a dot that opens a block is taken as part of it. */
module Labels {
  import opened Words

  const DOT: Byte := 46 // '.'

  /** The first dot of s from position i on, or the length. */
  function DotFrom(s: seq<Byte>, i: nat): (j: nat)
    requires i <= |s|
    ensures i <= j <= |s|
    ensures forall k :: i <= k < j ==> s[k] != DOT
    ensures j < |s| ==> s[j] == DOT
    decreases |s| - i
  {
    if i == |s| || s[i] == DOT then i else DotFrom(s, i + 1)
  }

  function Blocks(s: seq<Byte>): (bs: seq<seq<Byte>>)
    ensures bs != []
    decreases |s|
  {
    if s == [] then [[]]
    else
      var j := DotFrom(s, 1);
      if j < |s| then [s[..j]] + Blocks(s[j + 1..]) else [s]
  }

  function Join(bs: seq<seq<Byte>>): seq<Byte>
    requires bs != []
  {
    if |bs| == 1 then bs[0] else bs[0] + [DOT] + Join(bs[1..])
  }

  /** What the loops can cut out: no dot behind the first byte, and nothing empty but the last block. */
  predicate Plain(b: seq<Byte>) { forall i :: 1 <= i < |b| ==> b[i] != DOT }

  predicate Cut(bs: seq<seq<Byte>>) {
    && bs != []
    && (forall i :: 0 <= i < |bs| ==> Plain(bs[i]))
    && (forall i :: 0 <= i < |bs| - 1 ==> bs[i] != [])
  }

  lemma JoinCons(b: seq<Byte>, bs: seq<seq<Byte>>)
    requires bs != []
    ensures Join([b] + bs) == b + [DOT] + Join(bs)
  {
    assert ([b] + bs)[1..] == bs;
  }

  lemma CutCons(b: seq<Byte>, bs: seq<seq<Byte>>)
    requires Plain(b) && b != [] && Cut(bs)
    ensures Cut([b] + bs) && Join([b] + bs) == b + [DOT] + Join(bs)
  {
    JoinCons(b, bs);
  }

  /** Nothing is lost in splitting ... */
  lemma {:induction false} JoinBlocks(s: seq<Byte>)
    ensures Cut(Blocks(s)) && Join(Blocks(s)) == s
    decreases |s|
  {
    if s != [] {
      var j := DotFrom(s, 1);
      if j < |s| {
        JoinBlocks(s[j + 1..]);
        CutCons(s[..j], Blocks(s[j + 1..]));
        assert s == s[..j] + [DOT] + s[j + 1..];
      }
    }
  }

  lemma FirstBlock(b: seq<Byte>, rest: seq<Byte>)
    requires Plain(b) && b != []
    ensures Blocks(b + [DOT] + rest) == [b] + Blocks(rest)
  {
    var s := b + [DOT] + rest;
    assert forall k :: 1 <= k < |b| ==> s[k] == b[k];
    BlockEnds(s, 0, |b|);
    assert s[0..] == s && s[0..|b|] == b && s[|b| + 1..] == rest;
  }

  /** ... and joined blocks are found again. */
  lemma {:induction false} BlocksJoin(bs: seq<seq<Byte>>)
    requires Cut(bs)
    ensures Blocks(Join(bs)) == bs
  {
    var s := Join(bs);
    if |bs| == 1 {
      assert bs == [bs[0]];
    } else {
      BlocksJoin(bs[1..]);
      FirstBlock(bs[0], Join(bs[1..]));
      assert bs == [bs[0]] + bs[1..];
    }
  }

  /** Where the loops stand: `done` are the blocks before start, and no dot ends the one in hand up to end. */
  ghost predicate Reached(s: seq<Byte>, start: nat, end: nat, done: seq<seq<Byte>>) {
    && start <= end <= |s|
    && (forall k :: start < k <= end && k < |s| ==> s[k] != DOT)
    && Blocks(s) == done + Blocks(s[start..])
  }

  lemma ReachedStart(s: seq<Byte>)
    ensures Reached(s, 0, 0, [])
  {
    assert s[0..] == s;
    assert [] + Blocks(s) == Blocks(s);
  }

  lemma Assoc(done: seq<seq<Byte>>, b: seq<Byte>, rest: seq<seq<Byte>>)
    ensures done + ([b] + rest) == done + [b] + rest
  {
  }

  lemma ReachedNext(s: seq<Byte>, start: nat, end: nat, done: seq<seq<Byte>>)
    requires Reached(s, start, end, done) && end < |s|
    ensures if end + 1 < |s| && s[end + 1] == DOT
      then Reached(s, end + 2, end + 2, done + [s[start..end + 1]]) else Reached(s, start, end + 1, done)
  {
    if end + 1 < |s| && s[end + 1] == DOT {
      ReachedBlock(s, start, end + 1, done);
    } else {
      ReachedByte(s, start, end, done);
    }
  }

  lemma ReachedByte(s: seq<Byte>, start: nat, end: nat, done: seq<seq<Byte>>)
    requires Reached(s, start, end, done) && end < |s| && (end + 1 < |s| ==> s[end + 1] != DOT)
    ensures Reached(s, start, end + 1, done)
  {
  }

  lemma ReachedBlock(s: seq<Byte>, start: nat, end: nat, done: seq<seq<Byte>>)
    requires start < end < |s| && s[end] == DOT && Reached(s, start, end - 1, done)
    ensures Reached(s, end + 1, end + 1, done + [s[start..end]])
  {
    ReachedDot(s, start, end, done, Blocks(s));
  }

  lemma ReachedDot(s: seq<Byte>, start: nat, end: nat, done: seq<seq<Byte>>, all: seq<seq<Byte>>)
    requires start < end < |s| && s[end] == DOT && forall k :: start < k < end ==> s[k] != DOT
    requires all == done + Blocks(s[start..])
    ensures all == done + [s[start..end]] + Blocks(s[end + 1..])
  {
    BlockEnds(s, start, end);
    Assoc(done, s[start..end], Blocks(s[end + 1..]));
  }

  lemma ReachedEnd(s: seq<Byte>, start: nat, done: seq<seq<Byte>>)
    requires Reached(s, start, |s|, done)
    ensures Blocks(s) == done + [s[start..|s|]]
  {
    LastBlock(s, start);
    assert s[start..|s|] == s[start..];
  }

  /** A step of either loop: the block from start ends at the dot at position end. */
  lemma BlockEnds(s: seq<Byte>, start: nat, end: nat)
    requires start < end < |s| && s[end] == DOT && forall k :: start < k < end ==> s[k] != DOT
    ensures Blocks(s[start..]) == [s[start..end]] + Blocks(s[end + 1..])
  {
    var t := s[start..];
    assert DotFrom(t, 1) == end - start;
    assert t[..end - start] == s[start..end] && t[end - start + 1..] == s[end + 1..];
  }

  lemma LastBlock(s: seq<Byte>, start: nat)
    requires start <= |s| && forall k :: start < k < |s| ==> s[k] != DOT
    ensures Blocks(s[start..]) == [s[start..]]
  {
    if start < |s| { assert DotFrom(s[start..], 1) == |s| - start; }
  }
}
