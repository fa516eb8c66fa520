/** parse_ipaddr (kernel/user/user_app.c). */
module Addresses {
  import opened Words
  import opened Numbers
  import opened Labels
  import NetUtil

  /** Blocks shifted in one after the other, in uint32_t. */
  function Packed(bs: seq<seq<Byte>>): (r: nat) {
    if bs == [] then 0 else Add32(Packed(bs[..|bs| - 1]) * 256 % 0x1_0000_0000, Parsed(bs[|bs| - 1]))
  }

  function AddressOf(s: seq<Byte>): nat {
    if |Blocks(s)| == 4 then Packed(Blocks(s)) else 0
  }

  function Quad(a: Byte, b: Byte, c: Byte, d: Byte): seq<seq<Byte>> {
    [Decimal(a), Decimal(b), Decimal(c), Decimal(d)]
  }

  lemma PackedSnoc(bs: seq<seq<Byte>>, b: seq<Byte>)
    ensures Packed(bs + [b]) == Add32(Packed(bs) * 256 % 0x1_0000_0000, Parsed(b))
  {
    assert (bs + [b])[..|bs|] == bs;
  }

  method ShiftIn(ret: nat, block: seq<Byte>, ghost done: seq<seq<Byte>>) returns (r: nat)
    requires ret == Packed(done)
    ensures r == Packed(done + [block])
  {
    PackedSnoc(done, block);
    var v := Stoi(block);
    r := Add32(ret * 256 % 0x1_0000_0000, v);
  }

  method ParseIpaddr(buf: seq<Byte>) returns (r: nat)
    requires forall b :: b in Blocks(buf) ==> |b| < 100 // the size of tmpbuf
    ensures r == AddressOf(buf)
  {
    var start, end, dotcount, ret := 0, 0, 0, 0;
    ghost var done: seq<seq<Byte>> := [];
    ReachedStart(buf);
    while end < |buf|
      invariant 0 <= start <= end && Reached(buf, start, end, done)
      invariant dotcount == |done| && ret == Packed(done)
      decreases |buf| - end
    {
      ReachedNext(buf, start, end, done);
      end := end + 1;
      if end < |buf| && buf[end] == DOT {
        dotcount := dotcount + 1;
        ret := ShiftIn(ret, buf[start..end], done);
        done := done + [buf[start..end]];
        start := end + 1;
        end := end + 1;
      }
    }
    ReachedEnd(buf, start, done);
    if dotcount != 3 { return 0; }
    r := ShiftIn(ret, buf[start..end], done);
  }

  lemma {:induction false} DigitsPlain(n: nat)
    ensures Plain(Decimal(n)) && Parsed(Decimal(n)) == n % 0x1_0000_0000
  {
    DecimalIs(n);
    forall i | 1 <= i < |Decimal(n)| ensures Decimal(n)[i] != DOT { assert IsDigit(Decimal(n)[i]); }
  }

  lemma NoWrap(v: nat, x: Byte)
    requires v < 0x100_0000
    ensures Add32(v * 256 % 0x1_0000_0000, x) == 256 * v + x
  {
    assert v * 256 % 0x1_0000_0000 == v * 256;
  }

  lemma PackedByte(bs: seq<seq<Byte>>, x: Byte)
    requires Packed(bs) < 0x100_0000
    ensures Packed(bs + [Decimal(x)]) == 256 * Packed(bs) + x
  {
    var b := Decimal(x);
    assert Parsed(b) == x by { DigitsPlain(x); }
    PackedSnoc(bs, b);
    NoWrap(Packed(bs), x);
  }

  lemma PackedQuad(a: Byte, b: Byte, c: Byte, d: Byte)
    ensures Packed(Quad(a, b, c, d)) == NetUtil.Big32(a, b, c, d)
  {
    var s0: seq<seq<Byte>> := [];
    var s1 := s0 + [Decimal(a)];
    var s2 := s1 + [Decimal(b)];
    var s3 := s2 + [Decimal(c)];
    PackedByte(s0, a);
    PackedByte(s1, b);
    PackedByte(s2, c);
    PackedByte(s3, d);
    assert Quad(a, b, c, d) == s3 + [Decimal(d)];
  }

  lemma QuadCut(a: Byte, b: Byte, c: Byte, d: Byte)
    ensures Cut(Quad(a, b, c, d))
  {
    DigitsPlain(a); DigitsPlain(b); DigitsPlain(c); DigitsPlain(d);
  }

  /** The dotted form of an address, most significant byte first. */
  function Dotted(ip: nat): seq<Byte>
    requires ip < TWO32
  {
    Join(Quad(ip / 0x100_0000 % 256, ip / 0x1_0000 % 256, ip / 256 % 256, ip % 256))
  }

  /** parse_ipaddr undoes the dotted form of every address. */
  lemma ParseInvertsDotted(ip: nat)
    requires ip < TWO32
    ensures AddressOf(Dotted(ip)) == ip
  {
    var a, b, c, d := NetUtil.AsBytes(ip);
    NetUtil.BytesOf(a, b, c, d);
    QuadCut(d, c, b, a);
    BlocksJoin(Quad(d, c, b, a));
    PackedQuad(d, c, b, a);
  }

  // ----- texts that are no addresses -----

  lemma PackedNext(bs: seq<seq<Byte>>, b: seq<Byte>, v: nat)
    requires Packed(bs) == v % 0x1_0000_0000
    ensures Packed(bs + [b]) == (256 * v + Parsed(b)) % 0x1_0000_0000
  {
    PackedSnoc(bs, b);
    ScaleWraps(v, 256, Parsed(b));
  }

  /** The value of four numbers a.b.c.d; larger ones than 255 run into the byte before. */
  function Value(bs: seq<seq<Byte>>): nat
    requires |bs| == 4
  {
    0x100_0000 * Parsed(bs[0]) + 0x1_0000 * Parsed(bs[1]) + 256 * Parsed(bs[2]) + Parsed(bs[3])
  }

  lemma PackedFour(bs: seq<seq<Byte>>)
    requires |bs| == 4
    ensures Packed(bs) == Value(bs) % 0x1_0000_0000
  {
    var v1 := Parsed(bs[0]);
    var v2 := 256 * v1 + Parsed(bs[1]);
    var v3 := 256 * v2 + Parsed(bs[2]);
    PackedNext(bs[..0], bs[0], 0);
    assert bs[..0] + [bs[0]] == bs[..1];
    PackedNext(bs[..1], bs[1], v1);
    assert bs[..1] + [bs[1]] == bs[..2];
    PackedNext(bs[..2], bs[2], v2);
    assert bs[..2] + [bs[2]] == bs[..3];
    PackedNext(bs[..3], bs[3], v3);
    assert bs[..3] + [bs[3]] == bs;
  }

  /** What any text stands for: joined from any other number of blocks than four it is 0, and the commands ask a name
      server for it; from four blocks it is their value modulo 2^32. By JoinBlocks every text is so joined. */
  lemma AddressIs(bs: seq<seq<Byte>>)
    requires Cut(bs)
    ensures AddressOf(Join(bs)) == if |bs| == 4 then Value(bs) % 0x1_0000_0000 else 0
  {
    BlocksJoin(bs);
    if |bs| == 4 { PackedFour(bs); }
  }

  predicate HasOther(b: seq<Byte>) { exists i :: 0 <= i < |b| && (b[i] < 48 || b[i] > 57) }

  lemma OtherIsZero(b: seq<Byte>)
    requires HasOther(b)
    ensures Parsed(b) == 0
  {
    var i :| 0 <= i < |b| && (b[i] < 48 || b[i] > 57);
    ParsedOther(b, i);
  }

  lemma OthersAreZero(bs: seq<seq<Byte>>)
    requires |bs| == 4 && forall k :: 0 <= k < 4 ==> Parsed(bs[k]) == 0
    ensures Packed(bs) == 0
  {
    PackedFour(bs);
  }

  /** A name with a byte that is no digit in every label goes to the name server, however many labels it has. */
  lemma NamesAreNone(bs: seq<seq<Byte>>)
    requires Cut(bs) && forall i :: 0 <= i < |bs| ==> HasOther(bs[i])
    ensures AddressOf(Join(bs)) == 0
  {
    BlocksJoin(bs);
    if |bs| == 4 {
      forall k | 0 <= k < 4 ensures Parsed(bs[k]) == 0 { OtherIsZero(bs[k]); }
      OthersAreZero(bs);
    }
  }

  function Dots(s: seq<Byte>): nat {
    if s == [] then 0 else Dots(s[..|s| - 1]) + if s[|s| - 1] == DOT then 1 else 0
  }

  lemma {:induction false} DotsAppend(s: seq<Byte>, t: seq<Byte>)
    ensures Dots(s + t) == Dots(s) + Dots(t)
  {
    if t == [] {
      assert s + t == s;
    } else {
      DotsAppend(s, t[..|t| - 1]);
      assert (s + t)[..|s + t| - 1] == s + t[..|t| - 1];
    }
  }

  lemma {:induction false} NoDots(s: seq<Byte>)
    requires forall i :: 0 <= i < |s| ==> s[i] != DOT
    ensures Dots(s) == 0
  {
    if s != [] { NoDots(s[..|s| - 1]); }
  }

  lemma {:induction false} JoinDots(bs: seq<seq<Byte>>)
    requires bs != [] && forall k :: 0 <= k < |bs| ==> forall i :: 0 <= i < |bs[k]| ==> bs[k][i] != DOT
    ensures Dots(Join(bs)) == |bs| - 1
  {
    NoDots(bs[0]);
    if |bs| > 1 {
      JoinDots(bs[1..]);
      NoDots([]);
      assert Dots([DOT]) == 1 by { assert [DOT][..0] == []; }
      DotsAppend(bs[0], [DOT]);
      DotsAppend(bs[0] + [DOT], Join(bs[1..]));
    }
  }

  predicate Single(s: seq<Byte>, i: nat)
    requires i < |s|
  {
    s[i] != DOT || (i > 0 && s[i - 1] != DOT)
  }

  /** In a text that neither begins with a dot nor has two together every dot cuts: unless there are exactly three, it
      is no address. */
  lemma ThreeDots(s: seq<Byte>)
    requires forall i: nat :: i < |s| ==> Single(s, i)
    ensures Dots(s) != 3 ==> AddressOf(s) == 0
  {
    var bs := Blocks(s);
    JoinBlocks(s);
    AddressIs(bs);
    NoDotsInside(s);
    JoinDots(bs);
  }

  lemma {:induction false} NoDotsInside(s: seq<Byte>)
    requires forall i: nat :: i < |s| ==> Single(s, i)
    ensures forall k :: 0 <= k < |Blocks(s)| ==> forall i :: 0 <= i < |Blocks(s)[k]| ==> Blocks(s)[k][i] != DOT
    decreases |s|
  {
    if s != [] {
      assert Single(s, 0);
      var j := DotFrom(s, 1);
      if j < |s| {
        var t := s[j + 1..];
        forall i: nat | i < |t| ensures Single(t, i) { assert Single(s, j + 1 + i); }
        NoDotsInside(t);
      }
    }
  }
}
