/** Domain names in questions and answers (kernel/user/dns.c). */
module Dns {
  import opened Words
  import opened Numbers
  import opened Labels
  import A = Addresses
  import NetUtil

  // ----- set_qsection -----

  /** Length byte and label, label after label; the length is cut to a byte. */
  function Wire(bs: seq<seq<Byte>>): seq<Byte> {
    if bs == [] then [] else [|bs[0]| % 256] + bs[0] + Wire(bs[1..])
  }

  function Big16(x: nat): seq<Byte>
    requires x < TWO16
  {
    [x / 256, x % 256]
  }

  /** The end of the name, type and class. */
  function Tail(qtype: nat, qclass: nat): (r: seq<Byte>)
    requires qtype < TWO16 && qclass < TWO16
    ensures |r| == 5
  {
    [0] + Big16(qtype) + Big16(qclass)
  }

  function Question(name: seq<Byte>, qtype: nat, qclass: nat): seq<Byte>
    requires qtype < TWO16 && qclass < TWO16
  {
    Wire(Blocks(name)) + Tail(qtype, qclass)
  }

  lemma {:induction false} WireSnoc(bs: seq<seq<Byte>>, b: seq<Byte>)
    ensures Wire(bs + [b]) == Wire(bs) + [|b| % 256] + b
  {
    if bs == [] {
      assert [b][1..] == [];
    } else {
      WireSnoc(bs[1..], b);
      assert (bs + [b])[1..] == bs[1..] + [b];
      Assoc([|bs[0]| % 256] + bs[0], Wire(bs[1..]), [|b| % 256], b);
    }
  }

  lemma Assoc(p: seq<Byte>, q: seq<Byte>, r: seq<Byte>, t: seq<Byte>)
    ensures p + (q + r + t) == p + q + r + t
  {
  }

  lemma {:induction false} WireLength(bs: seq<seq<Byte>>)
    requires bs != []
    ensures |Wire(bs)| == |Join(bs)| + 1
  {
    if |bs| > 1 { WireLength(bs[1..]); } else { assert bs[1..] == []; }
  }

  /** The question section takes strlen + 6 bytes, whatever the name. */
  lemma QuestionLength(name: seq<Byte>, qtype: nat, qclass: nat)
    requires qtype < TWO16 && qclass < TWO16
    ensures |Question(name, qtype, qclass)| == |name| + 6
  {
    JoinBlocks(name);
    WireLength(Blocks(name));
  }

  lemma Big16Reads(x: nat)
    requires x < TWO16
    ensures |Big16(x)| == 2 && NetUtil.Word(Big16(x)[0], Big16(x)[1]) < TWO16
    ensures NetUtil.Reverse16(NetUtil.Word(Big16(x)[0], Big16(x)[1])) == x
  {
    NetUtil.Div256(x % 256, x / 256);
  }

  /** A receiver that loads the last two 16-bit words of a question, as the machine does, and applies ntoh16 reads back
      the type and the class; a zero byte ends the name before them. */
  lemma TypeAndClass(name: seq<Byte>, qtype: nat, qclass: nat)
    requires qtype < TWO16 && qclass < TWO16
    ensures var q := Question(name, qtype, qclass);
      && |q| == |name| + 6 && q[|q| - 5] == 0
      && var t, c := NetUtil.Word(q[|q| - 4], q[|q| - 3]), NetUtil.Word(q[|q| - 2], q[|q| - 1]);
      && t < TWO16 && c < TWO16 && NetUtil.Reverse16(t) == qtype && NetUtil.Reverse16(c) == qclass
  {
    QuestionLength(name, qtype, qclass);
    Big16Reads(qtype);
    Big16Reads(qclass);
    var q, w, t := Question(name, qtype, qclass), Wire(Blocks(name)), Tail(qtype, qclass);
    assert forall i :: 0 <= i < 5 ==> q[|w| + i] == t[i];
  }

  /** memcpy to position p. */
  method Copy(buf: array<Byte>, p: nat, s: seq<Byte>)
    requires p + |s| <= buf.Length
    modifies buf
    ensures buf[..p + |s|] == old(buf[..p]) + s
    ensures forall i :: p + |s| <= i < buf.Length ==> buf[i] == old(buf[i])
  {
    forall i | 0 <= i < |s| { buf[p + i] := s[i]; }
  }

  /** The first p bytes are the blocks written so far, the others are as they were. */
  ghost predicate Written(b: seq<Byte>, was: seq<Byte>, p: nat, done: seq<seq<Byte>>) {
    && |b| == |was| && p <= |b| && b[..p] == Wire(done)
    && forall i :: p <= i < |b| ==> b[i] == was[i]
  }

  /** Length byte and label, behind the blocks already written. */
  method WriteBlock(buf: array<Byte>, p: nat, b: seq<Byte>, ghost was: seq<Byte>, ghost done: seq<seq<Byte>>)
    returns (q: nat)
    requires p + 1 + |b| <= buf.Length && Written(buf[..], was, p, done)
    modifies buf
    ensures q == p + 1 + |b| && Written(buf[..], was, q, done + [b])
  {
    q := p + 1 + |b|;
    WireSnoc(done, b);
    buf[p] := |b| % 256;
    assert buf[..p + 1] == Wire(done) + [|b| % 256];
    Copy(buf, p + 1, b);
    assert buf[..q] == Wire(done + [b]);
  }

  /** Where the loop of set_qsection stands: as much has been written as has been read. */
  ghost predicate Writing(b: seq<Byte>, was: seq<Byte>, name: seq<Byte>, start: nat, end: nat, done: seq<seq<Byte>>) {
    Reached(name, start, end, done) && Written(b, was, start, done)
  }

  /** One turn of it; p follows the output. */
  method WriteNext(buf: array<Byte>, name: seq<Byte>, start0: nat, end0: nat, p0: nat,
                   ghost was: seq<Byte>, ghost done0: seq<seq<Byte>>)
    returns (start: nat, end: nat, p: nat, ghost done: seq<seq<Byte>>)
    requires end0 < |name| < buf.Length && p0 == start0 && Writing(buf[..], was, name, start0, end0, done0)
    modifies buf
    ensures end0 < end && p == start && Writing(buf[..], was, name, start, end, done)
  {
    start, end, p, done := start0, end0 + 1, p0, done0;
    ReachedNext(name, start0, end0, done0);
    if end < |name| && name[end] == DOT {
      p := WriteBlock(buf, p0, name[start0..end], was, done0);
      done := done0 + [name[start0..end]];
      start := end + 1;
      end := end + 1;
    }
  }

  /** The block behind the last dot. */
  method WriteLast(buf: array<Byte>, name: seq<Byte>, start: nat, p0: nat,
                   ghost was: seq<Byte>, ghost done: seq<seq<Byte>>) returns (p: nat)
    requires |name| < buf.Length && p0 == start && Writing(buf[..], was, name, start, |name|, done)
    modifies buf
    ensures p == |name| + 1 && Written(buf[..], was, p, Blocks(name))
  {
    ReachedEnd(name, start, done);
    p := WriteBlock(buf, p0, name[start..|name|], was, done);
  }

  /** The loop of set_qsection, up to the last block. */
  method WriteName(buf: array<Byte>, name: seq<Byte>) returns (p: nat)
    requires buf.Length >= |name| + 1
    modifies buf
    ensures p == |name| + 1 && Written(buf[..], old(buf[..]), p, Blocks(name))
  {
    var start: nat, end: nat := 0, 0;
    ghost var was, done: seq<seq<Byte>> := buf[..], [];
    p := 0;
    ReachedStart(name);
    while end < |name|
      invariant p == start && Writing(buf[..], was, name, start, end, done)
      decreases |name| - end
    {
      start, end, p, done := WriteNext(buf, name, start, end, p, was, done);
    }
    p := WriteLast(buf, name, start, p, was, done);
  }

  method SetQsection(buf: array<Byte>, name: seq<Byte>, qtype: nat, qclass: nat) returns (n: nat)
    requires buf.Length >= |name| + 6 && qtype < TWO16 && qclass < TWO16
    modifies buf
    ensures n == |name| + 6 && buf[..n] == Question(name, qtype, qclass)
    ensures forall i :: n <= i < buf.Length ==> buf[i] == old(buf[i])
  {
    n := WriteName(buf, name);
    assert buf[..n] == buf[..][..n];
    Copy(buf, n, Tail(qtype, qclass));
    n := n + 5;
  }

  // ----- parse_domain_name -----

  /** Overrun: the parser would read past the end of the message. */
  datatype Name = Name(text: seq<Byte>) | Failed | Overrun

  function Parse(r: seq<Byte>, room: int): Name
    decreases |r|
  {
    if r == [] then Overrun
    else if r[0] == 0 then Name([])
    else if r[0] == 0xc0 || room < r[0] then Failed
    else if |r| <= r[0] then Overrun
    else
      match Parse(r[1 + r[0]..], room - r[0] - 1)
      case Name(t) => Name(r[1..1 + r[0]] + [DOT] + t)
      case other => other
  }

  /** A label whose length byte the parser reads as its length. */
  predicate Encodable(b: seq<Byte>) { 1 <= |b| <= 255 && |b| != 0xc0 }

  predicate AllEncodable(bs: seq<seq<Byte>>) { forall i :: 0 <= i < |bs| ==> Encodable(bs[i]) }

  /** Parsing the encoded labels gives them back, each with a dot, exactly when every length is one the parser
      takes as such and the output buffer has room for all but the last dot. */
  lemma {:induction false} ParseWire(bs: seq<seq<Byte>>, tail: seq<Byte>, room: int)
    requires Cut(bs)
    ensures Parse(Wire(bs) + [0] + tail, room) == Name(Join(bs) + [DOT])
      <==> AllEncodable(bs) && |Join(bs)| <= room
    decreases |bs|, 2
  {
    WireFirst(bs, tail);
    ParseSplit(bs, Wire(bs) + [0] + tail, tail, room);
  }

  lemma WireFirst(bs: seq<seq<Byte>>, tail: seq<Byte>)
    requires bs != []
    ensures Wire(bs) + [0] + tail == [|bs[0]| % 256] + bs[0] + (Wire(bs[1..]) + [0] + tail)
  {
  }

  lemma {:induction false} ParseSplit(bs: seq<seq<Byte>>, r: seq<Byte>, tail: seq<Byte>, room: int)
    requires Cut(bs) && r == [|bs[0]| % 256] + bs[0] + (Wire(bs[1..]) + [0] + tail)
    ensures Parse(r, room) == Name(Join(bs) + [DOT]) <==> AllEncodable(bs) && |Join(bs)| <= room
    decreases |bs|, 1
  {
    var m := |bs[0]| % 256;
    if m == 0 || m == 0xc0 || room < m {
      StoppedEarly(bs, r, room);
    } else if |bs[0]| != m {
      LongLabel(bs, r, room);
    } else if |bs| == 1 {
      ParseLast(bs, r, tail, room);
    } else {
      ParseFirst(bs, r, tail, room);
    }
  }

  lemma StoppedEarly(bs: seq<seq<Byte>>, r: seq<Byte>, room: int)
    requires Cut(bs) && r != [] && r[0] == |bs[0]| % 256 && (r[0] == 0 || r[0] == 0xc0 || room < r[0])
    ensures Parse(r, room) != Name(Join(bs) + [DOT]) && !(AllEncodable(bs) && |Join(bs)| <= room)
  {
    assert |Join(bs)| >= |bs[0]|;
    assert Encodable(bs[0]) ==> room < |bs[0]|;
  }

  lemma ParseLast(bs: seq<seq<Byte>>, r: seq<Byte>, tail: seq<Byte>, room: int)
    requires |bs| == 1 && Encodable(bs[0]) && |bs[0]| <= room
    requires r == [|bs[0]|] + bs[0] + (Wire(bs[1..]) + [0] + tail)
    ensures Parse(r, room) == Name(Join(bs) + [DOT])
  {
    var m := |bs[0]|;
    assert r[1 + m..] == [0] + tail && r[1..1 + m] == bs[0];
  }

  /** The step over an encodable label that is not the last. */
  lemma {:induction false} ParseFirst(bs: seq<seq<Byte>>, r: seq<Byte>, tail: seq<Byte>, room: int)
    requires Cut(bs) && |bs| > 1 && Encodable(bs[0]) && |bs[0]| <= room
    requires r == [|bs[0]|] + bs[0] + (Wire(bs[1..]) + [0] + tail)
    ensures Parse(r, room) == Name(Join(bs) + [DOT]) <==> AllEncodable(bs) && |Join(bs)| <= room
    decreases |bs|, 0
  {
    var b, rest, room' := bs[0], Wire(bs[1..]) + [0] + tail, room - |bs[0]| - 1;
    ParseWire(bs[1..], tail, room');
    assert r[1 + |b|..] == rest && r[1..1 + |b|] == b;
    assert AllEncodable(bs) <==> AllEncodable(bs[1..]) by {
      assert forall i :: 0 <= i < |bs| - 1 ==> bs[1..][i] == bs[i + 1];
      assert forall i :: 1 <= i < |bs| ==> bs[i] == bs[1..][i - 1];
    }
    match Parse(rest, room')
    case Name(t) =>
      Cancel(b, t, Join(bs[1..]) + [DOT]);
      assert Join(bs) + [DOT] == b + [DOT] + (Join(bs[1..]) + [DOT]);
    case _ =>
  }

  lemma Cancel(b: seq<Byte>, t: seq<Byte>, u: seq<Byte>)
    ensures b + [DOT] + t == b + [DOT] + u <==> t == u
  {
    assert (b + [DOT] + t)[|b| + 1..] == t && (b + [DOT] + u)[|b| + 1..] == u;
  }

  /** A label too long for its length byte: the parser puts a dot where the label has none. */
  lemma LongLabel(bs: seq<seq<Byte>>, r: seq<Byte>, room: int)
    requires Cut(bs) && |r| > |bs[0]| && r[0] == |bs[0]| % 256 && 0 < r[0] < |bs[0]| && r[0] != 0xc0
    ensures Parse(r, room) != Name(Join(bs) + [DOT])
  {
    var m := r[0];
    match Parse(r, room)
    case Name(t) => assert t[m] == DOT && (Join(bs) + [DOT])[m] == bs[0][m];
    case _ =>
  }

  /** set_qsection and parse_domain_name are inverse, up to the final dot, exactly on the names whose labels the
      length bytes can carry and with room for strlen bytes. */
  lemma NameRoundTrip(name: seq<Byte>, qtype: nat, qclass: nat, room: int)
    requires qtype < TWO16 && qclass < TWO16
    ensures Parse(Question(name, qtype, qclass), room) == Name(name + [DOT])
      <==> AllEncodable(Blocks(name)) && |name| <= room
  {
    JoinBlocks(name);
    var bs, tail := Blocks(name), Big16(qtype) + Big16(qclass);
    ParseWire(bs, tail, room);
    assert Wire(bs) + [0] + tail == Question(name, qtype, qclass);
  }

  /** In particular on every name of section 3.1 of RFC 1035: dot-free labels of 1 to 63 bytes. */
  lemma Rfc1035RoundTrip(labels: seq<seq<Byte>>, qtype: nat, qclass: nat, room: int)
    requires qtype < TWO16 && qclass < TWO16 && labels != [] && room >= |Join(labels)| + 1
    requires forall l :: l in labels ==> 1 <= |l| <= 63 && DOT !in l
    ensures var name := Join(labels);
      |Question(name, qtype, qclass)| == |name| + 6 && Parse(Question(name, qtype, qclass), room) == Name(name + [DOT])
  {
    forall i | 0 <= i < |labels| ensures Plain(labels[i]) && Encodable(labels[i]) {
      assert labels[i] in labels;
    }
    BlocksJoin(labels);
    QuestionLength(Join(labels), qtype, qclass);
    NameRoundTrip(Join(labels), qtype, qclass, room);
  }

  /** A name parsed behind text already written. */
  ghost function Behind(text: seq<Byte>, n: Name): Name {
    match n case Name(t) => Name(text + t) case _ => n
  }

  lemma ParseNext(r: seq<Byte>, room: int, text: seq<Byte>)
    requires r != [] && r[0] != 0 && r[0] != 0xc0 && r[0] <= room && |r| > r[0]
    ensures Behind(text, Parse(r, room))
      == Behind(text + r[1..1 + r[0]] + [DOT], Parse(r[1 + r[0]..], room - r[0] - 1))
  {
    match Parse(r[1 + r[0]..], room - r[0] - 1)
    case Name(t) => assert text + (r[1..1 + r[0]] + [DOT] + t) == text + r[1..1 + r[0]] + [DOT] + t;
    case _ =>
  }

  lemma ParseAt(rbuf: seq<Byte>, rp: nat, room: int, text: seq<Byte>, goal: Name)
    requires rp < |rbuf| && (var n := rbuf[rp]; n != 0 && n != 0xc0 && n <= room)
    requires Behind(text, Parse(rbuf[rp..], room)) == goal && !goal.Overrun?
    ensures var next := rp + 1 + rbuf[rp];
      && next < |rbuf|
      && Behind(text + (rbuf[rp + 1..next] + [DOT]), Parse(rbuf[next..], room - rbuf[rp] - 1)) == goal
  {
    var rest, n := rbuf[rp..], rbuf[rp];
    ParseNext(rest, room, text);
    assert rest[1..1 + n] == rbuf[rp + 1..rp + 1 + n] && rest[1 + n..] == rbuf[rp + 1 + n..];
    assert text + (rest[1..1 + n] + [DOT]) == text + rest[1..1 + n] + [DOT];
  }

  /** One turn of the loop of parse_domain_name: the label at rp and a dot go to wp. */
  method CopyLabel(rbuf: seq<Byte>, rp: nat, wbuf: array<Byte>, wp: nat, room: nat, ghost goal: Name)
    returns (rq: nat, wq: nat, left: int)
    requires rp < |rbuf| && rbuf[rp] != 0 && rbuf[rp] != 0xc0 && rbuf[rp] <= room && wp + room < wbuf.Length
    requires Behind(wbuf[..wp], Parse(rbuf[rp..], room)) == goal && !goal.Overrun?
    modifies wbuf
    ensures rp < rq < |rbuf| && wp <= wq <= wbuf.Length && left == room + wp - wq
    ensures Behind(wbuf[..wq], Parse(rbuf[rq..], left)) == goal
    ensures forall i :: wq <= i < wbuf.Length ==> wbuf[i] == old(wbuf[i])
  {
    ParseAt(rbuf, rp, room, wbuf[..wp], goal);
    var n: nat := rbuf[rp];
    rq, wq, left := rp + 1 + n, wp + n + 1, room - n - 1;
    ghost var text := wbuf[..wp] + (rbuf[rp + 1..rq] + [DOT]);
    assert Behind(text, Parse(rbuf[rq..], left)) == goal;
    Copy(wbuf, wp, rbuf[rp + 1..rq] + [DOT]);
    assert wbuf[..wq] == text;
  }

  /** parse_domain_name. The output needs one byte more than wlen, for the last dot. */
  method ParseDomainName(rbuf: seq<Byte>, wbuf: array<Byte>, wlen: int) returns (r: int)
    requires !Parse(rbuf, wlen).Overrun? && wlen < wbuf.Length
    modifies wbuf
    ensures r == (if Parse(rbuf, wlen).Name? then 0 else -1)
    ensures r == 0 ==> var t := Parse(rbuf, wlen).text;
      && |t| <= wbuf.Length && wbuf[..|t|] == t
      && forall i :: |t| <= i < wbuf.Length ==> wbuf[i] == old(wbuf[i])
  {
    var rp: nat, wp: nat, room := 0, 0, wlen;
    ghost var goal := Parse(rbuf, wlen);
    assert rbuf[0..] == rbuf;
    while rbuf[rp] != 0
      invariant rp < |rbuf| && wp <= wbuf.Length && room == wlen - wp
      invariant Behind(wbuf[..wp], Parse(rbuf[rp..], room)) == goal
      invariant forall i :: wp <= i < wbuf.Length ==> wbuf[i] == old(wbuf[i])
      decreases |rbuf| - rp
    {
      if rbuf[rp] == 0xc0 { return -1; }
      if room - rbuf[rp] < 0 { return -1; }
      rp, wp, room := CopyLabel(rbuf, rp, wbuf, wp, room, goal);
    }
    r := 0;
  }

  // ----- names for reverse lookup -----

  /** The digits set_num computes are the decimal digits. */
  lemma DecimalByte(n: Byte)
    ensures Decimal(n) ==
      if n < 10 then [ZERO + n]
      else if n < 100 then [ZERO + n / 10, ZERO + n % 10]
      else [ZERO + n / 100, ZERO + n % 100 / 10, ZERO + n % 100 % 10]
  {
    if n >= 100 {
      assert n / 10 / 10 == n / 100 && n / 10 % 10 == n % 100 / 10 && n % 10 == n % 100 % 10;
      assert Decimal(n / 10) == Decimal(n / 10 / 10) + [ZERO + n / 10 % 10];
    }
  }

  /** set_num writes the decimal form of a byte. */
  method SetNum(buf: array<Byte>, at: nat, orinum: Byte) returns (ret: nat)
    requires at + |Decimal(orinum)| <= buf.Length
    modifies buf
    ensures ret == |Decimal(orinum)| && buf[..at + ret] == old(buf[..at]) + Decimal(orinum)
    ensures forall i :: at + ret <= i < buf.Length ==> buf[i] == old(buf[i])
  {
    DecimalByte(orinum);
    ghost var digits := Decimal(orinum);
    var num := orinum;
    ret := 0;
    if num >= 100 {
      buf[at] := num / 100 + ZERO;
      num := num % 100;
      ret := 1;
    }
    if orinum >= 100 || num >= 10 {
      buf[at + ret] := num / 10 + ZERO;
      num := num % 10;
      ret := ret + 1;
    }
    buf[at + ret] := num + ZERO;
    ret := ret + 1;
    assert forall i :: 0 <= i < ret ==> buf[at + i] == digits[i];
  }

  /** "in-addr" and "arpa". */
  const IN_ADDR: seq<Byte> := [105, 110, 45, 97, 100, 100, 114]
  const ARPA: seq<Byte> := [97, 114, 112, 97]

  /** The labels of the name under which section 3.5 of RFC 1035 files the address d.c.b.a. */
  function ArpaLabels(a: Byte, b: Byte, c: Byte, d: Byte): seq<seq<Byte>> {
    A.Quad(a, b, c, d) + [IN_ADDR, ARPA]
  }

  function ArpaText(a: Byte, b: Byte, c: Byte, d: Byte): seq<Byte> {
    Join(ArpaLabels(a, b, c, d))
  }

  /** Labels with a dot behind each. */
  function Lead(bs: seq<seq<Byte>>): seq<Byte> {
    if bs == [] then [] else Lead(bs[..|bs| - 1]) + bs[|bs| - 1] + [DOT]
  }

  lemma LeadSnoc(bs: seq<seq<Byte>>, b: seq<Byte>)
    ensures Lead(bs + [b]) == Lead(bs) + b + [DOT]
  {
    assert (bs + [b])[..|bs|] == bs;
  }

  lemma {:induction false} JoinLead(bs: seq<seq<Byte>>, rest: seq<seq<Byte>>)
    requires rest != []
    ensures Join(bs + rest) == Lead(bs) + Join(rest)
  {
    if bs == [] {
      assert bs + rest == rest;
    } else {
      var most, x := bs[..|bs| - 1], bs[|bs| - 1];
      JoinLead(most, [x] + rest);
      assert most + ([x] + rest) == bs + rest;
      JoinCons(x, rest);
      assert Lead(most) + (x + [DOT] + Join(rest)) == Lead(most) + x + [DOT] + Join(rest);
    }
  }

  /** The text is the four numbers, each with its dot, and "in-addr.arpa". */
  lemma ArpaIs(a: Byte, b: Byte, c: Byte, d: Byte)
    ensures ArpaText(a, b, c, d) == Lead(A.Quad(a, b, c, d)) + (IN_ADDR + [DOT] + ARPA)
    ensures |ArpaText(a, b, c, d)| == |Decimal(a)| + |Decimal(b)| + |Decimal(c)| + |Decimal(d)| + 16
  {
    JoinLead(A.Quad(a, b, c, d), [IN_ADDR, ARPA]);
    assert [IN_ADDR, ARPA][1..] == [ARPA];
    QuadLead(Decimal(a), Decimal(b), Decimal(c), Decimal(d));
  }

  lemma QuadLead(p: seq<Byte>, q: seq<Byte>, r: seq<Byte>, s: seq<Byte>)
    ensures |Lead([p, q, r, s])| == |p| + |q| + |r| + |s| + 4
  {
    var s0: seq<seq<Byte>> := [];
    var s1 := s0 + [p];
    var s2 := s1 + [q];
    var s3 := s2 + [r];
    LeadSnoc(s0, p);
    LeadSnoc(s1, q);
    LeadSnoc(s2, r);
    LeadSnoc(s3, s);
    assert [p, q, r, s] == s3 + [s];
  }

  /** A number and its dot, behind the labels already written. */
  method SetNumDot(buf: array<Byte>, at: nat, n: Byte, ghost done: seq<seq<Byte>>) returns (p: nat)
    requires at + |Decimal(n)| + 1 <= buf.Length && buf[..at] == Lead(done)
    modifies buf
    ensures p == at + |Decimal(n)| + 1 && buf[..p] == Lead(done + [Decimal(n)])
    ensures forall i :: p <= i < buf.Length ==> buf[i] == old(buf[i])
  {
    LeadSnoc(done, Decimal(n));
    var len := SetNum(buf, at, n);
    buf[at + len] := DOT;
    p := at + len + 1;
    assert buf[..p] == buf[..at + len] + [DOT];
  }

  /** The four numbers. */
  method SetQuad(buf: array<Byte>, a: Byte, b: Byte, c: Byte, d: Byte) returns (p: nat)
    requires |Decimal(a)| + |Decimal(b)| + |Decimal(c)| + |Decimal(d)| + 4 <= buf.Length
    modifies buf
    ensures p == |Decimal(a)| + |Decimal(b)| + |Decimal(c)| + |Decimal(d)| + 4
    ensures buf[..p] == Lead(A.Quad(a, b, c, d))
    ensures forall i :: p <= i < buf.Length ==> buf[i] == old(buf[i])
  {
    ghost var s0: seq<seq<Byte>> := [];
    ghost var s2 := s0 + [Decimal(a)] + [Decimal(b)];
    p := SetNumDot(buf, 0, a, s0);
    p := SetNumDot(buf, p, b, s0 + [Decimal(a)]);
    p := SetNumDot(buf, p, c, s2);
    p := SetNumDot(buf, p, d, s2 + [Decimal(c)]);
    QuadIs(a, b, c, d);
  }

  lemma QuadIs(a: Byte, b: Byte, c: Byte, d: Byte)
    ensures [] + [Decimal(a)] + [Decimal(b)] + [Decimal(c)] + [Decimal(d)] == A.Quad(a, b, c, d)
  {
  }

  /** generate_arpa_address, for the address with the bytes a, b, c, d from the least significant on. The byte
      after the text is left as it was and the one behind it cleared, so the caller's buffer must have held a
      zero there. */
  method GenerateArpaAddress(buf: array<Byte>, ip: nat, ghost a: Byte, ghost b: Byte, ghost c: Byte, ghost d: Byte)
    requires ip == NetUtil.Little32(a, b, c, d) && buf.Length >= |ArpaText(a, b, c, d)| + 2
    modifies buf
    ensures var n := |ArpaText(a, b, c, d)|;
      && buf[..n] == ArpaText(a, b, c, d) && buf[n] == old(buf[n]) && buf[n + 1] == 0
      && forall i :: n + 2 <= i < buf.Length ==> buf[i] == old(buf[i])
  {
    NetUtil.BytesOf(a, b, c, d);
    ArpaIs(a, b, c, d);
    var p := SetQuad(buf, ip % 256, ip / 256 % 256, ip / 0x1_0000 % 256, ip / 0x100_0000 % 256);
    Copy(buf, p, IN_ADDR + [DOT] + ARPA);
    buf[p + 13] := 0;
  }

  lemma ArpaCut(a: Byte, b: Byte, c: Byte, d: Byte)
    ensures Cut(ArpaLabels(a, b, c, d)) && AllEncodable(ArpaLabels(a, b, c, d))
  {
    A.QuadCut(a, b, c, d);
    DecimalByte(a); DecimalByte(b); DecimalByte(c); DecimalByte(d);
  }

  /** The name splits into the labels meant, of which the first four read as the address in reverse byte order;
      and as a question it comes back from the parser. */
  lemma ArpaRoundTrip(a: Byte, b: Byte, c: Byte, d: Byte, qtype: nat, qclass: nat)
    requires qtype < TWO16 && qclass < TWO16
    ensures var name, ip := ArpaText(a, b, c, d), NetUtil.Little32(a, b, c, d);
      && Blocks(name) == ArpaLabels(a, b, c, d)
      && ip < TWO32 && A.AddressOf(Join(Blocks(name)[..4])) == NetUtil.Reverse32(ip)
      && Parse(Question(name, qtype, qclass), |name|) == Name(name + [DOT])
  {
    var name := ArpaText(a, b, c, d);
    ArpaCut(a, b, c, d);
    BlocksJoin(ArpaLabels(a, b, c, d));
    NameRoundTrip(name, qtype, qclass, |name|);
    ReverseRead(a, b, c, d);
  }

  lemma ReverseRead(a: Byte, b: Byte, c: Byte, d: Byte)
    ensures A.AddressOf(Join(ArpaLabels(a, b, c, d)[..4])) == NetUtil.Reverse32(NetUtil.Little32(a, b, c, d))
  {
    assert ArpaLabels(a, b, c, d)[..4] == A.Quad(a, b, c, d);
    A.QuadCut(a, b, c, d);
    BlocksJoin(A.Quad(a, b, c, d));
    A.PackedQuad(a, b, c, d);
    NetUtil.Reverse32Loads(a, b, c, d);
  }
}
