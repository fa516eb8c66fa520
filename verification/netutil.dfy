/** Byte order and the Internet checksum (kernel/net/netutil.c), on a little-endian machine. */
module NetUtil {
  import opened Words

  function Reverse16(x: nat): (r: nat)
    requires x < TWO16
    ensures r < TWO16
  {
    x / 256 + x % 256 * 256
  }

  function Reverse32(x: nat): (r: nat)
    requires x < TWO32
  {
    var b0, b1, b2, b3 := x % 256, x / 256 % 256, x / 0x1_0000 % 256, x / 0x100_0000 % 256;
    ((b0 * 256 + b1) * 256 + b2) * 256 + b3
  }

  /** Four bytes read as a uint32_t by the machine, and in network order. */
  function Little32(a: Byte, b: Byte, c: Byte, d: Byte): nat { a + 256 * (b + 256 * (c + 256 * d)) }

  function Big32(a: Byte, b: Byte, c: Byte, d: Byte): nat { Little32(d, c, b, a) }

  lemma BytesOf(a: Byte, b: Byte, c: Byte, d: Byte)
    ensures var x := Little32(a, b, c, d);
      x % 256 == a && x / 256 % 256 == b && x / 0x1_0000 % 256 == c && x / 0x100_0000 % 256 == d
  {
    var q2: nat := c + 256 * d;
    var q1: nat := b + 256 * q2;
    Shifts(a + 256 * q1);
    Div256(q1, a);
    Div256(q2, b);
    Div256(d, c);
  }

  /** ntoh32 after a load gives the network-order value. */
  lemma Reverse32Loads(a: Byte, b: Byte, c: Byte, d: Byte)
    ensures Little32(a, b, c, d) < TWO32 && Reverse32(Little32(a, b, c, d)) == Big32(a, b, c, d)
  {
    BytesOf(a, b, c, d);
  }

  lemma Div256(q: nat, r: Byte)
    ensures (r + 256 * q) / 256 == q && (r + 256 * q) % 256 == r
  {
  }

  lemma Shifts(x: nat)
    ensures x / 0x1_0000 == x / 256 / 256 && x / 0x100_0000 == x / 256 / 256 / 256
  {
  }

  lemma AsBytes(x: nat) returns (a: Byte, b: Byte, c: Byte, d: Byte)
    requires x < TWO32
    ensures x == Little32(a, b, c, d)
  {
    var q1 := x / 256;
    var q2 := q1 / 256;
    a, b, c, d := x % 256, q1 % 256, q2 % 256, q2 / 256;
  }

  /** The same swap converts both ways. */
  lemma Reverse32Involution(x: nat)
    requires x < TWO32
    ensures Reverse32(x) < TWO32 && Reverse32(Reverse32(x)) == x
  {
    var a, b, c, d := AsBytes(x);
    Reverse32Loads(a, b, c, d);
    Reverse32Loads(d, c, b, a);
  }

  lemma Reverse16Involution(x: nat)
    requires x < TWO16
    ensures Reverse16(Reverse16(x)) == x
  {
    Div256(x % 256, x / 256);
  }

  // ----- checksum -----

  function Word(low: Byte, high: Byte): nat { low + 256 * high }

  /** The sum of the 16-bit words, in memory order of the machine; an odd last byte stands alone. */
  function Sum(s: seq<Byte>): nat {
    if s == [] then 0 else if |s| == 1 then s[0] else Word(s[0], s[1]) + Sum(s[2..])
  }

  /** The same in network order, the odd byte padded with a zero on the right. */
  function SumBig(s: seq<Byte>): nat {
    if s == [] then 0 else if |s| == 1 then 256 * s[0] else Word(s[1], s[0]) + SumBig(s[2..])
  }

  /** The one's complement 16-bit value of a sum: its residue modulo 65535, with 0 kept for the sum 0 alone. */
  function Ones(n: nat): (r: nat)
    ensures r <= 0xffff && r % 0xffff == n % 0xffff && (r == 0 <==> n == 0)
  {
    if n == 0 then 0 else (n - 1) % 0xffff + 1
  }

  lemma OnesUnique(n: nat, r: nat)
    requires r <= 0xffff && r % 0xffff == n % 0xffff && (r == 0 <==> n == 0)
    ensures r == Ones(n)
  {
  }

  /** The value section 1 of RFC 1071 asks for. */
  function Complement(n: nat): (r: nat)
    ensures r <= 0xffff
  {
    0xffff - Ones(n)
  }

  /** One addition with its single fold. */
  method AddFold(sum: nat, w: nat, ghost n: nat) returns (r: nat)
    requires sum == Ones(n) && w <= 0xffff
    ensures r == Ones(n + w)
  {
    r := sum + w;
    if r / TWO16 != 0 {
      r := r % TWO16 + r / TWO16;
    }
    ModShift(n, sum, w);
    OnesUnique(n + w, r);
  }

  lemma ModShift(n: nat, sum: nat, w: nat)
    requires sum % 0xffff == n % 0xffff
    ensures (sum + w) % 0xffff == (n + w) % 0xffff
  {
    var p, q := sum / 0xffff, n / 0xffff;
    ModPlus(sum % 0xffff + w, p);
    ModPlus(sum % 0xffff + w, q);
    assert sum + w == sum % 0xffff + w + 0xffff * p && n + w == sum % 0xffff + w + 0xffff * q;
  }

  lemma {:induction false} ModPlus(x: nat, k: nat)
    ensures (x + 0xffff * k) % 0xffff == x % 0xffff
  {
    if k > 0 { ModPlus(x, k - 1); }
  }

  method Checksum(data: seq<Byte>) returns (r: nat)
    requires |data| < TWO16
    ensures r == Complement(Sum(data))
  {
    var sum := 0;
    var i := 0;
    while i < |data| / 2
      invariant i <= |data| / 2
      invariant sum == Ones(Sum(data[..2 * i]))
    {
      SumNext(data, i);
      sum := AddFold(sum, Word(data[2 * i], data[2 * i + 1]), Sum(data[..2 * i]));
      i := i + 1;
    }
    if |data| % 2 == 1 {
      SumLast(data);
      sum := AddFold(sum, data[|data| - 1], Sum(data[..2 * i]));
    } else {
      assert data[..2 * i] == data;
    }
    r := 0xffff - sum;
  }

  /** Sums of an even number of bytes add up. */
  lemma {:induction false} SumConcat(s: seq<Byte>, t: seq<Byte>)
    requires |s| % 2 == 0
    ensures Sum(s + t) == Sum(s) + Sum(t)
  {
    if s == [] {
      assert s + t == t;
    } else {
      SumConcat(s[2..], t);
      assert (s + t)[2..] == s[2..] + t;
    }
  }

  lemma SumNext(s: seq<Byte>, i: nat)
    requires 2 * i + 1 < |s|
    ensures Sum(s[..2 * (i + 1)]) == Sum(s[..2 * i]) + Word(s[2 * i], s[2 * i + 1])
  {
    var w := s[2 * i..2 * i + 2];
    SumConcat(s[..2 * i], w);
    assert s[..2 * i] + w == s[..2 * (i + 1)];
    assert w[2..] == [];
  }

  lemma SumLast(s: seq<Byte>)
    requires |s| % 2 == 1
    ensures Sum(s) == Sum(s[..|s| - 1]) + s[|s| - 1]
  {
    SumConcat(s[..|s| - 1], [s[|s| - 1]]);
    assert s[..|s| - 1] + [s[|s| - 1]] == s;
  }

  /** Bytes with the value v stored at the aligned position p as the machine stores a uint16_t. */
  function Stored(s: seq<Byte>, p: nat, v: nat): (r: seq<Byte>)
    requires p + 1 < |s| && v < TWO16
    ensures |r| == |s|
  {
    s[p := v % 256][p + 1 := v / 256]
  }

  lemma SumWord(s: seq<Byte>, p: nat)
    requires p + 1 < |s| && p % 2 == 0
    ensures Sum(s) == Sum(s[..p]) + Word(s[p], s[p + 1]) + Sum(s[p + 2..])
  {
    SumConcat(s[..p], s[p..]);
    assert s[..p] + s[p..] == s;
    assert s[p..][2..] == s[p + 2..];
  }

  lemma SumStored(s: seq<Byte>, p: nat, v: nat)
    requires p + 1 < |s| && p % 2 == 0 && v < TWO16 && s[p] == s[p + 1] == 0
    ensures Sum(Stored(s, p, v)) == Sum(s) + v
  {
    SumWord(s, p);
    SumWord(Stored(s, p, v), p);
    assert Stored(s, p, v)[..p] == s[..p];
    assert Stored(s, p, v)[p + 2..] == s[p + 2..];
  }

  lemma AddComplement(n: nat)
    ensures Ones(n + Complement(n)) == 0xffff
  {
    ModShift(n, Ones(n), 0xffff - Ones(n));
    OnesUnique(n + Complement(n), 0xffff);
  }

  /** A packet whose zeroed checksum field has been filled in checks to 0. */
  lemma FilledChecksToZero(s: seq<Byte>, p: nat)
    requires p + 1 < |s| && p % 2 == 0 && s[p] == s[p + 1] == 0
    ensures Complement(Sum(Stored(s, p, Complement(Sum(s))))) == 0
  {
    SumStored(s, p, Complement(Sum(s)));
    AddComplement(Sum(s));
  }

  /** Only the filled-in value does, apart from the other zero of one's complement: any stored v that checks
      to 0 agrees with it modulo 65535. */
  lemma OnlyTheChecksum(s: seq<Byte>, p: nat, v: nat)
    requires p + 1 < |s| && p % 2 == 0 && v < TWO16 && s[p] == s[p + 1] == 0
    requires Complement(Sum(Stored(s, p, v))) == 0
    ensures v % 0xffff == Complement(Sum(s)) % 0xffff
  {
    SumStored(s, p, v);
    SameFill(Sum(s), v);
  }

  lemma SameFill(n: nat, v: nat)
    requires Ones(n + v) == 0xffff
    ensures v % 0xffff == Complement(n) % 0xffff
  {
    AddComplement(n);
    ModCancel(n, v, Complement(n));
  }

  lemma ModCancel(n: nat, v: nat, c: nat)
    requires (n + v) % 0xffff == (n + c) % 0xffff
    ensures v % 0xffff == c % 0xffff
  {
    var p, q := (n + v) / 0xffff, (n + c) / 0xffff;
    assert v - c == 0xffff * (p - q);
    if p >= q { ModPlus(c, p - q); } else { ModPlus(v, q - p); }
  }

  // ----- byte order independence -----

  lemma {:induction false} BigIsSwapped(s: seq<Byte>)
    ensures SumBig(s) % 0xffff == 256 * Sum(s) % 0xffff
    ensures SumBig(s) == 0 <==> Sum(s) == 0
  {
    if |s| > 1 {
      BigIsSwapped(s[2..]);
      var x, n := s[1], SumBig(s[2..]);
      ModShift(256 * Sum(s[2..]), n, 256 * s[0] + x);
      ModPlus(256 * s[0] + x + 256 * Sum(s[2..]), x);
    }
  }

  /** Swapping the bytes of a 16-bit value multiplies it by 256 modulo 65535. */
  lemma OnesSwapped(n: nat, big: nat)
    requires big % 0xffff == 256 * n % 0xffff && (big == 0 <==> n == 0)
    ensures Ones(big) == Reverse16(Ones(n))
  {
    var x := Ones(n);
    var h, l := x / 256, x % 256;
    assert 256 * x == Reverse16(x) + 0xffff * h;
    ModPlus(Reverse16(x), h);
    ModTimes(n, x);
    assert Reverse16(x) == 0 <==> x == 0;
    OnesUnique(big, Reverse16(x));
  }

  lemma ModTimes(n: nat, x: nat)
    requires n % 0xffff == x % 0xffff
    ensures 256 * n % 0xffff == 256 * x % 0xffff
  {
    var r := n % 0xffff;
    ModPlus(256 * r, 256 * (n / 0xffff));
    ModPlus(256 * r, 256 * (x / 0xffff));
    assert 256 * n == 256 * r + 0xffff * (256 * (n / 0xffff)) && 256 * x == 256 * r + 0xffff * (256 * (x / 0xffff));
  }

  lemma ReverseComplement(x: nat)
    requires x <= 0xffff
    ensures Reverse16(0xffff - x) == 0xffff - Reverse16(x)
  {
    var h, l := x / 256, x % 256;
    assert 0xffff - x == 255 - l + 256 * (255 - h);
    Div256(255 - h, 255 - l);
  }

  /** Computing on little-endian words gives the byte swap of computing on network-order words, so the result
      is stored without hton16. */
  lemma ByteOrderFree(s: seq<Byte>)
    ensures Complement(Sum(s)) == Reverse16(Complement(SumBig(s)))
  {
    BigIsSwapped(s);
    OnesSwapped(Sum(s), SumBig(s));
    var x := Ones(Sum(s));
    ReverseComplement(Reverse16(x));
    Reverse16Involution(x);
  }
}
