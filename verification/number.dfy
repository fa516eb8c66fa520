/** Decimal numbers: printnum (kernel/lib/print.c) and stoi (kernel/user/user_app.c). */
module Numbers {
  import opened Words

  const ZERO: Byte := 48 // '0'

  /** The decimal digits of n without leading zeros. */
  function Decimal(n: nat): (s: seq<Byte>)
    ensures s != []
  {
    if n < 10 then [ZERO + n] else Decimal(n / 10) + [ZERO + n % 10]
  }

  predicate IsDigit(c: Byte) { ZERO <= c <= ZERO + 9 }

  predicate Digits(s: seq<Byte>) { forall i :: 0 <= i < |s| ==> IsDigit(s[i]) }

  /** The number a string of digits stands for. */
  function Numeral(s: seq<Byte>): nat
    requires Digits(s)
  {
    if s == [] then 0 else 10 * Numeral(s[..|s| - 1]) + (s[|s| - 1] - ZERO)
  }

  /** What stoi makes of any string. */
  function Parsed(s: seq<Byte>): nat {
    if Digits(s) then Numeral(s) % 0x1_0000_0000 else 0
  }

  /** A string with any other byte in it is 0, however it goes on. */
  lemma ParsedOther(s: seq<Byte>, i: nat)
    requires i < |s| && (s[i] < 48 || s[i] > 57)
    ensures Parsed(s) == 0
  {
    assert !IsDigit(s[i]);
  }

  /** Digits and value of a printed number. */
  lemma {:induction false} DecimalIs(n: nat)
    ensures Digits(Decimal(n)) && Numeral(Decimal(n)) == n
    ensures n > 0 ==> Decimal(n)[0] != ZERO
  {
    if n >= 10 {
      DecimalIs(n / 10);
      NumeralSnoc(Decimal(n / 10), ZERO + n % 10);
    } else {
      assert [ZERO + n][..0] == [];
    }
  }

  lemma NumeralSnoc(s: seq<Byte>, c: Byte)
    requires Digits(s) && IsDigit(c)
    ensures Digits(s + [c]) && Numeral(s + [c]) == 10 * Numeral(s) + (c - ZERO)
  {
    assert (s + [c])[..|s|] == s;
  }

  /** stoi undoes printnum on every uint32_t. */
  lemma StoiInvertsPrintnum(n: nat)
    requires n < TWO32
    ensures Parsed(Decimal(n)) == n
  {
    DecimalIs(n);
  }

  /** And printing what was read gives back every numeral without leading zeros. */
  lemma {:induction false} PrintnumInvertsStoi(s: seq<Byte>)
    requires Digits(s) && s != [] && (s[0] == ZERO ==> |s| == 1)
    ensures Decimal(Numeral(s)) == s
  {
    var t, c := s[..|s| - 1], s[|s| - 1];
    if t == [] {
      assert Numeral(s) == c - ZERO;
    } else {
      PrintnumInvertsStoi(t);
      NumeralPositive(t);
      assert Numeral(s) / 10 == Numeral(t) && Numeral(s) % 10 == c - ZERO;
      assert s == t + [c];
    }
  }

  lemma {:induction false} NumeralPositive(s: seq<Byte>)
    requires Digits(s) && s != [] && s[0] != ZERO
    ensures Numeral(s) > 0
  {
    if |s| > 1 { NumeralPositive(s[..|s| - 1]); }
  }

  // ----- printnum -----

  function Pow10(k: nat): (p: nat)
    ensures p > 0
  {
    if k == 0 then 1 else 10 * Pow10(k - 1)
  }

  function Reversed(s: seq<Byte>): (r: seq<Byte>)
    ensures |r| == |s| && forall i :: 0 <= i < |s| ==> r[i] == s[|s| - 1 - i]
  {
    seq(|s|, i requires 0 <= i < |s| => s[|s| - 1 - i])
  }

  /** The digits still to come, then those already extracted in reverse. */
  ghost function Rest(num: nat): seq<Byte> {
    if num == 0 then [] else Decimal(num)
  }

  /** printnum, as the string it passes to printstr or putchar. */
  method PrintNum(n: nat) returns (s: seq<Byte>)
    requires n < TWO32
    ensures s == Decimal(n)
  {
    if n == 0 { return [ZERO]; }
    var buf := new Byte[50](_ => ZERO);
    var num: nat, len: nat := n, 0;
    Ten();
    while num > 0
      invariant len <= 10 && num < Pow10(10 - len) && (num == n || len > 0)
      invariant Decimal(n) == Rest(num) + Reversed(buf[..len])
      decreases num
    {
      ghost var was := buf[..len];
      assert len < 10;
      buf[len] := ZERO + num % 10;
      assert buf[..len + 1] == was + [ZERO + num % 10];
      Extract(num, was);
      len := len + 1;
      num := num / 10;
    }
    assert Decimal(n) == Reversed(buf[..len]);
    s := CopyBack(buf, len);
  }

  lemma Ten()
    ensures Pow10(10) == 10_000_000_000
  {
    assert Pow10(5) == 100_000;
    assert Pow10(7) == 10_000_000;
    assert Pow10(9) == 1_000_000_000;
  }

  lemma Extract(num: nat, was: seq<Byte>)
    requires num > 0
    ensures Rest(num) + Reversed(was) == Rest(num / 10) + Reversed(was + [ZERO + num % 10])
  {
    assert Reversed(was + [ZERO + num % 10]) == [ZERO + num % 10] + Reversed(was);
  }

  /** The second loop of printnum. */
  method CopyBack(buf: array<Byte>, n: nat) returns (s: seq<Byte>)
    requires 0 < n < 50 == buf.Length
    ensures s == Reversed(buf[..n])
  {
    var len := n - 1;
    var printbuf := new Byte[50](_ => ZERO);
    var i := 0;
    while i <= len
      invariant i <= n
      invariant forall k :: 0 <= k < i ==> printbuf[k] == buf[n - 1 - k]
    {
      printbuf[i] := buf[len - i];
      i := i + 1;
    }
    printbuf[i] := 0;
    s := printbuf[..i];
  }

  // ----- stoi -----

  method Stoi(buf: seq<Byte>) returns (r: nat)
    ensures r == Parsed(buf)
  {
    r := 0;
    var i := 0;
    while i < |buf|
      invariant i <= |buf| && Digits(buf[..i])
      invariant r == Numeral(buf[..i]) % 0x1_0000_0000
    {
      if buf[i] < ZERO || buf[i] > ZERO + 9 {
        assert !Digits(buf);
        return 0;
      }
      NumeralSnoc(buf[..i], buf[i]);
      assert buf[..i] + [buf[i]] == buf[..i + 1];
      ScaleWraps(Numeral(buf[..i]), 10, buf[i] - ZERO);
      r := r * 10 % 0x1_0000_0000;
      r := Add32(r, buf[i] - ZERO);
      i := i + 1;
    }
    assert buf[..i] == buf;
  }
}
