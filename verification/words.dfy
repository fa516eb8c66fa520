/** Machine words. */
module Words {
  type Byte = b: int | 0 <= b < 256

  const TWO16 := 0x1_0000
  const TWO32 := 0x1_0000_0000

  /** Addition in uint32_t. */
  function Add32(a: nat, b: nat): nat {
    if a + b < 0x1_0000_0000 then a + b else (a + b) % 0x1_0000_0000
  }

  lemma {:induction false} Wraps(x: nat, k: nat)
    ensures (x + 0x1_0000_0000 * k) % 0x1_0000_0000 == x % 0x1_0000_0000
  {
    if k > 0 { Wraps(x, k - 1); }
  }

  /** Multiplying and adding in uint32_t is multiplying and adding modulo 2^32, however often it wraps. */
  lemma ScaleWraps(v: nat, m: nat, d: nat)
    ensures Add32(v % 0x1_0000_0000 * m % 0x1_0000_0000, d) == (v * m + d) % 0x1_0000_0000
  {
    var r, q := v % 0x1_0000_0000, v / 0x1_0000_0000;
    var t, k := r * m % 0x1_0000_0000, r * m / 0x1_0000_0000;
    Wraps(t + d, k + q * m);
    assert v * m + d == t + d + 0x1_0000_0000 * (k + q * m) by {
      assert v * m == r * m + 0x1_0000_0000 * (q * m);
    }
  }
}
