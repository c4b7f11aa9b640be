/** Fixed-width unsigned integers of the driver and the bit operations it applies to them.
    C's `>>` and `&` on unsigned operands are written here as division by a power of two
    and remainder. */
module Bits {

  type byte = x: int | 0 <= x < 0x100
  type u16 = x: int | 0 <= x < 0x1_0000
  type u32 = x: int | 0 <= x < 0x1_0000_0000

  function Pow2(n: nat): (r: nat)
    ensures r >= 1
  {
    if n == 0 then 1 else 2 * Pow2(n - 1)
  }

  /** Bit `n` of `v` is set: `(v >> n) & 1` in C. */
  predicate BitSet(v: nat, n: nat) {
    (v / Pow2(n)) % 2 == 1
  }

  /** The high byte of a 16-bit value, `v >> 8`. */
  function Hi(v: u16): byte {
    v / 256
  }

  /** The low byte of a 16-bit value, `v & 0xFF`. */
  function Lo(v: u16): byte {
    v % 256
  }

  /** The 16-bit value whose big-endian bytes are `hi`, `lo`. */
  function Join(hi: byte, lo: byte): (v: u16)
    ensures Hi(v) == hi && Lo(v) == lo
  {
    hi * 256 + lo
  }

  lemma HiLoRoundTrip(v: u16)
    ensures Join(Hi(v), Lo(v)) == v
  {
  }

  /** Division is determined by any quotient and remainder that fit. */
  lemma DivUnique(x: int, d: int, q: int, r: int)
    requires d > 0 && 0 <= r < d && x == d * q + r
    ensures x / d == q && x % d == r
  {
    var q', r' := x / d, x % d;
    assert x == d * q' + r';
    assert d * (q - q') == r' - r;
    if q > q' {
      MulAtLeast(d, q - q');
    } else if q < q' {
      MulAtLeast(d, q' - q);
    }
  }

  /** Multiplication is monotonic. */
  lemma MulLe(a: nat, b: nat, c: nat)
    requires a <= b
    ensures a * c <= b * c
  {
  }

  lemma MulAtLeast(d: int, t: int)
    requires d > 0 && t >= 1
    ensures d * t >= d
  {
  }

  /** Dividing `2a + b` (b a single bit) by `2m` drops the bit and halves the divisor. */
  lemma DivDouble(a: nat, b: nat, m: nat)
    requires b < 2 && m > 0
    ensures (2 * a + b) / (2 * m) == a / m
  {
    var q, r := a / m, a % m;
    assert 2 * a + b == (2 * m) * q + (2 * r + b);
    DivUnique(2 * a + b, 2 * m, q, 2 * r + b);
  }

  lemma {:induction false} Pow2Add(a: nat, b: nat)
    ensures Pow2(a + b) == Pow2(a) * Pow2(b)
  {
    if a > 0 {
      Pow2Add(a - 1, b);
    }
  }

  lemma Pow2Of32()
    ensures Pow2(32) == 0x1_0000_0000
  {
    assert Pow2(8) == 0x100;
    Pow2Add(8, 8);
    Pow2Add(16, 16);
  }
}
