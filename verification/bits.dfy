/** Machine-integer ranges and the bitwise AND the source applies to
    `usize` indices.

    Addresses are kept as mathematical integers in the `u16` range rather
    than as `bv16`, so that they index sequences directly; the masks the
    source applies to them (`addr & 0x1FFF`, `addr & 0x9F`,
    `a & (len - 1)`) are computed by `And` below, and the lemmas of this
    module relate those masks to bounds and to `%`. */
module Bits {

  type u16 = x: int | 0 <= x < 0x1_0000
  type u32 = x: int | 0 <= x < 0x1_0000_0000

  /** One past the largest `u32`; an addition reaching it overflows. */
  const U32_LIMIT: int := 0x1_0000_0000

  function Pow2(k: nat): (p: nat)
    ensures p >= 1
  {
    if k == 0 then 1 else 2 * Pow2(k - 1)
  }

  /** Bitwise AND of two non-negative integers, built from the least
      significant bit upwards. The result never exceeds either operand,
      which is what keeps a masked index inside its table. */
  function And(a: nat, b: nat): (r: nat)
    ensures r <= a && r <= b
    decreases a
  {
    if a == 0 || b == 0 then 0
    else 2 * And(a / 2, b / 2) + (if a % 2 == 1 && b % 2 == 1 then 1 else 0)
  }

  lemma ModUnique(a: int, m: int, t: int, x: int)
    requires m > 0 && 0 <= x < m && a == m * t + x
    ensures a % m == x
  {
    var q, r := a / m, a % m;
    assert a == m * q + r;
    assert m * (t - q) == r - x;
    if t - q >= 1 {
    } else if t - q <= -1 {
    }
  }

  /** Consecutive numbers have consecutive residues, wrapping at `m`; in
      particular, for `m > 1` they never share one. */
  lemma ModSuccessor(a: nat, m: nat)
    requires m > 1
    ensures (a + 1) % m == if a % m == m - 1 then 0 else a % m + 1
    ensures (a + 1) % m != a % m
  {
    var q, r := a / m, a % m;
    assert a == m * q + r;
    if r == m - 1 {
      ModUnique(a + 1, m, q + 1, 0);
    } else {
      ModUnique(a + 1, m, q, r + 1);
    }
  }

  lemma ModHalf(a: nat, p: nat)
    requires p >= 1
    ensures a % (2 * p) == 2 * ((a / 2) % p) + a % 2
  {
    var q, s := a / 2, (a / 2) % p;
    assert q == p * (q / p) + s;
    assert a == (2 * p) * (q / p) + (2 * s + a % 2);
    ModUnique(a, 2 * p, q / p, 2 * s + a % 2);
  }

  /** Masking with `2^k - 1` keeps the low `k` bits: it is reduction modulo
      `2^k`. */
  lemma {:induction false} AndLowMask(a: nat, k: nat)
    ensures And(a, Pow2(k) - 1) == a % Pow2(k)
    decreases k
  {
    if k == 0 {
      assert Pow2(k) == 1;
    } else if a == 0 {
      assert And(a, Pow2(k) - 1) == 0;
    } else {
      var p := Pow2(k - 1);
      assert Pow2(k) == 2 * p;
      var m := 2 * p - 1;
      HalfOdd(p);
      AndLowMask(a / 2, k - 1);
      AndOddStep(a, m);
      ModHalf(a, p);
    }
  }

  /** One unfolding of `And` against an odd mask: the lowest bit of `a` is
      kept. */
  lemma AndOddStep(a: nat, m: nat)
    requires a > 0 && m % 2 == 1
    ensures And(a, m) == 2 * And(a / 2, m / 2) + a % 2
  {
  }

  /** One unfolding of `And` against any non-zero mask: the higher bits are
      the AND of the halves, and bit 0 can be set only when it is set in the
      mask. */
  lemma AndStep(a: nat, m: nat)
    requires m > 0
    ensures 2 * And(a / 2, m / 2) <= And(a, m) <= 2 * And(a / 2, m / 2) + m % 2
  {
  }

  lemma HalfOdd(p: nat)
    requires p >= 1
    ensures (2 * p - 1) % 2 == 1 && (2 * p - 1) / 2 == p - 1
  {
    ModUnique(2 * p - 1, 2, p - 1, 1);
  }

  lemma Pow2Values()
    ensures Pow2(7) == 0x80 && Pow2(13) == 0x2000
  {
    assert Pow2(7) == 0x80;
    assert Pow2(13) == Pow2(7) * 64;
  }

  /** `a & (2^k - 1)`: the low `k` bits of `a`, that is `a` modulo `2^k`. */
  function LowBits(a: nat, k: nat): (r: nat)
    ensures r == a % Pow2(k) && r < Pow2(k)
  {
    AndLowMask(a, k);
    And(a, Pow2(k) - 1)
  }

  /** Little-endian composition of a 16-bit word from two bytes, and its
      inverse. */
  function Word(lo: bv8, hi: bv8): bv16 {
    (lo as bv16) | ((hi as bv16) << 8)
  }

  function LowByte(w: bv16): bv8 {
    (w & 0xFF) as bv8
  }

  function HighByte(w: bv16): bv8 {
    (w >> 8) as bv8
  }

  lemma WordBytes(w: bv16, lo: bv8, hi: bv8)
    ensures Word(LowByte(w), HighByte(w)) == w
    ensures LowByte(Word(lo, hi)) == lo && HighByte(Word(lo, hi)) == hi
  {
  }
}
