/** Machine integers of the Rust source: the widths, the `as` casts and the bit counts
    that the circuit parser relies on. Integers are unbounded here; every width is explicit. */
module Ints {

  /** 2^k. */
  function Pow2(k: nat): (r: nat)
    ensures r >= 1
  {
    if k == 0 then 1 else 2 * Pow2(k - 1)
  }

  lemma {:induction false} Pow2Add(a: nat, b: nat)
    ensures Pow2(a + b) == Pow2(a) * Pow2(b)
  {
    if a > 0 {
      Pow2Add(a - 1, b);
      assert Pow2(a + b) == 2 * Pow2(a - 1 + b);
    }
  }

  lemma {:induction false} Pow2Monotone(a: nat, b: nat)
    requires a <= b
    ensures Pow2(a) <= Pow2(b)
  {
    if b > a {
      Pow2Monotone(a, b - 1);
    }
  }

  /** The model's target: `usize` is 32 bits wide (`usize::BITS == 32`). */
  const USIZE_BITS: nat := 32
  const USIZE_LIMIT: nat := 0x1_0000_0000
  const U32_LIMIT: nat := 0x1_0000_0000
  const U64_LIMIT: nat := 0x1_0000_0000_0000_0000
  const I64_MIN: int := -0x8000_0000_0000_0000
  const I64_MAX: int := 0x7FFF_FFFF_FFFF_FFFF

  type U8 = x: nat | x < 256
  type Usize = x: nat | x < USIZE_LIMIT
  type U64 = x: nat | x < U64_LIMIT
  type I64 = x: int | I64_MIN <= x <= I64_MAX

  lemma Pow2Limits()
    ensures Pow2(8) == 256
    ensures Pow2(32) == U32_LIMIT == USIZE_LIMIT == Pow2(USIZE_BITS)
    ensures Pow2(64) == U64_LIMIT
  {
    assert Pow2(8) == 256;
    Pow2Add(8, 8);
    assert Pow2(16) == 0x1_0000;
    Pow2Add(16, 16);
    assert Pow2(32) == 0x1_0000_0000;
    Pow2Add(32, 32);
  }

  /** `x as u8` on an `i64`: two's-complement truncation to the low byte. */
  function AsU8(x: I64): (r: U8)
    ensures 0 <= x < 256 ==> r == x
    ensures (x - r) % 256 == 0
  {
    x % 256
  }

  /** `x as usize` on an `i64`: two's-complement truncation to `USIZE_BITS` bits. */
  function AsUsize(x: I64): (r: Usize)
    ensures 0 <= x < USIZE_LIMIT ==> r == x
    ensures (x - r) % USIZE_LIMIT == 0
  {
    x % USIZE_LIMIT
  }

  /** Number of binary digits of `x` (0 for 0): the smallest `k` with `x < 2^k`. */
  function BitWidth(x: nat): (r: nat)
    ensures x < Pow2(r)
    ensures x > 0 ==> r >= 1 && Pow2(r - 1) <= x
    ensures x == 0 <==> r == 0
  {
    if x == 0 then 0 else 1 + BitWidth(x / 2)
  }

  /** A number below `2^k` has at most `k` bits. */
  lemma {:induction false} BitWidthAtMost(x: nat, k: nat)
    requires x < Pow2(k)
    ensures BitWidth(x) <= k
  {
    if x > 0 && k > 0 {
      BitWidthAtMost(x / 2, k - 1);
    }
  }

  /** `BitWidth` is the only `k` with `2^(k-1) <= x < 2^k`. */
  lemma BitWidthUnique(x: nat, k: nat)
    requires k >= 1 && Pow2(k - 1) <= x < Pow2(k)
    ensures BitWidth(x) == k
  {
    var r := BitWidth(x);
    if r < k {
      Pow2Monotone(r, k - 1);
    } else if r > k {
      Pow2Monotone(k, r - 1);
    }
  }

  /** Leading zeros of `x` read as a `width`-bit unsigned number, counted from bit `width - 1` down. */
  function LeadingZeros(x: nat, width: nat): (r: nat)
    requires x < Pow2(width)
    ensures r <= width
  {
    if width == 0 then 0
    else if x >= Pow2(width - 1) then 0
    else 1 + LeadingZeros(x, width - 1)
  }

  /** `u32::leading_zeros`. */
  function LeadingZeros32(x: nat): (r: nat)
    requires x < U32_LIMIT
    ensures r == 32 - BitWidth(x)
  {
    Pow2Limits();
    LeadingZerosIsWidthComplement(x, 32);
    LeadingZeros(x, 32)
  }

  lemma {:induction false} LeadingZerosIsWidthComplement(x: nat, width: nat)
    requires x < Pow2(width)
    ensures LeadingZeros(x, width) == width - BitWidth(x)
  {
    if width == 0 {
    } else if x >= Pow2(width - 1) {
      BitWidthUnique(x, width);
    } else {
      LeadingZerosIsWidthComplement(x, width - 1);
    }
  }
}
