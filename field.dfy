/** The field of the whole system: `FieldElement` is the BN254 scalar field `ark_bn254::Fr`.
    An element is modelled by its canonical integer representative in `[0, P)`; every field
    operation is the integer operation reduced modulo `P`. The module also holds the
    integer-to-field conversion for `u64` and the little-endian bit decomposition. */
module Field {
  import opened Wrappers
  import opened Ints

  /** The order of the BN254 scalar field. */
  const P: nat := 21888242871839275222246405745257275088548364400416034343698204186575808495617

  /** A field element, as its canonical representative. */
  type Fe = x: int | 0 <= x < P

  lemma PExceedsU64()
    ensures P > U64_LIMIT
  {
  }

  /** The element of the field that the integer `i` denotes (its residue modulo `P`). */
  function Reduce(i: int): Fe {
    i % P
  }

  const Zero: Fe := 0
  const One: Fe := 1

  function Add(a: Fe, b: Fe): Fe {
    (a + b) % P
  }

  function Sub(a: Fe, b: Fe): Fe {
    (a - b) % P
  }

  function Mul(a: Fe, b: Fe): Fe {
    (a * b) % P
  }

  // ---------------------------------------------------------------------------
  // Reduction commutes with the ring operations: a field expression equals the
  // residue of the same expression computed over the integers.
  // ---------------------------------------------------------------------------

  lemma ModShift(x: int, k: int)
    ensures (x + P * k) % P == x % P
  {
  }

  lemma ReduceCanonical(a: Fe)
    ensures Reduce(a) == a
  {
  }

  lemma AddReduce(i: int, j: int)
    ensures Add(Reduce(i), Reduce(j)) == Reduce(i + j)
  {
    ModShift(i % P + j % P, i / P + j / P);
  }

  lemma SubReduce(i: int, j: int)
    ensures Sub(Reduce(i), Reduce(j)) == Reduce(i - j)
  {
    ModShift(i % P - j % P, i / P - j / P);
  }

  lemma MulCommutes(a: Fe, b: Fe)
    ensures Mul(a, b) == Mul(b, a)
  {
    assert a as int * b == b as int * a;
  }

  lemma MulReduce(i: int, j: int)
    ensures Mul(Reduce(i), Reduce(j)) == Reduce(i * j)
  {
    var qi, ri, qj, rj := i / P, i % P, j / P, j % P;
    assert i == P * qi + ri;
    assert j == P * qj + rj;
    assert i * j == ri * rj + P * (qi * P * qj + qi * rj + ri * qj) by {
      calc {
        i * j;
        (P * qi + ri) * (P * qj + rj);
      }
    }
    ModShift(ri * rj, qi * P * qj + qi * rj + ri * qj);
  }

  // ---------------------------------------------------------------------------
  // Conversions (field/src/lib.rs)
  // ---------------------------------------------------------------------------

  /** `FieldElement::from(n)` for `n: u64`. Since `P > 2^64` no `u64` is reduced. */
  function FromU64(n: U64): (r: Fe)
    ensures r == n
  {
    PExceedsU64();
    n % P
  }

  /** `IntoField for u64`: `n.fe()` is `FieldElement::from(n)`. */
  function IntoFe(n: U64): (r: Fe)
    ensures r == n && r == FromU64(n)
  {
    FromU64(n)
  }

  // ---------------------------------------------------------------------------
  // Bit decomposition (field/src/lib.rs)
  // ---------------------------------------------------------------------------

  /** Width of `into_bigint()` for BN254: four 64-bit limbs. */
  const BIGINT_BITS: nat := 256

  /** Bit `i` of the natural number `n`. */
  predicate Bit(n: nat, i: nat) {
    (n / Pow2(i)) % 2 == 1
  }

  /** The `k` least significant bits of `n`, least significant first
      (`BigInteger::to_bits_le` when `k` is the width of the big integer). */
  function BitsLe(n: nat, k: nat): (r: seq<bool>)
    ensures |r| == k
  {
    if k == 0 then [] else [n % 2 == 1] + BitsLe(n / 2, k - 1)
  }

  /** The number that a little-endian bit sequence denotes: the sum of `2^i` over its set bits. */
  function BitsValue(bs: seq<bool>): nat {
    if bs == [] then 0
    else BitsValue(bs[..|bs| - 1]) + (if bs[|bs| - 1] then Pow2(|bs| - 1) else 0)
  }

  /** `bit_stream(fe, bits)`: the assertion `bits <= 256`, then the first `bits` bits of the
      canonical integer of `fe`, least significant first. A failed assertion is `Err`. */
  function BitStream(fe: Fe, bits: nat): (r: Result<seq<bool>, string>)
    ensures r.Ok? <==> bits <= BIGINT_BITS
    ensures r.Ok? ==> |r.value| == bits
    ensures r.Ok? ==> forall i :: 0 <= i < bits ==> r.value[i] == Bit(fe, i)
  {
    if bits > BIGINT_BITS then Err("assertion failed: bits <= 256")
    else
      BitsLeAll(fe, BIGINT_BITS);
      Ok(BitsLe(fe, BIGINT_BITS)[..bits])
  }

  /** `FieldExt::to_bits_le`: the same as `bit_stream`. */
  function ToBitsLe(fe: Fe, bits: nat): (r: Result<seq<bool>, string>)
    ensures r.Ok? <==> bits <= BIGINT_BITS
    ensures r == BitStream(fe, bits)
  {
    BitStream(fe, bits)
  }

  // ---------------------------------------------------------------------------
  // Division facts needed for the bit decomposition
  // ---------------------------------------------------------------------------

  lemma MulAtLeast(m: int, k: int)
    requires m > 0 && k >= 1
    ensures m * k >= m
  {
  }

  lemma DivUnique(n: int, m: int, q: int, r: int)
    requires m > 0 && 0 <= r < m && n == m * q + r
    ensures n / m == q && n % m == r
  {
    var q', r' := n / m, n % m;
    assert m * (q - q') == r' - r;
    if q > q' {
      MulAtLeast(m, q - q');
    } else if q < q' {
      MulAtLeast(m, q' - q);
    }
  }

  lemma Regroup(a: int, b: int, q2: int, r2: int, r: int)
    ensures a * (b * q2 + r2) + r == (a * b) * q2 + (a * r2 + r)
  {
  }

  lemma NextDigitBound(a: int, b: int, r2: int, r: int)
    requires 0 <= r < a && 0 <= r2 < b
    ensures 0 <= a * r2 + r < a * b
  {
    assert a * r2 <= a * (b - 1);
  }

  /** Dividing by `a` and then by `b` is dividing by `a * b`; the remainder modulo `a * b`
      is made of the remainder modulo `a` and the next digit in base `b`. */
  lemma DivModNested(n: nat, a: nat, b: nat)
    requires a > 0 && b > 0
    ensures n / (a * b) == (n / a) / b
    ensures n % (a * b) == n % a + a * ((n / a) % b)
  {
    var q, r := n / a, n % a;
    var q2, r2 := q / b, q % b;
    Regroup(a, b, q2, r2, r);
    NextDigitBound(a, b, r2, r);
    DivUnique(n, a * b, q2, a * r2 + r);
  }

  // ---------------------------------------------------------------------------
  // Properties of the bit decomposition
  // ---------------------------------------------------------------------------

  /** Element `i` of `BitsLe(n, k)` is bit `i` of `n`. */
  lemma {:induction false} BitsLeAt(n: nat, k: nat, i: nat)
    requires i < k
    ensures BitsLe(n, k)[i] == Bit(n, i)
  {
    if i > 0 {
      BitsLeAt(n / 2, k - 1, i - 1);
      DivModNested(n, 2, Pow2(i - 1));
    }
  }

  lemma BitsLeAll(n: nat, k: nat)
    ensures forall i :: 0 <= i < k ==> BitsLe(n, k)[i] == Bit(n, i)
  {
    forall i | 0 <= i < k
      ensures BitsLe(n, k)[i] == Bit(n, i)
    {
      BitsLeAt(n, k, i);
    }
  }

  /** Fewer bits are a prefix of more bits. */
  lemma BitsLePrefix(n: nat, k: nat, m: nat)
    requires k <= m
    ensures BitsLe(n, m)[..k] == BitsLe(n, k)
  {
    BitsLeAll(n, k);
    BitsLeAll(n, m);
  }

  /** The `k` low bits of `n` denote `n mod 2^k`. */
  lemma {:induction false} BitsLeValue(n: nat, k: nat)
    ensures BitsValue(BitsLe(n, k)) == n % Pow2(k)
  {
    if k > 0 {
      var bs, p := BitsLe(n, k), Pow2(k - 1);
      BitsLePrefix(n, k - 1, k);
      BitsLeValue(n, k - 1);
      BitsLeAt(n, k, k - 1);
      assert Pow2(k) == p * 2;
      DivModNested(n, p, 2);
      TopDigit(n % p, p, (n / p) % 2);
      assert bs[..|bs| - 1] == BitsLe(n, k - 1);
    }
  }

  lemma TopDigit(low: nat, p: nat, d: nat)
    requires d < 2
    ensures low + p * d == low + (if d == 1 then p else 0)
  {
  }

  /** `bit_stream(fe, k)` is a prefix of `bit_stream(fe, m)` whenever `k <= m <= 256`. */
  lemma BitStreamPrefix(fe: Fe, k: nat, m: nat)
    requires k <= m <= BIGINT_BITS
    ensures BitStream(fe, k).value == BitStream(fe, m).value[..k]
  {
  }

  /** For a `u64` `x`, the 64 bits of `x.fe()` denote `x` again. */
  lemma BitStreamU64RoundTrip(x: U64)
    ensures BitStream(IntoFe(x), 64).Ok?
    ensures BitsValue(BitStream(IntoFe(x), 64).value) == x
  {
    var fe := IntoFe(x);
    assert BitStream(fe, 64).value == BitsLe(x, BIGINT_BITS)[..64];
    BitsLePrefix(x, 64, BIGINT_BITS);
    BitsLeValue(x, 64);
    Pow2Limits();
    SmallMod(x, Pow2(64));
  }

  lemma SmallMod(n: nat, m: nat)
    requires n < m
    ensures n % m == n
  {
  }
}
