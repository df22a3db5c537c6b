/** Dense univariate polynomials over the field as sequences of coefficients, constant first:
    the power sum they denote, coefficient-wise addition, and the facts the fixed-degree
    polynomial types of both polynomial files share. */
module Coefficients {
  import Field

  type Fe = Field.Fe

  /** `x^k` over the integers. */
  function Pow(x: int, k: nat): int {
    if k == 0 then 1 else Pow(x, k - 1) * x
  }

  /** The integer `cs[0] + cs[1]·x + cs[2]·x² + …`, summed term by term from the first. */
  function PowerSum(cs: seq<Fe>, x: int): int
    decreases |cs|
  {
    if |cs| == 0 then 0 else PowerSum(cs[..|cs| - 1], x) + cs[|cs| - 1] * Pow(x, |cs| - 1)
  }

  /** The value of the polynomial with coefficients `cs` at the point `x`. */
  function Value(cs: seq<Fe>, x: Fe): Fe {
    Field.Reduce(PowerSum(cs, x))
  }

  /** Coefficient-wise sum. */
  function PointwiseAdd(cs: seq<Fe>, ds: seq<Fe>): (es: seq<Fe>)
    requires |cs| == |ds|
    ensures |es| == |cs|
  {
    seq(|cs|, i requires 0 <= i < |cs| => Field.Add(cs[i], ds[i]))
  }

  // ---------------------------------------------------------------------------
  // Residues of sums and products depend only on the residues of the operands
  // ---------------------------------------------------------------------------

  lemma Congruent(s1: int, s2: int, t1: int, t2: int)
    requires Field.Reduce(s1) == Field.Reduce(s2) && Field.Reduce(t1) == Field.Reduce(t2)
    ensures Field.Reduce(s1 + t1) == Field.Reduce(s2 + t2)
    ensures Field.Reduce(s1 * t1) == Field.Reduce(s2 * t2)
  {
    Field.AddReduce(s1, t1);
    Field.AddReduce(s2, t2);
    Field.MulReduce(s1, t1);
    Field.MulReduce(s2, t2);
  }

  /** One step of Horner's rule in the field is the same step over the integers, reduced:
      multiplying the residue of `s` by `x` and adding `c` gives the residue of `c + x·s`. */
  lemma HornerStep(s: int, x: int, c: int)
    ensures Field.Add(Field.Mul(Field.Reduce(s), Field.Reduce(x)), Field.Reduce(c)) == Field.Reduce(c + x * s)
  {
    Field.MulReduce(s, x);
    Field.AddReduce(s * x, c);
  }

  /** Horner's rule on constant-first coefficients: start from the leading coefficient, then
      repeatedly multiply by `x` and add the next lower one. */
  function Horner(cs: seq<Fe>, x: Fe): Fe
    requires |cs| >= 1
    decreases |cs|
  {
    if |cs| == 1 then cs[0] else Field.Add(Field.Mul(Horner(cs[1..], x), x), cs[0])
  }

  /** One step of `Horner`: the rule on `c` followed by `cs`. */
  lemma HornerCons(c: Fe, cs: seq<Fe>, x: Fe)
    requires |cs| >= 1
    ensures Horner([c] + cs, x) == Field.Add(Field.Mul(Horner(cs, x), x), c)
  {
    assert ([c] + cs)[1..] == cs;
  }

  /** Horner's rule computes the value of the polynomial. */
  lemma {:induction false} HornerIsValue(cs: seq<Fe>, x: Fe)
    requires |cs| >= 1
    ensures Horner(cs, x) == Value(cs, x)
    decreases |cs|
  {
    PowerSumHead(cs, x);
    if |cs| == 1 {
      assert cs[1..] == [];
      Field.ReduceCanonical(cs[0]);
    } else {
      HornerIsValue(cs[1..], x);
      Field.ReduceCanonical(x);
      Field.ReduceCanonical(cs[0]);
      HornerStep(PowerSum(cs[1..], x), x, cs[0]);
    }
  }

  // ---------------------------------------------------------------------------
  // Facts about power sums
  // ---------------------------------------------------------------------------

  /** Evaluation is linear: the value of a coefficient-wise sum is the sum of the values. */
  lemma {:induction false} ValueAdd(cs: seq<Fe>, ds: seq<Fe>, x: Fe)
    requires |cs| == |ds|
    ensures Value(PointwiseAdd(cs, ds), x) == Field.Add(Value(cs, x), Value(ds, x))
    decreases |cs|
  {
    if |cs| == 0 {
      assert PointwiseAdd(cs, ds) == [];
    } else {
      var n := |cs|;
      PointwiseAddPrefix(cs, ds);
      ValueAdd(cs[..n - 1], ds[..n - 1], x);
      var a, b := PowerSum(cs[..n - 1], x), PowerSum(ds[..n - 1], x);
      var es := PointwiseAdd(cs, ds);
      Field.AddReduce(a, b);
      AddStep(PowerSum(es[..n - 1], x), a, b, es[n - 1], cs[n - 1], ds[n - 1], Pow(x, n - 1));
      Field.AddReduce(PowerSum(cs, x), PowerSum(ds, x));
    }
  }

  lemma PointwiseAddPrefix(cs: seq<Fe>, ds: seq<Fe>)
    requires |cs| == |ds| >= 1
    ensures PointwiseAdd(cs, ds)[..|cs| - 1] == PointwiseAdd(cs[..|cs| - 1], ds[..|cs| - 1])
    ensures PointwiseAdd(cs, ds)[|cs| - 1] == Field.Add(cs[|cs| - 1], ds[|cs| - 1])
  {
  }

  /** The inductive step of `ValueAdd`, over the integers. */
  lemma AddStep(s: int, a: int, b: int, e: Fe, c: Fe, d: Fe, X: int)
    requires Field.Reduce(s) == Field.Reduce(a + b) && e == Field.Add(c, d)
    ensures Field.Reduce(s + e * X) == Field.Reduce((a + c * X) + (b + d * X))
  {
    Field.ReduceCanonical(e);
    Congruent(e, c + d, X, X);
    Congruent(s, a + b, e * X, (c + d) * X);
    assert (a + b) + (c + d) * X == (a + c * X) + (b + d * X);
  }

  /** Splitting off the constant coefficient: `c0 + x·(c1 + c2·x + …)`. */
  lemma {:induction false} PowerSumHead(cs: seq<Fe>, x: int)
    requires |cs| >= 1
    ensures PowerSum(cs, x) == cs[0] + x * PowerSum(cs[1..], x)
    decreases |cs|
  {
    var n := |cs|;
    if n == 1 {
      assert cs[..0] == [] && cs[1..] == [];
      assert Pow(x, 0) == 1;
    } else {
      var init := cs[..n - 1];
      PowerSumHead(init, x);
      assert init[1..] == cs[1..][..n - 2];
      assert cs[1..][n - 2] == cs[n - 1];
      assert init[0] == cs[0];
      HeadStep(cs[0], PowerSum(init[1..], x), cs[n - 1], Pow(x, n - 2), x);
    }
  }

  /** The inductive step of `PowerSumHead`, over the integers. */
  lemma HeadStep(c0: int, t: int, c: int, p: int, x: int)
    ensures (c0 + x * t) + c * (p * x) == c0 + x * (t + c * p)
  {
  }

  /** All-zero coefficients denote the zero polynomial. */
  lemma {:induction false} ValueZeros(cs: seq<Fe>, x: Fe)
    requires forall i :: 0 <= i < |cs| ==> cs[i] == 0
    ensures PowerSum(cs, x) == 0 && Value(cs, x) == 0
    decreases |cs|
  {
    if |cs| > 0 {
      ValueZeros(cs[..|cs| - 1], x);
    }
  }

  /** At 0 a polynomial is its constant coefficient. */
  lemma {:induction false} ValueAtZero(cs: seq<Fe>)
    requires |cs| >= 1
    ensures PowerSum(cs, 0) == cs[0] && Value(cs, 0) == cs[0]
    decreases |cs|
  {
    var n := |cs|;
    if n > 1 {
      ValueAtZero(cs[..n - 1]);
      PowZero(n - 1);
      assert cs[n - 1] * Pow(0, n - 1) == 0;
      assert cs[..n - 1][0] == cs[0];
    } else {
      assert cs[..0] == [];
      assert Pow(0, 0) == 1;
    }
  }

  lemma PowZero(k: nat)
    requires k >= 1
    ensures Pow(0, k) == 0
  {
  }

  /** The first powers, written out. */
  lemma Powers(x: int)
    ensures Pow(x, 1) == x && Pow(x, 2) == x * x && Pow(x, 3) == x * x * x
    ensures Pow(x, 4) == x * x * x * x && Pow(x, 5) == x * x * x * x * x
  {
    assert Pow(x, 1) == x;
  }

  /** A term `c·x^k`, written out. */
  lemma PowTerms(c: int, x: int)
    ensures c * Pow(x, 1) == c * x
    ensures c * Pow(x, 2) == c * x * x
    ensures c * Pow(x, 3) == c * x * x * x
    ensures c * Pow(x, 4) == c * x * x * x * x
    ensures c * Pow(x, 5) == c * x * x * x * x * x
  {
    Powers(x);
    assert c * (x * x) == c * x * x;
    assert c * (x * x * x) == c * x * x * x;
    assert c * (x * x * x * x) == c * x * x * x * x;
    assert c * (x * x * x * x * x) == c * x * x * x * x * x;
  }

  /** The nested form of degree 2 that the product of two leading-first linear polynomials
      is evaluated in, as a power sum. */
  lemma HornerInt3Nested(c0: int, c1: int, c2: int, x: int)
    ensures (c2 * x + c1) * x + c0 == c0 + c1 * x + c2 * x * x
  {
  }

  /** The power sums of the five lengths the polynomial types use, written out. */
  lemma PowerSum2(c0: Fe, c1: Fe, x: int)
    ensures PowerSum([c0, c1], x) == c0 + c1 * x
  {
    var s: seq<Fe> := [c0, c1];
    assert s[..1] == [c0];
    assert [c0][..0] == [];
    assert Pow(x, 0) == 1;
    assert Pow(x, 1) == x;
    assert PowerSum([c0], x) == c0;
  }

  lemma PowerSum3(c0: Fe, c1: Fe, c2: Fe, x: int)
    ensures PowerSum([c0, c1, c2], x) == c0 + c1 * x + c2 * x * x
  {
    assert [c0, c1, c2][..2] == [c0, c1];
    PowerSum2(c0, c1, x);
    PowTerms(c2, x);
  }

  lemma PowerSum4(c0: Fe, c1: Fe, c2: Fe, c3: Fe, x: int)
    ensures PowerSum([c0, c1, c2, c3], x) == c0 + c1 * x + c2 * x * x + c3 * x * x * x
  {
    assert [c0, c1, c2, c3][..3] == [c0, c1, c2];
    PowerSum3(c0, c1, c2, x);
    PowTerms(c3, x);
  }

  lemma PowerSum5(c0: Fe, c1: Fe, c2: Fe, c3: Fe, c4: Fe, x: int)
    ensures PowerSum([c0, c1, c2, c3, c4], x) ==
      c0 + c1 * x + c2 * x * x + c3 * x * x * x + c4 * x * x * x * x
  {
    assert [c0, c1, c2, c3, c4][..4] == [c0, c1, c2, c3];
    PowerSum4(c0, c1, c2, c3, x);
    PowTerms(c4, x);
  }

  lemma PowerSum6(c0: Fe, c1: Fe, c2: Fe, c3: Fe, c4: Fe, c5: Fe, x: int)
    ensures PowerSum([c0, c1, c2, c3, c4, c5], x) ==
      c0 + c1 * x + c2 * x * x + c3 * x * x * x + c4 * x * x * x * x + c5 * x * x * x * x * x
  {
    assert [c0, c1, c2, c3, c4, c5][..5] == [c0, c1, c2, c3, c4];
    PowerSum5(c0, c1, c2, c3, c4, x);
    PowTerms(c5, x);
  }
}
