/** The lightweight polynomial structs (polynomial/src/quad.rs), whose fields are the
    coefficients LEADING first: `LinearPoly` is `a·x + b`, `QuadraticPoly` `a·x² + b·x + c` and
    `QuintuplePoly` `a·x⁵ + b·x⁴ + … + f`. Each has a constructor, Horner evaluation,
    field-by-field `+` and `+=` and the all-zero derived `Default`; two linear polynomials
    multiply into a quadratic one. */
module Quad {
  import Field
  import opened Coefficients

  /** a·x + b. */
  datatype LinearPoly = LinearPoly(a: Fe, b: Fe) {
    static function New(a: Fe, b: Fe): LinearPoly {
      LinearPoly(a, b)
    }

    function Eval(x: Fe): Fe {
      Field.Add(Field.Mul(a, x), b)
    }

    /** The coefficients, constant first. */
    function Coeffs(): seq<Fe> {
      [b, a]
    }

    function Add(rhs: LinearPoly): LinearPoly {
      New(Field.Add(a, rhs.a), Field.Add(b, rhs.b))
    }

    static function Default(): LinearPoly {
      LinearPoly(0, 0)
    }

    /** `self += rhs`, one field at a time. */
    method AddAssign(rhs: LinearPoly) returns (r: LinearPoly)
      ensures r == Add(rhs)
      ensures r.Coeffs() == PointwiseAdd(Coeffs(), rhs.Coeffs())
      ensures forall x :: r.Eval(x) == Field.Add(Eval(x), rhs.Eval(x))
    {
      r := this;
      r := r.(a := Field.Add(r.a, rhs.a));
      r := r.(b := Field.Add(r.b, rhs.b));
      forall x
        ensures r.Eval(x) == Field.Add(Eval(x), rhs.Eval(x))
      {
        AddIsLinear(rhs, x);
      }
    }

    /** `(a₁x + b₁)(a₂x + b₂) = a₁a₂·x² + (a₁b₂ + a₂b₁)·x + b₁b₂`. */
    function Mul(rhs: LinearPoly): QuadraticPoly {
      QuadraticPoly.New(
        Field.Mul(a, rhs.a),
        Field.Add(Field.Mul(a, rhs.b), Field.Mul(rhs.a, b)),
        Field.Mul(b, rhs.b))
    }

    /** The evaluation is Horner's rule on the coefficients. */
    lemma EvalIsHorner(x: Fe)
      ensures Eval(x) == Horner(Coeffs(), x)
    {
      HornerCons(b, [a], x);
    }

    /** The evaluation is the power sum of the coefficients, reduced mod P (the doc comment's
        polynomial, written out by `PowerSum2`). */
    lemma EvalIsPowerSum(x: Fe)
      ensures Eval(x) == Value(Coeffs(), x)
    {
      EvalIsHorner(x);
      HornerIsValue(Coeffs(), x);
    }

    /** `new` stores its arguments as the leading and the constant coefficient. */
    lemma NewEval(a0: Fe, b0: Fe, x: Fe)
      ensures New(a0, b0).Coeffs() == [b0, a0]
      ensures New(a0, b0).Eval(x) == Value([b0, a0], x)
    {
      New(a0, b0).EvalIsPowerSum(x);
    }

    lemma AddIsCoefficientwise(rhs: LinearPoly)
      ensures Add(rhs).Coeffs() == PointwiseAdd(Coeffs(), rhs.Coeffs())
    {
    }

    /** Evaluation is linear: `(p + q)(x) == p(x) + q(x)`. */
    lemma AddIsLinear(rhs: LinearPoly, x: Fe)
      ensures Add(rhs).Eval(x) == Field.Add(Eval(x), rhs.Eval(x))
    {
      EvalIsPowerSum(x);
      rhs.EvalIsPowerSum(x);
      Add(rhs).EvalIsPowerSum(x);
      AddIsCoefficientwise(rhs);
      ValueAdd(Coeffs(), rhs.Coeffs(), x);
    }

    /** The product's value is the product of the values: `(p·q)(x) == p(x)·q(x)`. */
    lemma MulEval(rhs: LinearPoly, x: Fe)
      ensures Mul(rhs).Eval(x) == Field.Mul(Eval(x), rhs.Eval(x))
    {
      var m := Mul(rhs);
      m.EvalIsPowerSum(x);
      EvalIsPowerSum(x);
      rhs.EvalIsPowerSum(x);
      PowerSum3(m.c, m.b, m.a, x);
      HornerInt3Nested(m.c, m.b, m.a, x);
      PowerSum2(b, a, x);
      PowerSum2(rhs.b, rhs.a, x);
      Field.AddReduce(a as int * rhs.b, rhs.a as int * b);
      ProductCongruent(a, b, rhs.a, rhs.b, x);
      Field.MulReduce(a as int * x + b, rhs.a as int * x + rhs.b);
    }

    /** The product does not depend on the order of the factors. */
    lemma MulCommutes(rhs: LinearPoly)
      ensures Mul(rhs) == rhs.Mul(this)
    {
      assert Field.Mul(a, rhs.a) == Field.Mul(rhs.a, a) by {
        assert a as int * rhs.a == rhs.a as int * a;
      }
      assert Field.Mul(b, rhs.b) == Field.Mul(rhs.b, b) by {
        assert b as int * rhs.b == rhs.b as int * b;
      }
      assert Field.Add(Field.Mul(a, rhs.b), Field.Mul(rhs.a, b)) ==
        Field.Add(Field.Mul(rhs.a, b), Field.Mul(a, rhs.b));
    }

    /** `Default` is the zero polynomial and the identity of `+`. */
    lemma DefaultIsZero(x: Fe)
      ensures Default().Eval(x) == 0
    {
      Default().EvalIsPowerSum(x);
      ValueZeros(Default().Coeffs(), x);
    }

    lemma DefaultIsIdentity()
      ensures Add(Default()) == this && Default().Add(this) == this
    {
    }

    /** At 0 the polynomial is its constant coefficient `b`. */
    lemma EvalAtZero()
      ensures Eval(0) == b
    {
      EvalIsPowerSum(0);
      ValueAtZero(Coeffs());
    }
  }

  /** The product's Horner form, over the integers and reduced: with `A`, `B`, `C` the residues
      of the coefficients `Mul` computes, `(A·x + B)·x + C` is congruent to `(a₁x + b₁)(a₂x + b₂)`. */
  lemma ProductCongruent(a1: int, b1: int, a2: int, b2: int, x: int)
    ensures var A, B, C := Field.Reduce(a1 * a2), Field.Reduce(a1 * b2 + a2 * b1), Field.Reduce(b1 * b2);
      Field.Reduce((A as int * x + B) * x + C) == Field.Reduce((a1 * x + b1) * (a2 * x + b2))
  {
    var A, B, C := Field.Reduce(a1 * a2), Field.Reduce(a1 * b2 + a2 * b1), Field.Reduce(b1 * b2);
    var aa, cross, bb := a1 * a2, a1 * b2 + a2 * b1, b1 * b2;
    Field.ReduceCanonical(A);
    Field.ReduceCanonical(B);
    Field.ReduceCanonical(C);
    Congruent(A, aa, x, x);
    Congruent(A as int * x, aa * x, B, cross);
    Congruent(A as int * x + B, aa * x + cross, x, x);
    Congruent((A as int * x + B) * x, (aa * x + cross) * x, C, bb);
    ProductInt(a1, b1, a2, b2, x);
  }

  lemma ProductInt(a1: int, b1: int, a2: int, b2: int, x: int)
    ensures (a1 * a2 * x + (a1 * b2 + a2 * b1)) * x + b1 * b2 == (a1 * x + b1) * (a2 * x + b2)
  {
  }

  /** a·x² + b·x + c. */
  datatype QuadraticPoly = QuadraticPoly(a: Fe, b: Fe, c: Fe) {
    static function New(a: Fe, b: Fe, c: Fe): QuadraticPoly {
      QuadraticPoly(a, b, c)
    }

    function Eval(x: Fe): Fe {
      Field.Add(Field.Mul(Field.Add(Field.Mul(a, x), b), x), c)
    }

    /** The coefficients, constant first. */
    function Coeffs(): seq<Fe> {
      [c, b, a]
    }

    function Add(rhs: QuadraticPoly): QuadraticPoly {
      New(Field.Add(a, rhs.a), Field.Add(b, rhs.b), Field.Add(c, rhs.c))
    }

    static function Default(): QuadraticPoly {
      QuadraticPoly(0, 0, 0)
    }

    /** `self += rhs`, one field at a time. */
    method AddAssign(rhs: QuadraticPoly) returns (r: QuadraticPoly)
      ensures r == Add(rhs)
      ensures r.Coeffs() == PointwiseAdd(Coeffs(), rhs.Coeffs())
      ensures forall x :: r.Eval(x) == Field.Add(Eval(x), rhs.Eval(x))
    {
      r := this;
      r := r.(a := Field.Add(r.a, rhs.a));
      r := r.(b := Field.Add(r.b, rhs.b));
      r := r.(c := Field.Add(r.c, rhs.c));
      forall x
        ensures r.Eval(x) == Field.Add(Eval(x), rhs.Eval(x))
      {
        AddIsLinear(rhs, x);
      }
    }

    /** The evaluation is Horner's rule on the coefficients. */
    lemma EvalIsHorner(x: Fe)
      ensures Eval(x) == Horner(Coeffs(), x)
    {
      HornerCons(b, [a], x);
      HornerCons(c, [b, a], x);
    }

    /** The evaluation is the power sum of the coefficients, reduced mod P (the doc comment's
        polynomial, written out by `PowerSum3`). */
    lemma EvalIsPowerSum(x: Fe)
      ensures Eval(x) == Value(Coeffs(), x)
    {
      EvalIsHorner(x);
      HornerIsValue(Coeffs(), x);
    }

    /** `new` stores its arguments leading coefficient first. */
    lemma NewEval(a0: Fe, b0: Fe, c0: Fe, x: Fe)
      ensures New(a0, b0, c0).Coeffs() == [c0, b0, a0]
      ensures New(a0, b0, c0).Eval(x) == Value([c0, b0, a0], x)
    {
      New(a0, b0, c0).EvalIsPowerSum(x);
    }

    lemma AddIsCoefficientwise(rhs: QuadraticPoly)
      ensures Add(rhs).Coeffs() == PointwiseAdd(Coeffs(), rhs.Coeffs())
    {
    }

    /** Evaluation is linear: `(p + q)(x) == p(x) + q(x)`. */
    lemma AddIsLinear(rhs: QuadraticPoly, x: Fe)
      ensures Add(rhs).Eval(x) == Field.Add(Eval(x), rhs.Eval(x))
    {
      EvalIsPowerSum(x);
      rhs.EvalIsPowerSum(x);
      Add(rhs).EvalIsPowerSum(x);
      AddIsCoefficientwise(rhs);
      ValueAdd(Coeffs(), rhs.Coeffs(), x);
    }

    /** `Default` is the zero polynomial and the identity of `+`. */
    lemma DefaultIsZero(x: Fe)
      ensures Default().Eval(x) == 0
    {
      Default().EvalIsPowerSum(x);
      ValueZeros(Default().Coeffs(), x);
    }

    lemma DefaultIsIdentity()
      ensures Add(Default()) == this && Default().Add(this) == this
    {
    }

    /** At 0 the polynomial is its constant coefficient `c`. */
    lemma EvalAtZero()
      ensures Eval(0) == c
    {
      EvalIsPowerSum(0);
      ValueAtZero(Coeffs());
    }
  }

  /** a·x⁵ + b·x⁴ + c·x³ + d·x² + e·x + f. */
  datatype QuintuplePoly = QuintuplePoly(a: Fe, b: Fe, c: Fe, d: Fe, e: Fe, f: Fe) {
    static function New(a: Fe, b: Fe, c: Fe, d: Fe, e: Fe, f: Fe): QuintuplePoly {
      QuintuplePoly(a, b, c, d, e, f)
    }

    function Eval(x: Fe): Fe {
      Field.Add(Field.Mul(Field.Add(Field.Mul(Field.Add(Field.Mul(Field.Add(Field.Mul(Field.Add(
        Field.Mul(a, x), b), x), c), x), d), x), e), x), f)
    }

    /** The coefficients, constant first. */
    function Coeffs(): seq<Fe> {
      [f, e, d, c, b, a]
    }

    function Add(rhs: QuintuplePoly): QuintuplePoly {
      New(Field.Add(a, rhs.a), Field.Add(b, rhs.b), Field.Add(c, rhs.c),
        Field.Add(d, rhs.d), Field.Add(e, rhs.e), Field.Add(f, rhs.f))
    }

    static function Default(): QuintuplePoly {
      QuintuplePoly(0, 0, 0, 0, 0, 0)
    }

    /** `self += rhs`, one field at a time. */
    method AddAssign(rhs: QuintuplePoly) returns (r: QuintuplePoly)
      ensures r == Add(rhs)
      ensures r.Coeffs() == PointwiseAdd(Coeffs(), rhs.Coeffs())
      ensures forall x :: r.Eval(x) == Field.Add(Eval(x), rhs.Eval(x))
    {
      r := this;
      r := r.(a := Field.Add(r.a, rhs.a));
      r := r.(b := Field.Add(r.b, rhs.b));
      r := r.(c := Field.Add(r.c, rhs.c));
      r := r.(d := Field.Add(r.d, rhs.d));
      r := r.(e := Field.Add(r.e, rhs.e));
      r := r.(f := Field.Add(r.f, rhs.f));
      forall x
        ensures r.Eval(x) == Field.Add(Eval(x), rhs.Eval(x))
      {
        AddIsLinear(rhs, x);
      }
    }

    /** The evaluation is Horner's rule on the coefficients. */
    lemma EvalIsHorner(x: Fe)
      ensures Eval(x) == Horner(Coeffs(), x)
    {
      HornerCons(b, [a], x);
      HornerCons(c, [b, a], x);
      HornerCons(d, [c, b, a], x);
      HornerCons(e, [d, c, b, a], x);
      HornerCons(f, [e, d, c, b, a], x);
    }

    /** The evaluation is the power sum of the coefficients, reduced mod P (the doc comment's
        polynomial, written out by `PowerSum6`). */
    lemma EvalIsPowerSum(x: Fe)
      ensures Eval(x) == Value(Coeffs(), x)
    {
      EvalIsHorner(x);
      HornerIsValue(Coeffs(), x);
    }

    /** `new` stores its arguments leading coefficient first. */
    lemma NewEval(a0: Fe, b0: Fe, c0: Fe, d0: Fe, e0: Fe, f0: Fe, x: Fe)
      ensures New(a0, b0, c0, d0, e0, f0).Coeffs() == [f0, e0, d0, c0, b0, a0]
      ensures New(a0, b0, c0, d0, e0, f0).Eval(x) == Value([f0, e0, d0, c0, b0, a0], x)
    {
      New(a0, b0, c0, d0, e0, f0).EvalIsPowerSum(x);
    }

    lemma AddIsCoefficientwise(rhs: QuintuplePoly)
      ensures Add(rhs).Coeffs() == PointwiseAdd(Coeffs(), rhs.Coeffs())
    {
    }

    /** Evaluation is linear: `(p + q)(x) == p(x) + q(x)`. */
    lemma AddIsLinear(rhs: QuintuplePoly, x: Fe)
      ensures Add(rhs).Eval(x) == Field.Add(Eval(x), rhs.Eval(x))
    {
      EvalIsPowerSum(x);
      rhs.EvalIsPowerSum(x);
      Add(rhs).EvalIsPowerSum(x);
      AddIsCoefficientwise(rhs);
      ValueAdd(Coeffs(), rhs.Coeffs(), x);
    }

    /** `Default` is the zero polynomial and the identity of `+`. */
    lemma DefaultIsZero(x: Fe)
      ensures Default().Eval(x) == 0
    {
      Default().EvalIsPowerSum(x);
      ValueZeros(Default().Coeffs(), x);
    }

    lemma DefaultIsIdentity()
      ensures Add(Default()) == this && Default().Add(this) == this
    {
    }

    /** At 0 the polynomial is its constant coefficient `f`. */
    lemma EvalAtZero()
      ensures Eval(0) == f
    {
      EvalIsPowerSum(0);
      ValueAtZero(Coeffs());
    }
  }
}
