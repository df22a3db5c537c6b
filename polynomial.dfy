/** Fixed-degree polynomials with constant-first coefficients (polynomial/src/lib.rs):
    `Linear` is `a + b·x`, `Quadratic` `a + b·x + c·x²`, up to `Quintuple` of degree 5. Each
    has Horner evaluation, coefficient-wise addition, `+=` and the all-zero `Default`. */
module Polynomial {
  import Field
  import opened Coefficients

  /** a + b·x. */
  datatype Linear = Linear(a: Fe, b: Fe) {
    function Eval(x: Fe): Fe {
      Field.Add(a, Field.Mul(b, x))
    }

    /** The coefficients, constant first. */
    function Coeffs(): seq<Fe> {
      [a, b]
    }

    function Add(rhs: Linear): Linear {
      Linear(Field.Add(a, rhs.a), Field.Add(b, rhs.b))
    }

    static function Default(): Linear {
      Linear(0, 0)
    }

    /** `self += rhs`, which assigns `self + rhs` to `self`. */
    method AddAssign(rhs: Linear) returns (r: Linear)
      ensures r == Add(rhs)
      ensures r.Coeffs() == PointwiseAdd(Coeffs(), rhs.Coeffs())
      ensures forall x :: r.Eval(x) == Field.Add(Eval(x), rhs.Eval(x))
    {
      r := this.Add(rhs);
      forall x
        ensures r.Eval(x) == Field.Add(Eval(x), rhs.Eval(x))
      {
        AddIsLinear(rhs, x);
      }
      AddIsCoefficientwise(rhs);
    }

    /** The evaluation is Horner's rule on the coefficients. */
    lemma EvalIsHorner(x: Fe)
      ensures Eval(x) == Horner(Coeffs(), x)
    {
      HornerCons(a, [b], x);
    }

    /** The evaluation is the power sum of the coefficients, reduced mod P (the doc comment's
        polynomial, written out by `PowerSum2`). */
    lemma EvalIsPowerSum(x: Fe)
      ensures Eval(x) == Value(Coeffs(), x)
    {
      EvalIsHorner(x);
      HornerIsValue(Coeffs(), x);
    }

    lemma AddIsCoefficientwise(rhs: Linear)
      ensures Add(rhs).Coeffs() == PointwiseAdd(Coeffs(), rhs.Coeffs())
    {
    }

    /** Evaluation is linear: `(p + q)(x) == p(x) + q(x)`. */
    lemma AddIsLinear(rhs: Linear, x: Fe)
      ensures Add(rhs).Eval(x) == Field.Add(Eval(x), rhs.Eval(x))
    {
      EvalIsPowerSum(x);
      rhs.EvalIsPowerSum(x);
      Add(rhs).EvalIsPowerSum(x);
      AddIsCoefficientwise(rhs);
      ValueAdd(Coeffs(), rhs.Coeffs(), x);
    }

    /** `Default` is the zero polynomial and the identity of `+`. */
    lemma DefaultIsZero(x: Fe)
      ensures Default().Eval(x) == 0
    {
      Default().EvalIsPowerSum(x);
      ValueZeros(Default().Coeffs(), x);
    }

    lemma DefaultIsIdentity()
      ensures Add(Default()) == this && Default().Add(this) == this
    {
    }

    /** At 0 the polynomial is its constant coefficient `a`. */
    lemma EvalAtZero()
      ensures Eval(0) == a
    {
    }
  }

  /** a + b·x + c·x², evaluated as a + x·(b + c·x). */
  datatype Quadratic = Quadratic(a: Fe, b: Fe, c: Fe) {
    function Eval(x: Fe): Fe {
      Field.Add(a, Field.Mul(x, Field.Add(b, Field.Mul(c, x))))
    }

    /** The coefficients, constant first. */
    function Coeffs(): seq<Fe> {
      [a, b, c]
    }

    function Add(rhs: Quadratic): Quadratic {
      Quadratic(Field.Add(a, rhs.a), Field.Add(b, rhs.b), Field.Add(c, rhs.c))
    }

    static function Default(): Quadratic {
      Quadratic(0, 0, 0)
    }

    /** `self += rhs`, which assigns `self + rhs` to `self`. */
    method AddAssign(rhs: Quadratic) returns (r: Quadratic)
      ensures r == Add(rhs)
      ensures r.Coeffs() == PointwiseAdd(Coeffs(), rhs.Coeffs())
      ensures forall x :: r.Eval(x) == Field.Add(Eval(x), rhs.Eval(x))
    {
      r := this.Add(rhs);
      forall x
        ensures r.Eval(x) == Field.Add(Eval(x), rhs.Eval(x))
      {
        AddIsLinear(rhs, x);
      }
      AddIsCoefficientwise(rhs);
    }

    /** The evaluation is Horner's rule on the coefficients. */
    lemma EvalIsHorner(x: Fe)
      ensures Eval(x) == Horner(Coeffs(), x)
    {
      HornerCons(b, [c], x);
      HornerCons(a, [b, c], x);
      var t := Field.Add(Field.Mul(c, x), b);
      assert Horner([b, c], x) == t;
      assert Field.Add(b, Field.Mul(c, x)) == t;
      Field.MulCommutes(x, t);
    }

    /** The evaluation is the power sum of the coefficients, reduced mod P (the doc comment's
        polynomial, written out by `PowerSum3`). */
    lemma EvalIsPowerSum(x: Fe)
      ensures Eval(x) == Value(Coeffs(), x)
    {
      EvalIsHorner(x);
      HornerIsValue(Coeffs(), x);
    }

    lemma AddIsCoefficientwise(rhs: Quadratic)
      ensures Add(rhs).Coeffs() == PointwiseAdd(Coeffs(), rhs.Coeffs())
    {
    }

    /** Evaluation is linear: `(p + q)(x) == p(x) + q(x)`. */
    lemma AddIsLinear(rhs: Quadratic, x: Fe)
      ensures Add(rhs).Eval(x) == Field.Add(Eval(x), rhs.Eval(x))
    {
      EvalIsPowerSum(x);
      rhs.EvalIsPowerSum(x);
      Add(rhs).EvalIsPowerSum(x);
      AddIsCoefficientwise(rhs);
      ValueAdd(Coeffs(), rhs.Coeffs(), x);
    }

    /** `Default` is the zero polynomial and the identity of `+`. */
    lemma DefaultIsZero(x: Fe)
      ensures Default().Eval(x) == 0
    {
      Default().EvalIsPowerSum(x);
      ValueZeros(Default().Coeffs(), x);
    }

    lemma DefaultIsIdentity()
      ensures Add(Default()) == this && Default().Add(this) == this
    {
    }

    /** At 0 the polynomial is its constant coefficient `a`. */
    lemma EvalAtZero()
      ensures Eval(0) == a
    {
    }
  }

  /** a + b·x + c·x² + d·x³, evaluated by Horner's rule from `d`. */
  datatype Cubic = Cubic(a: Fe, b: Fe, c: Fe, d: Fe) {
    function Eval(x: Fe): Fe {
      Field.Add(Field.Mul(Field.Add(Field.Mul(Field.Add(Field.Mul(d, x), c), x), b), x), a)
    }

    /** The coefficients, constant first. */
    function Coeffs(): seq<Fe> {
      [a, b, c, d]
    }

    function Add(rhs: Cubic): Cubic {
      Cubic(Field.Add(a, rhs.a), Field.Add(b, rhs.b), Field.Add(c, rhs.c), Field.Add(d, rhs.d))
    }

    static function Default(): Cubic {
      Cubic(0, 0, 0, 0)
    }

    /** `self += rhs`, which assigns `self + rhs` to `self`. */
    method AddAssign(rhs: Cubic) returns (r: Cubic)
      ensures r == Add(rhs)
      ensures r.Coeffs() == PointwiseAdd(Coeffs(), rhs.Coeffs())
      ensures forall x :: r.Eval(x) == Field.Add(Eval(x), rhs.Eval(x))
    {
      r := this.Add(rhs);
      forall x
        ensures r.Eval(x) == Field.Add(Eval(x), rhs.Eval(x))
      {
        AddIsLinear(rhs, x);
      }
      AddIsCoefficientwise(rhs);
    }

    /** The evaluation is Horner's rule on the coefficients. */
    lemma EvalIsHorner(x: Fe)
      ensures Eval(x) == Horner(Coeffs(), x)
    {
      HornerCons(c, [d], x);
      HornerCons(b, [c, d], x);
      HornerCons(a, [b, c, d], x);
    }

    /** The evaluation is the power sum of the coefficients, reduced mod P (the doc comment's
        polynomial, written out by `PowerSum4`). */
    lemma EvalIsPowerSum(x: Fe)
      ensures Eval(x) == Value(Coeffs(), x)
    {
      EvalIsHorner(x);
      HornerIsValue(Coeffs(), x);
    }

    lemma AddIsCoefficientwise(rhs: Cubic)
      ensures Add(rhs).Coeffs() == PointwiseAdd(Coeffs(), rhs.Coeffs())
    {
    }

    /** Evaluation is linear: `(p + q)(x) == p(x) + q(x)`. */
    lemma AddIsLinear(rhs: Cubic, x: Fe)
      ensures Add(rhs).Eval(x) == Field.Add(Eval(x), rhs.Eval(x))
    {
      EvalIsPowerSum(x);
      rhs.EvalIsPowerSum(x);
      Add(rhs).EvalIsPowerSum(x);
      AddIsCoefficientwise(rhs);
      ValueAdd(Coeffs(), rhs.Coeffs(), x);
    }

    /** `Default` is the zero polynomial and the identity of `+`. */
    lemma DefaultIsZero(x: Fe)
      ensures Default().Eval(x) == 0
    {
      Default().EvalIsPowerSum(x);
      ValueZeros(Default().Coeffs(), x);
    }

    lemma DefaultIsIdentity()
      ensures Add(Default()) == this && Default().Add(this) == this
    {
    }

    /** At 0 the polynomial is its constant coefficient `a`. */
    lemma EvalAtZero()
      ensures Eval(0) == a
    {
    }
  }

  /** a + b·x + c·x² + d·x³ + e·x⁴, evaluated by Horner's rule from `e`. */
  datatype Quadruple = Quadruple(a: Fe, b: Fe, c: Fe, d: Fe, e: Fe) {
    function Eval(x: Fe): Fe {
      Field.Add(Field.Mul(Field.Add(Field.Mul(Field.Add(Field.Mul(Field.Add(Field.Mul(e, x), d), x), c), x), b), x), a)
    }

    /** The coefficients, constant first. */
    function Coeffs(): seq<Fe> {
      [a, b, c, d, e]
    }

    function Add(rhs: Quadruple): Quadruple {
      Quadruple(Field.Add(a, rhs.a), Field.Add(b, rhs.b), Field.Add(c, rhs.c), Field.Add(d, rhs.d), Field.Add(e, rhs.e))
    }

    static function Default(): Quadruple {
      Quadruple(0, 0, 0, 0, 0)
    }

    /** `self += rhs`, which assigns `self + rhs` to `self`. */
    method AddAssign(rhs: Quadruple) returns (r: Quadruple)
      ensures r == Add(rhs)
      ensures r.Coeffs() == PointwiseAdd(Coeffs(), rhs.Coeffs())
      ensures forall x :: r.Eval(x) == Field.Add(Eval(x), rhs.Eval(x))
    {
      r := this.Add(rhs);
      forall x
        ensures r.Eval(x) == Field.Add(Eval(x), rhs.Eval(x))
      {
        AddIsLinear(rhs, x);
      }
      AddIsCoefficientwise(rhs);
    }

    /** The evaluation is Horner's rule on the coefficients. */
    lemma EvalIsHorner(x: Fe)
      ensures Eval(x) == Horner(Coeffs(), x)
    {
      HornerCons(d, [e], x);
      HornerCons(c, [d, e], x);
      HornerCons(b, [c, d, e], x);
      HornerCons(a, [b, c, d, e], x);
    }

    /** The evaluation is the power sum of the coefficients, reduced mod P (the doc comment's
        polynomial, written out by `PowerSum5`). */
    lemma EvalIsPowerSum(x: Fe)
      ensures Eval(x) == Value(Coeffs(), x)
    {
      EvalIsHorner(x);
      HornerIsValue(Coeffs(), x);
    }

    lemma AddIsCoefficientwise(rhs: Quadruple)
      ensures Add(rhs).Coeffs() == PointwiseAdd(Coeffs(), rhs.Coeffs())
    {
    }

    /** Evaluation is linear: `(p + q)(x) == p(x) + q(x)`. */
    lemma AddIsLinear(rhs: Quadruple, x: Fe)
      ensures Add(rhs).Eval(x) == Field.Add(Eval(x), rhs.Eval(x))
    {
      EvalIsPowerSum(x);
      rhs.EvalIsPowerSum(x);
      Add(rhs).EvalIsPowerSum(x);
      AddIsCoefficientwise(rhs);
      ValueAdd(Coeffs(), rhs.Coeffs(), x);
    }

    /** `Default` is the zero polynomial and the identity of `+`. */
    lemma DefaultIsZero(x: Fe)
      ensures Default().Eval(x) == 0
    {
      Default().EvalIsPowerSum(x);
      ValueZeros(Default().Coeffs(), x);
    }

    lemma DefaultIsIdentity()
      ensures Add(Default()) == this && Default().Add(this) == this
    {
    }

    /** At 0 the polynomial is its constant coefficient `a`. */
    lemma EvalAtZero()
      ensures Eval(0) == a
    {
    }
  }

  /** a + b·x + c·x² + d·x³ + e·x⁴ + f·x⁵, evaluated by Horner's rule from `f`. */
  datatype Quintuple = Quintuple(a: Fe, b: Fe, c: Fe, d: Fe, e: Fe, f: Fe) {
    function Eval(x: Fe): Fe {
      Field.Add(Field.Mul(Field.Add(Field.Mul(Field.Add(Field.Mul(Field.Add(Field.Mul(Field.Add(Field.Mul(f, x), e), x), d), x), c), x), b), x), a)
    }

    /** The coefficients, constant first. */
    function Coeffs(): seq<Fe> {
      [a, b, c, d, e, f]
    }

    function Add(rhs: Quintuple): Quintuple {
      Quintuple(Field.Add(a, rhs.a), Field.Add(b, rhs.b), Field.Add(c, rhs.c), Field.Add(d, rhs.d), Field.Add(e, rhs.e), Field.Add(f, rhs.f))
    }

    static function Default(): Quintuple {
      Quintuple(0, 0, 0, 0, 0, 0)
    }

    /** `self += rhs`, which assigns `self + rhs` to `self`. */
    method AddAssign(rhs: Quintuple) returns (r: Quintuple)
      ensures r == Add(rhs)
      ensures r.Coeffs() == PointwiseAdd(Coeffs(), rhs.Coeffs())
      ensures forall x :: r.Eval(x) == Field.Add(Eval(x), rhs.Eval(x))
    {
      r := this.Add(rhs);
      forall x
        ensures r.Eval(x) == Field.Add(Eval(x), rhs.Eval(x))
      {
        AddIsLinear(rhs, x);
      }
      AddIsCoefficientwise(rhs);
    }

    /** The evaluation is Horner's rule on the coefficients. */
    lemma EvalIsHorner(x: Fe)
      ensures Eval(x) == Horner(Coeffs(), x)
    {
      HornerCons(e, [f], x);
      HornerCons(d, [e, f], x);
      HornerCons(c, [d, e, f], x);
      HornerCons(b, [c, d, e, f], x);
      HornerCons(a, [b, c, d, e, f], x);
    }

    /** The evaluation is the power sum of the coefficients, reduced mod P (the doc comment's
        polynomial, written out by `PowerSum6`). */
    lemma EvalIsPowerSum(x: Fe)
      ensures Eval(x) == Value(Coeffs(), x)
    {
      EvalIsHorner(x);
      HornerIsValue(Coeffs(), x);
    }

    lemma AddIsCoefficientwise(rhs: Quintuple)
      ensures Add(rhs).Coeffs() == PointwiseAdd(Coeffs(), rhs.Coeffs())
    {
    }

    /** Evaluation is linear: `(p + q)(x) == p(x) + q(x)`. */
    lemma AddIsLinear(rhs: Quintuple, x: Fe)
      ensures Add(rhs).Eval(x) == Field.Add(Eval(x), rhs.Eval(x))
    {
      EvalIsPowerSum(x);
      rhs.EvalIsPowerSum(x);
      Add(rhs).EvalIsPowerSum(x);
      AddIsCoefficientwise(rhs);
      ValueAdd(Coeffs(), rhs.Coeffs(), x);
    }

    /** `Default` is the zero polynomial and the identity of `+`. */
    lemma DefaultIsZero(x: Fe)
      ensures Default().Eval(x) == 0
    {
      Default().EvalIsPowerSum(x);
      ValueZeros(Default().Coeffs(), x);
    }

    lemma DefaultIsIdentity()
      ensures Add(Default()) == this && Default().Add(this) == this
    {
    }

    /** At 0 the polynomial is its constant coefficient `a`. */
    lemma EvalAtZero()
      ensures Eval(0) == a
    {
    }
  }
}
