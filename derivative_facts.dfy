/**
  What the derivative pass computes: a derivative with respect to a variable
  the expression does not mention is 0; the derivatives of x^2, ln x and x^x
  and their values at x = 3, x = 5 and any positive x other than 1; and the
  failure that a zero left operand of a Difference causes once the derivative
  of 5 - x * x is simplified.
*/
module DerivativeFacts {
  import opened Wrappers
  import opened Value
  import opened Operator
  import opened Derivative
  import Semantics
  import EvalFacts
  import Ops

  /** A literal zero factor on either side makes a product evaluate to 0
      whenever the other factor evaluates at all. */
  lemma TimesZero(a: Expr, m: Numerics)
    ensures Eval(Product(a, Const(0.0)), map[], m).Ok? <==> Eval(a, map[], m).Ok?
    ensures Eval(Product(Const(0.0), a), map[], m).Ok? <==> Eval(a, map[], m).Ok?
    ensures Eval(a, map[], m).Ok? ==> Eval(Product(a, Const(0.0)), map[], m) == Ok(Num(0.0))
    ensures Eval(a, map[], m).Ok? ==> Eval(Product(Const(0.0), a), map[], m) == Ok(Num(0.0))
  {
  }

  /** A literal zero numerator makes a quotient evaluate to 0 whenever the
      denominator evaluates at all, even to 0. */
  lemma ZeroOver(a: Expr, m: Numerics)
    ensures Eval(Division(Const(0.0), a), map[], m).Ok? <==> Eval(a, map[], m).Ok?
    ensures Eval(a, map[], m).Ok? ==> Eval(Division(Const(0.0), a), map[], m) == Ok(Num(0.0))
  {
  }

  lemma ProductOfZeros(a: Expr, b: Expr, m: Numerics)
    requires Simplify(ProductRule(a, b, Num(0.0), Num(0.0), m), m).Ok?
    ensures Simplify(ProductRule(a, b, Num(0.0), Num(0.0), m), m) == Ok(Num(0.0))
  {
    TimesZero(a, m);
    TimesZero(b, m);
  }

  lemma QuotientOfZeros(a: Expr, b: Expr, m: Numerics)
    requires Simplify(QuotientRule(a, b, Num(0.0), Num(0.0), m), m).Ok?
    ensures Simplify(QuotientRule(a, b, Num(0.0), Num(0.0), m), m) == Ok(Num(0.0))
  {
    TimesZero(a, m);
    TimesZero(b, m);
    var numerator := Difference(Product(b, Const(0.0)), Product(a, Const(0.0)));
    assert Eval(numerator, map[], m) == Ok(Num(0.0));
  }

  lemma PowerOfZeros(f: Expr, g: Expr, m: Numerics)
    requires Simplify(PowerRule(f, g, Num(0.0), Num(0.0), m), m).Ok?
    ensures Simplify(PowerRule(f, g, Num(0.0), Num(0.0), m), m) == Ok(Num(0.0))
  {
    var logTerm := Product(Const(0.0), Log([f]));
    var ratio := Division(Product(g, Const(0.0)), f);
    var whole := Product(Power(f, g), Sum(logTerm, ratio));
    assert Eval(whole, map[], m).Ok?;
    assert Eval(Sum(logTerm, ratio), map[], m).Ok?;
    assert Eval(logTerm, map[], m).Ok? && Eval(ratio, map[], m).Ok?;
    TimesZero(Log([f]), m);
    TimesZero(g, m);
    assert Eval(logTerm, map[], m) == Ok(Num(0.0));
    assert Eval(ratio, map[], m) == Ok(Num(0.0));
    assert Eval(Sum(logTerm, ratio), map[], m) == Ok(Num(0.0));
    TimesZero(Power(f, g), m);
  }

  /** Differentiating with respect to a variable the expression does not
      mention gives 0 whenever the derivative exists at all. */
  lemma {:induction false} DiffFreeIsZero(e: Expr, wrt: string, m: Numerics)
    requires wrt !in FreeVars(e)
    requires Diff(e, wrt, m).Ok?
    ensures Diff(e, wrt, m) == Ok(Num(0.0))
  {
    match e
    case Const(_) =>
    case Var(_) =>
    case Sum(a, b) => DiffFreeIsZero(a, wrt, m); DiffFreeIsZero(b, wrt, m);
    case Difference(a, b) => DiffFreeIsZero(a, wrt, m); DiffFreeIsZero(b, wrt, m);
    case Product(a, b) =>
      DiffFreeIsZero(b, wrt, m); DiffFreeIsZero(a, wrt, m);
      ProductOfZeros(a, b, m);
    case Division(a, b) =>
      DiffFreeIsZero(a, wrt, m); DiffFreeIsZero(b, wrt, m);
      QuotientOfZeros(a, b, m);
    case Power(f, g) =>
      DiffFreeIsZero(g, wrt, m); DiffFreeIsZero(f, wrt, m);
      PowerOfZeros(f, g, m);
    case Log(args) =>
      if |args| == 1 {
        Semantics.LogFreeVarsHead(args, 0);
        DiffFreeIsZero(args[0], wrt, m);
        ZeroOver(Product(Const(1.0), args[0]), m);
      } else {
        Semantics.LogFreeVarsHead(args, 1);
        var base := Eval(args[0], map[], m).value;
        DiffFreeIsZero(args[1], wrt, m);
        ZeroOver(Product(Const(m.ln(base.x)), args[1]), m);
      }
  }

  /** A simplified term is a number or a normal tree. */
  lemma SimplifyResultOk(t: Term, m: Numerics)
    requires Simplify(t, m).Ok?
    ensures EvalFacts.ResultOk(Simplify(t, m).value)
  {
    if t.Sym? {
      EvalFacts.EvalResultNormal(t.e, map[], m);
    }
  }

  /** Every derivative comes back simplified: a number, or a tree in the
      normal form of evaluation results. */
  lemma DiffIsSimplified(e: Expr, wrt: string, m: Numerics)
    requires Diff(e, wrt, m).Ok?
    ensures EvalFacts.ResultOk(Diff(e, wrt, m).value)
  {
    match e
    case Const(_) =>
    case Var(_) =>
    case Sum(a, b) =>
      SimplifyResultOk(SumRule(Diff(a, wrt, m).value, Diff(b, wrt, m).value, m), m);
    case Difference(a, b) =>
      SimplifyResultOk(DifferenceRule(Diff(a, wrt, m).value, Diff(b, wrt, m).value, m), m);
    case Product(a, b) =>
      SimplifyResultOk(ProductRule(a, b, Diff(a, wrt, m).value, Diff(b, wrt, m).value, m), m);
    case Division(a, b) =>
      SimplifyResultOk(QuotientRule(a, b, Diff(a, wrt, m).value, Diff(b, wrt, m).value, m), m);
    case Power(f, g) =>
      SimplifyResultOk(PowerRule(f, g, Diff(f, wrt, m).value, Diff(g, wrt, m).value, m), m);
    case Log(args) =>
      if |args| == 1 {
        SimplifyResultOk(Ops.LogQuotient(Diff(args[0], wrt, m).value, 1.0, args[0], m).value, m);
      } else {
        var base := Eval(args[0], map[], m).value;
        SimplifyResultOk(Ops.LogQuotient(Diff(args[1], wrt, m).value, m.ln(base.x), args[1], m).value, m);
      }
  }

  /** The generalised rule's raw result for x^2, and how a no-binding
      evaluation simplifies its two parts. */
  lemma SquareRuleTerms(m: Numerics)
    ensures PowerRule(Var("x"), Const(2.0), Num(1.0), Num(0.0), m) ==
            Sym(Product(Power(Var("x"), Const(2.0)),
                        Sum(Product(Const(0.0), Log([Var("x")])), Division(Product(Const(2.0), Const(1.0)), Var("x")))))
    ensures Eval(Power(Var("x"), Const(2.0)), map[], m) == Ok(Sym(Power(Var("x"), Const(2.0))))
  {
    assert Eval(Var("x"), map[], m) == Ok(Sym(Var("x")));
  }

  /** The rule's bracket for x^2 simplifies to 2 / x: the log term is 0. */
  lemma SquareRuleBracket(m: Numerics)
    ensures Eval(Sum(Product(Const(0.0), Log([Var("x")])), Division(Product(Const(2.0), Const(1.0)), Var("x"))), map[], m) ==
            Ok(Sym(Division(Const(2.0), Var("x"))))
  {
    var x := Var("x");
    var none: map<string, real> := map[];
    assert Eval(x, none, m) == Ok(Sym(x));
    assert Eval(Log([x]), none, m) == Ok(Sym(Log([x])));
    var logTerm := Product(Const(0.0), Log([x]));
    assert Eval(logTerm, none, m) == Ok(Num(0.0));
    assert Eval(Product(Const(2.0), Const(1.0)), none, m) == Ok(Num(2.0));
    var ratio := Division(Product(Const(2.0), Const(1.0)), x);
    assert Eval(ratio, none, m) == Ok(Sym(Division(Const(2.0), x)));
  }

  /** d/dx x^2 is x^2 * (2 / x). */
  lemma SquareDerivative(m: Numerics)
    ensures Diff(Power(Var("x"), Const(2.0)), "x", m) ==
            Ok(Sym(Product(Power(Var("x"), Const(2.0)), Division(Const(2.0), Var("x")))))
  {
    var x := Var("x");
    SquareRuleTerms(m);
    SquareRuleBracket(m);
    assert Diff(x, "x", m) == Ok(Num(1.0));
    assert Diff(Const(2.0), "x", m) == Ok(Num(0.0));
  }

  /** ... which is 6 at x = 3. */
  lemma SquareSlopeAtThree(m: Numerics)
    requires m.pow(3.0, 2.0) == 9.0
    ensures Diff(Power(Var("x"), Const(2.0)), "x", m).Ok? && Diff(Power(Var("x"), Const(2.0)), "x", m).value.Sym?
    ensures Eval(Diff(Power(Var("x"), Const(2.0)), "x", m).value.e, map["x" := 3.0], m) == Ok(Num(6.0))
  {
    SquareDerivative(m);
    var x := Var("x");
    var env := map["x" := 3.0];
    assert Eval(x, env, m) == Ok(Num(3.0));
    assert Eval(Power(x, Const(2.0)), env, m) == Ok(Num(9.0));
    assert Eval(Division(Const(2.0), x), env, m) == Ok(Num(Div(2.0, 3.0)));
    Semantics.ProductEval(Power(x, Const(2.0)), Division(Const(2.0), x), env, m, 9.0, Div(2.0, 3.0));
    assert Mul(9.0, Div(2.0, 3.0)) == 6.0;
  }

  /** d/dx log(e, x) is 1 / x, which is 0.2 at x = 5, given ln(e) = 1. */
  lemma LogSlopeAtFive(m: Numerics)
    requires m.ln(E) == 1.0
    ensures Diff(Log([Const(E), Var("x")]), "x", m) == Ok(Sym(Division(Const(1.0), Var("x"))))
    ensures Eval(Division(Const(1.0), Var("x")), map["x" := 5.0], m) == Ok(Num(0.2))
  {
    var x := Var("x");
    var none: map<string, real> := map[];
    var args := [Const(E), x];
    assert args[0] == Const(E) && args[1] == x;
    assert Eval(Const(E), none, m) == Ok(Num(E));
    assert Diff(x, "x", m) == Ok(Num(1.0));
    var q := Division(Const(1.0), Product(Const(1.0), x));
    assert Ops.LogQuotient(Num(1.0), 1.0, x, m) == Ok(Sym(q));
    assert Eval(x, none, m) == Ok(Sym(x));
    assert Eval(Product(Const(1.0), x), none, m) == Ok(Sym(x));
    assert Eval(q, none, m) == Ok(Sym(Division(Const(1.0), x)));
    assert Eval(x, map["x" := 5.0], m) == Ok(Num(5.0));
  }

  /** The failures of the Logarithm derivative: no children is an IndexError, a
      base that does not evaluate to a number is NotImplementedError, and a
      base that is not positive makes `math.log(base)` a ValueError. */
  lemma LogDiffFailures(m: Numerics)
    ensures Diff(Log([]), "x", m) == Err(IndexOutOfRange)
    ensures Diff(Log([Var("b"), Var("x")]), "x", m) == Err(NotImplemented)
    ensures Diff(Log([Const(-2.0), Var("x")]), "x", m) == Err(MathDomain)
    ensures Diff(Log([Const(0.0), Var("x")]), "x", m) == Err(MathDomain)
  {
    assert Eval(Var("b"), map[], m) == Ok(Sym(Var("b")));
    assert Diff(Var("x"), "x", m) == Ok(Num(1.0));
  }

  /** d/dx (5 - x * x) fails: the left derivative is 0, so simplifying
      `0 - (x + x)` negates a tree, which has no negation. */
  lemma FiveMinusSquareFails(m: Numerics)
    ensures Diff(Difference(Const(5.0), Product(Var("x"), Var("x"))), "x", m) == Err(NoNegation)
  {
    var x := Var("x");
    var none: map<string, real> := map[];
    assert Diff(x, "x", m) == Ok(Num(1.0));
    assert Diff(Const(5.0), "x", m) == Ok(Num(0.0));
    assert ProductRule(x, x, Num(1.0), Num(1.0), m) == Sym(Sum(Product(x, Const(1.0)), Product(Const(1.0), x)));
    assert Eval(x, none, m) == Ok(Sym(x));
    assert Eval(Product(x, Const(1.0)), none, m) == Ok(Sym(x));
    assert Eval(Product(Const(1.0), x), none, m) == Ok(Sym(x));
    assert Diff(Product(x, x), "x", m) == Ok(Sym(Sum(x, x)));
    assert Eval(Sum(x, x), none, m) == Ok(Sym(Sum(x, x)));
    assert DifferenceRule(Num(0.0), Sym(Sum(x, x)), m) == Sym(Difference(Const(0.0), Sum(x, x)));
    assert Eval(Const(0.0), none, m) == Ok(Num(0.0));
    assert Eval(Difference(Const(0.0), Sum(x, x)), none, m) == Err(NoNegation);
  }

  /** The generalised rule's raw result for x^x simplifies to x / x + ln(x). */
  lemma SelfPowerRuleTerms(m: Numerics)
    ensures PowerRule(Var("x"), Var("x"), Num(1.0), Num(1.0), m) ==
            Sym(Product(Power(Var("x"), Var("x")),
                        Sum(Product(Const(1.0), Log([Var("x")])), Division(Product(Var("x"), Const(1.0)), Var("x")))))
    ensures Eval(Power(Var("x"), Var("x")), map[], m) == Ok(Sym(Power(Var("x"), Var("x"))))
  {
    assert Eval(Var("x"), map[], m) == Ok(Sym(Var("x")));
  }

  /** The rule's bracket for x^x simplifies to x / x + ln(x), mirrored by `Sum`. */
  lemma SelfPowerRuleBracket(m: Numerics)
    ensures Eval(Sum(Product(Const(1.0), Log([Var("x")])), Division(Product(Var("x"), Const(1.0)), Var("x"))), map[], m) ==
            Ok(Sym(Sum(Division(Var("x"), Var("x")), Log([Var("x")]))))
  {
    var x := Var("x");
    var none: map<string, real> := map[];
    assert Eval(x, none, m) == Ok(Sym(x));
    assert Eval(Log([x]), none, m) == Ok(Sym(Log([x])));
    assert Eval(Product(Const(1.0), Log([x])), none, m) == Ok(Sym(Log([x])));
    assert Eval(Product(x, Const(1.0)), none, m) == Ok(Sym(x));
    assert Eval(Division(Product(x, Const(1.0)), x), none, m) == Ok(Sym(Division(x, x)));
  }

  /** The generalised rule applied to x^x: x^x * (x / x + ln(x)). */
  lemma SelfPowerDerivative(m: Numerics)
    ensures Diff(Power(Var("x"), Var("x")), "x", m) ==
            Ok(Sym(Product(Power(Var("x"), Var("x")), Sum(Division(Var("x"), Var("x")), Log([Var("x")])))))
  {
    SelfPowerRuleTerms(m);
    SelfPowerRuleBracket(m);
    assert Diff(Var("x"), "x", m) == Ok(Num(1.0));
  }

  /** Its value at x = v is v^v * (1 + ln v), the derivative of x^x. */
  lemma SelfPowerSlope(v: real, m: Numerics)
    requires Semantics.Lawful(m)
    requires v > 0.0 && v != 1.0
    ensures Eval(Product(Power(Var("x"), Var("x")), Sum(Division(Var("x"), Var("x")), Log([Var("x")]))),
                 map["x" := v], m) == Ok(Num(Mul(m.pow(v, v), 1.0 + m.log(v, E))))
  {
    var x := Var("x");
    var env := map["x" := v];
    var p, l := m.pow(v, v), m.log(v, E);
    assert Eval(x, env, m) == Ok(Num(v));
    Semantics.PowerStepSound(v, v, m);
    assert Eval(Power(x, x), env, m) == Ok(Num(p));
    assert Div(v, v) == 1.0;
    assert Eval(Division(x, x), env, m) == Ok(Num(1.0));
    Semantics.LogStepSound(E, v, m);
    assert Eval(Log([x]), env, m) == Ok(Num(l));
    assert Eval(Sum(Division(x, x), Log([x])), env, m) == Ok(Num(1.0 + l));
    Semantics.ProductEval(Power(x, x), Sum(Division(x, x), Log([x])), env, m, p, 1.0 + l);
  }
}
