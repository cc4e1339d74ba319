/**
  The earlier single-file engine, src/iota.py.  Its eval, its printer and its
  Logarithm are those of the package (`Operator.Eval`, `Printer.Render`,
  `Ops.LogStep`); only `Power.diff` differs: it uses the plain power rule
  `g * f' * f^(g - 1)`, which never differentiates the exponent.
*/
module Legacy {
  import opened Wrappers
  import opened Value
  import Variable
  import Ops
  import opened Operator
  import opened Derivative
  import Semantics
  import DerivativeFacts

  /** `g * f' * f ** (g - 1)`: Python groups it as `(g * f') * (f ** (g - 1))`. */
  function PlainPowerRule(f: Expr, g: Expr, df: Term, m: Numerics): (d: Term)
    ensures d == Sym(Product(Product(g, Lift(df)), Power(f, Difference(g, Const(1.0)))))
  {
    var scaled := Apply(Times, Sym(g), df, m).value;
    var lowered := Apply(Minus, Sym(g), Num(1.0), m).value;
    var power := Apply(Raise, Sym(f), lowered, m).value;
    Apply(Times, scaled, power, m).value
  }

  /** `diff(wrt)` of the earlier engine: the package's rules, except Power. */
  function LegacyDiff(e: Expr, wrt: string, m: Numerics): (r: Outcome<Term>)
    ensures e.Const? ==> r == Ok(Num(0.0))
    ensures e.Var? ==> r == Ok(Num(if e.name == wrt then 1.0 else 0.0))
    ensures e.Log? && |e.args| == 0 ==> r == Err(IndexOutOfRange)
    ensures e.Log? && |e.args| >= 2 && Eval(e.args[0], map[], m).Ok? && Eval(e.args[0], map[], m).value.Sym? ==>
              r == Err(NotImplemented)
    ensures e.Log? && |e.args| >= 2 && Eval(e.args[0], map[], m).Ok? && Eval(e.args[0], map[], m).value.Num? &&
            Eval(e.args[0], map[], m).value.x <= 0.0 && LegacyDiff(e.args[1], wrt, m).Ok? ==>
              r == Err(MathDomain)
  {
    match e
    case Const(v) => Ok(Variable.ConstDiff(v, wrt))
    case Var(n) => Ok(Variable.VarDiff(n, wrt))
    case Sum(a, b) =>
      var da :- LegacyDiff(a, wrt, m);
      var db :- LegacyDiff(b, wrt, m);
      Simplify(SumRule(da, db, m), m)
    case Difference(a, b) =>
      var da :- LegacyDiff(a, wrt, m);
      var db :- LegacyDiff(b, wrt, m);
      Simplify(DifferenceRule(da, db, m), m)
    case Product(a, b) =>
      var db :- LegacyDiff(b, wrt, m);
      var da :- LegacyDiff(a, wrt, m);
      Simplify(ProductRule(a, b, da, db, m), m)
    case Division(a, b) =>
      var da :- LegacyDiff(a, wrt, m);
      var db :- LegacyDiff(b, wrt, m);
      Simplify(QuotientRule(a, b, da, db, m), m)
    case Power(f, g) =>
      // only the base is differentiated
      var df :- LegacyDiff(f, wrt, m);
      Simplify(PlainPowerRule(f, g, df, m), m)
    case Log(args) =>
      if |args| == 1 then
        var da :- LegacyDiff(args[0], wrt, m);
        Simplify(Ops.LogQuotient(da, 1.0, args[0], m).value, m)
      else if |args| == 0 then
        Err(IndexOutOfRange)
      else
        var base :- Eval(args[0], map[], m);
        if base.Sym? then Err(NotImplemented)
        else
          var da :- LegacyDiff(args[1], wrt, m);
          // math.log(base) raises ValueError for a base that is not positive
          if base.x <= 0.0 then Err(MathDomain)
          else Simplify(Ops.LogQuotient(da, m.ln(base.x), args[1], m).value, m)
  }

  /** No Power node anywhere in the tree. */
  predicate PowerFree(e: Expr) {
    match e
    case Const(_) => true
    case Var(_) => true
    case Sum(a, b) => PowerFree(a) && PowerFree(b)
    case Difference(a, b) => PowerFree(a) && PowerFree(b)
    case Product(a, b) => PowerFree(a) && PowerFree(b)
    case Division(a, b) => PowerFree(a) && PowerFree(b)
    case Power(_, _) => false
    case Log(args) => forall i :: 0 <= i < |args| ==> PowerFree(args[i])
  }

  /** Without a Power node the two engines differentiate identically. */
  lemma {:induction false} LegacyAgreesWithoutPower(e: Expr, wrt: string, m: Numerics)
    requires PowerFree(e)
    ensures LegacyDiff(e, wrt, m) == Diff(e, wrt, m)
  {
    match e
    case Const(_) =>
    case Var(_) =>
    case Sum(a, b) => LegacyAgreesWithoutPower(a, wrt, m); LegacyAgreesWithoutPower(b, wrt, m);
    case Difference(a, b) => LegacyAgreesWithoutPower(a, wrt, m); LegacyAgreesWithoutPower(b, wrt, m);
    case Product(a, b) => LegacyAgreesWithoutPower(a, wrt, m); LegacyAgreesWithoutPower(b, wrt, m);
    case Division(a, b) => LegacyAgreesWithoutPower(a, wrt, m); LegacyAgreesWithoutPower(b, wrt, m);
    case Log(args) =>
      if |args| == 1 {
        LegacyAgreesWithoutPower(args[0], wrt, m);
      } else if |args| >= 2 {
        LegacyAgreesWithoutPower(args[1], wrt, m);
      }
  }

  /** For a constant exponent the plain rule is right: d/dx x^3 is 3 * x^2. */
  lemma CubeSlope(m: Numerics)
    ensures LegacyDiff(Power(Var("x"), Const(3.0)), "x", m) ==
            Ok(Sym(Product(Const(3.0), Power(Var("x"), Const(2.0)))))
  {
    var x := Var("x");
    var none: map<string, real> := map[];
    assert LegacyDiff(x, "x", m) == Ok(Num(1.0));
    assert Eval(x, none, m) == Ok(Sym(x));
    assert Eval(Product(Const(3.0), Const(1.0)), none, m) == Ok(Num(3.0));
    assert Eval(Difference(Const(3.0), Const(1.0)), none, m) == Ok(Num(2.0));
    assert Eval(Power(x, Difference(Const(3.0), Const(1.0))), none, m) == Ok(Sym(Power(x, Const(2.0))));
  }

  /** The plain rule applied to x^x: x * x^(x - 1). */
  lemma PlainSelfPower(m: Numerics)
    ensures LegacyDiff(Power(Var("x"), Var("x")), "x", m) ==
            Ok(Sym(Product(Var("x"), Power(Var("x"), Difference(Var("x"), Const(1.0))))))
  {
    var x := Var("x");
    var none: map<string, real> := map[];
    assert LegacyDiff(x, "x", m) == Ok(Num(1.0));
    assert Eval(x, none, m) == Ok(Sym(x));
    assert Eval(Const(1.0), none, m) == Ok(Num(1.0));
    assert Eval(Product(x, Const(1.0)), none, m) == Ok(Sym(x));
    assert Eval(Difference(x, Const(1.0)), none, m) == Ok(Sym(Difference(x, Const(1.0))));
    assert Eval(Power(x, Difference(x, Const(1.0))), none, m) == Ok(Sym(Power(x, Difference(x, Const(1.0)))));
  }

  /** Its value at x = v is v * v^(v - 1). */
  lemma PlainSelfPowerSlope(v: real, m: Numerics)
    requires Semantics.Lawful(m)
    requires v != 0.0 && v != 1.0
    ensures Eval(Product(Var("x"), Power(Var("x"), Difference(Var("x"), Const(1.0)))), map["x" := v], m) ==
            Ok(Num(Mul(v, m.pow(v, v - 1.0))))
  {
    var x := Var("x");
    var env := map["x" := v];
    var p := m.pow(v, v - 1.0);
    assert Eval(x, env, m) == Ok(Num(v));
    assert Eval(Difference(x, Const(1.0)), env, m) == Ok(Num(v - 1.0));
    Semantics.PowerStepSound(v, v - 1.0, m);
    assert Eval(Power(x, Difference(x, Const(1.0))), env, m) == Ok(Num(p));
    Semantics.ProductEval(x, Power(x, Difference(x, Const(1.0))), env, m, v, p);
  }

  /** At x = 2 the plain rule's derivative of x^x is 4. */
  lemma PlainSlopeAtTwo(m: Numerics)
    requires Semantics.Lawful(m)
    ensures LegacyDiff(Power(Var("x"), Var("x")), "x", m).Ok? && LegacyDiff(Power(Var("x"), Var("x")), "x", m).value.Sym?
    ensures Eval(LegacyDiff(Power(Var("x"), Var("x")), "x", m).value.e, map["x" := 2.0], m) == Ok(Num(4.0))
  {
    PlainSelfPower(m);
    PlainSelfPowerSlope(2.0, m);
    assert m.pow(2.0, 2.0 - 1.0) == 2.0 && Mul(2.0, 2.0) == 4.0;
  }

  /** At x = 2 the generalised rule's derivative of x^x is 4 * (1 + ln 2). */
  lemma GeneralSlopeAtTwo(m: Numerics)
    requires Semantics.Lawful(m)
    requires m.pow(2.0, 2.0) == 4.0
    ensures Diff(Power(Var("x"), Var("x")), "x", m).Ok? && Diff(Power(Var("x"), Var("x")), "x", m).value.Sym?
    ensures Eval(Diff(Power(Var("x"), Var("x")), "x", m).value.e, map["x" := 2.0], m) ==
            Ok(Num(4.0 * (1.0 + m.log(2.0, E))))
  {
    DerivativeFacts.SelfPowerDerivative(m);
    DerivativeFacts.SelfPowerSlope(2.0, m);
  }

  /** For a variable exponent the plain rule is wrong: at x = 2 it gives 4 for
      d/dx x^x, while the generalised rule gives 2^2 * (1 + ln 2), and the two
      differ whenever ln 2 is not 0. */
  lemma SelfPowerSlopesDisagree(m: Numerics)
    requires Semantics.Lawful(m)
    requires m.pow(2.0, 2.0) == 4.0
    requires m.log(2.0, E) != 0.0
    ensures LegacyDiff(Power(Var("x"), Var("x")), "x", m).Ok? && LegacyDiff(Power(Var("x"), Var("x")), "x", m).value.Sym?
    ensures Diff(Power(Var("x"), Var("x")), "x", m).Ok? && Diff(Power(Var("x"), Var("x")), "x", m).value.Sym?
    ensures Eval(LegacyDiff(Power(Var("x"), Var("x")), "x", m).value.e, map["x" := 2.0], m) !=
            Eval(Diff(Power(Var("x"), Var("x")), "x", m).value.e, map["x" := 2.0], m)
  {
    PlainSlopeAtTwo(m);
    GeneralSlopeAtTwo(m);
    var l := m.log(2.0, E);
    assert 4.0 * (1.0 + l) - 4.0 == 4.0 * l;
  }
}
