/**
  A reference meaning for expression trees, independent of the engine: the
  textbook value of a fully bound expression, undefined on a zero denominator,
  on zero raised to a negative power, on an unbound variable, on a logarithm
  outside its domain (an antilog or base that is not positive, or base 1) and
  on a Logarithm of the wrong arity.  The evaluator's zero/one shortcuts are sound
  against it, and partial evaluation removes exactly the bound variables.
*/
module Semantics {
  import opened Wrappers
  import opened Value
  import opened Operator
  import EvalFacts
  import Ops

  function Denote(e: Expr, env: map<string, real>, m: Numerics): Option<real> {
    match e
    case Const(v) => Some(v)
    case Var(n) => if n in env then Some(env[n]) else None
    case Sum(a, b) =>
      var x :- Denote(a, env, m); var y :- Denote(b, env, m); Some(x + y)
    case Difference(a, b) =>
      var x :- Denote(a, env, m); var y :- Denote(b, env, m); Some(x - y)
    case Product(a, b) =>
      var x :- Denote(a, env, m); var y :- Denote(b, env, m); Some(Mul(x, y))
    case Division(a, b) =>
      var x :- Denote(a, env, m); var y :- Denote(b, env, m);
      if y == 0.0 then None else Some(Div(x, y))
    case Power(a, b) =>
      var x :- Denote(a, env, m); var y :- Denote(b, env, m);
      if x == 0.0 && y < 0.0 then None else Some(m.pow(x, y))
    case Log(args) =>
      if |args| == 1 then
        var x :- Denote(args[0], env, m);
        if x <= 0.0 then None else Some(m.log(x, E))
      else if |args| == 2 then
        var b :- Denote(args[0], env, m); var x :- Denote(args[1], env, m);
        if x <= 0.0 || b <= 0.0 || b == 1.0 then None else Some(m.log(x, b))
      else None
  }

  /** The identities of `**` and `math.log` that the shortcuts take for granted. */
  ghost predicate Lawful(m: Numerics) {
    && (forall b :: m.pow(b, 0.0) == 1.0)
    && (forall b :: m.pow(b, 1.0) == b)
    && (forall p :: p > 0.0 ==> m.pow(0.0, p) == 0.0)
    && (forall p :: m.pow(1.0, p) == 1.0)
    && (forall b :: m.log(1.0, b) == 0.0)
    && (forall b :: b != 1.0 ==> m.log(b, b) == 1.0)
  }

  lemma ProductStepSound(x: real, y: real, m: Numerics)
    ensures ProductStep(Num(x), Num(y), m) == Ok(Num(Mul(x, y)))
  {
    if x == 0.0 || y == 0.0 { assert Mul(x, y) == 0.0; }
    else if x == 1.0 { assert Mul(x, y) == y; }
    else if y == 1.0 { assert Mul(x, y) == x; }
  }

  lemma PowerStepSound(x: real, y: real, m: Numerics)
    requires Lawful(m)
    requires !(x == 0.0 && y < 0.0)
    ensures PowerStep(Num(x), Num(y), m) == Ok(Num(m.pow(x, y)))
  {
  }

  lemma LogStepSound(b: real, x: real, m: Numerics)
    requires Lawful(m)
    requires x > 0.0 && b > 0.0 && b != 1.0
    ensures Ops.LogStep(Num(b), Num(x), m) == Ok(Num(m.log(x, b)))
  {
    if x == 1.0 {
    } else if x == b {
      assert m.log(b, b) == 1.0;
    }
  }

  /** A product of two numbers evaluates to their product. */
  lemma ProductEval(a: Expr, b: Expr, env: map<string, real>, m: Numerics, x: real, y: real)
    requires Eval(a, env, m) == Ok(Num(x)) && Eval(b, env, m) == Ok(Num(y))
    ensures Eval(Product(a, b), env, m) == Ok(Num(Mul(x, y)))
  {
    ProductStepSound(x, y, m);
    assert Eval(Product(a, b), env, m) == ProductStep(Num(x), Num(y), m);
  }

  lemma DenoteProduct(a: Expr, b: Expr, env: map<string, real>, m: Numerics)
    requires Denote(a, env, m).Some? && Denote(b, env, m).Some?
    ensures Denote(Product(a, b), env, m) == Some(Mul(Denote(a, env, m).value, Denote(b, env, m).value))
  {
    var x, y := Denote(a, env, m), Denote(b, env, m);
    assert x.Extract() == x.value && y.Extract() == y.value;
  }

  lemma ProductSound(a: Expr, b: Expr, env: map<string, real>, m: Numerics)
    requires Denote(a, env, m).Some? && Denote(b, env, m).Some?
    requires Eval(a, env, m) == Ok(Num(Denote(a, env, m).value))
    requires Eval(b, env, m) == Ok(Num(Denote(b, env, m).value))
    ensures Eval(Product(a, b), env, m) == Ok(Num(Denote(Product(a, b), env, m).value))
  {
    ProductEval(a, b, env, m, Denote(a, env, m).value, Denote(b, env, m).value);
    DenoteProduct(a, b, env, m);
  }

  lemma SumSound(a: Expr, b: Expr, env: map<string, real>, m: Numerics)
    requires Denote(a, env, m).Some? && Denote(b, env, m).Some?
    requires Eval(a, env, m) == Ok(Num(Denote(a, env, m).value))
    requires Eval(b, env, m) == Ok(Num(Denote(b, env, m).value))
    ensures Eval(Sum(a, b), env, m) == Ok(Num(Denote(Sum(a, b), env, m).value))
  {
    var x, y := Denote(a, env, m).value, Denote(b, env, m).value;
    assert Eval(Sum(a, b), env, m) == SumStep(Num(x), Num(y), m);
  }

  lemma DifferenceSound(a: Expr, b: Expr, env: map<string, real>, m: Numerics)
    requires Denote(a, env, m).Some? && Denote(b, env, m).Some?
    requires Eval(a, env, m) == Ok(Num(Denote(a, env, m).value))
    requires Eval(b, env, m) == Ok(Num(Denote(b, env, m).value))
    ensures Eval(Difference(a, b), env, m) == Ok(Num(Denote(Difference(a, b), env, m).value))
  {
    var x, y := Denote(a, env, m).value, Denote(b, env, m).value;
    assert Eval(Difference(a, b), env, m) == DifferenceStep(Num(x), Num(y), m);
  }

  lemma DivisionSound(a: Expr, b: Expr, env: map<string, real>, m: Numerics)
    requires Denote(Division(a, b), env, m).Some?
    requires Eval(a, env, m) == Ok(Num(Denote(a, env, m).value))
    requires Eval(b, env, m) == Ok(Num(Denote(b, env, m).value))
    ensures Eval(Division(a, b), env, m) == Ok(Num(Denote(Division(a, b), env, m).value))
  {
    var x, y := Denote(a, env, m).value, Denote(b, env, m).value;
    assert y != 0.0 && Denote(Division(a, b), env, m).value == Div(x, y);
    assert Eval(Division(a, b), env, m) == DivisionStep(Num(x), Num(y), m);
    if x == 0.0 {
      assert Div(x, y) == 0.0;
    } else if y == 1.0 {
      assert Div(x, y) == x;
    }
  }

  lemma PowerSound(a: Expr, b: Expr, env: map<string, real>, m: Numerics)
    requires Lawful(m)
    requires Denote(Power(a, b), env, m).Some?
    requires Eval(a, env, m) == Ok(Num(Denote(a, env, m).value))
    requires Eval(b, env, m) == Ok(Num(Denote(b, env, m).value))
    ensures Eval(Power(a, b), env, m) == Ok(Num(Denote(Power(a, b), env, m).value))
  {
    var x, y := Denote(a, env, m).value, Denote(b, env, m).value;
    assert Denote(Power(a, b), env, m).value == m.pow(x, y);
    PowerStepSound(x, y, m);
    assert Eval(Power(a, b), env, m) == PowerStep(Num(x), Num(y), m);
  }

  lemma LogSound(args: seq<Expr>, env: map<string, real>, m: Numerics)
    requires Lawful(m)
    requires Denote(Log(args), env, m).Some?
    requires |args| >= 1 && Eval(args[0], env, m) == Ok(Num(Denote(args[0], env, m).value))
    requires |args| >= 2 ==> Eval(args[1], env, m) == Ok(Num(Denote(args[1], env, m).value))
    ensures Eval(Log(args), env, m) == Ok(Num(Denote(Log(args), env, m).value))
  {
    if |args| == 1 {
      var x := Denote(args[0], env, m).value;
      LogStepSound(E, x, m);
      assert Eval(Log(args), env, m) == Ops.LogStep(Num(E), Num(x), m);
    } else {
      var b, x := Denote(args[0], env, m).value, Denote(args[1], env, m).value;
      LogStepSound(b, x, m);
      assert Eval(Log(args), env, m) == Ops.LogStep(Num(b), Num(x), m);
    }
  }

  /** Wherever the reference value is defined, evaluation returns exactly that
      number: every shortcut (0 + r, 0 * r, 0 / r, r / 1, b^0, b^1, 0^p, 1^p,
      log 1, log of the base) agrees with the arithmetic it skips. */
  lemma {:induction false} EvalSound(e: Expr, env: map<string, real>, m: Numerics)
    requires Lawful(m)
    requires Denote(e, env, m).Some?
    ensures Eval(e, env, m) == Ok(Num(Denote(e, env, m).value))
  {
    match e
    case Const(_) =>
    case Var(_) =>
    case Sum(a, b) => EvalSound(a, env, m); EvalSound(b, env, m); SumSound(a, b, env, m);
    case Difference(a, b) => EvalSound(a, env, m); EvalSound(b, env, m); DifferenceSound(a, b, env, m);
    case Product(a, b) => EvalSound(a, env, m); EvalSound(b, env, m); ProductSound(a, b, env, m);
    case Division(a, b) => EvalSound(a, env, m); EvalSound(b, env, m); DivisionSound(a, b, env, m);
    case Power(a, b) => EvalSound(a, env, m); EvalSound(b, env, m); PowerSound(a, b, env, m);
    case Log(args) =>
      EvalSound(args[0], env, m);
      if |args| == 2 {
        EvalSound(args[1], env, m);
      }
      LogSound(args, env, m);
  }

  /** The shortcuts make evaluation more defined than the arithmetic: 0/0 is 0. */
  lemma ZeroOverZero(env: map<string, real>, m: Numerics)
    ensures Denote(Division(Const(0.0), Const(0.0)), env, m).None?
    ensures Eval(Division(Const(0.0), Const(0.0)), env, m) == Ok(Num(0.0))
  {
  }

  lemma {:induction false} LogFreeVarsHead(args: seq<Expr>, i: nat)
    requires i < |args|
    ensures FreeVars(args[i]) <= LogFreeVars(args)
  {
    if i > 0 {
      LogFreeVarsHead(args[1..], i - 1);
    }
  }

  /** Partial evaluation substitutes every bound variable: a symbolic result
      mentions only variables of the input that the bindings leave unbound. */
  lemma {:induction false} EvalEliminatesBound(e: Expr, env: map<string, real>, m: Numerics)
    requires Eval(e, env, m).Ok? && Eval(e, env, m).value.Sym?
    ensures FreeVars(Eval(e, env, m).value.e) <= FreeVars(e) - env.Keys
    decreases e, 0
  {
    match e
    case Const(_) =>
    case Var(_) =>
    case Sum(a, b) => ChildEliminates(a, env, m); ChildEliminates(b, env, m); StepFreeVars(Plus, a, b, env, m);
    case Difference(a, b) => ChildEliminates(a, env, m); ChildEliminates(b, env, m); StepFreeVars(Minus, a, b, env, m);
    case Product(a, b) => ChildEliminates(a, env, m); ChildEliminates(b, env, m); StepFreeVars(Times, a, b, env, m);
    case Division(a, b) => ChildEliminates(a, env, m); ChildEliminates(b, env, m); StepFreeVars(Over, a, b, env, m);
    case Power(a, b) => ChildEliminates(a, env, m); ChildEliminates(b, env, m); StepFreeVars(Raise, a, b, env, m);
    case Log(args) =>
      var k := if |args| == 1 then 0 else 1;
      LogFreeVarsHead(args, k);
      ChildEliminates(args[k], env, m);
      LogStepFreeVars(args, env, m);
  }

  /** A symbolic operator result mentions only the variables of its two
      lifted operands. */
  lemma StepFreeVars(op: Op, a: Expr, b: Expr, env: map<string, real>, m: Numerics)
    requires Eval(Node(op, a, b), env, m).Ok? && Eval(Node(op, a, b), env, m).value.Sym?
    ensures Eval(a, env, m).Ok? && Eval(b, env, m).Ok?
    ensures FreeVars(Eval(Node(op, a, b), env, m).value.e) <=
            FreeVars(Lift(Eval(a, env, m).value)) + FreeVars(Lift(Eval(b, env, m).value))
  {
    var l, r := Eval(a, env, m).value, Eval(b, env, m).value;
    match op
    case Plus => assert Eval(Sum(a, b), env, m) == SumStep(l, r, m);
    case Minus => assert Eval(Difference(a, b), env, m) == DifferenceStep(l, r, m);
    case Times => assert Eval(Product(a, b), env, m) == ProductStep(l, r, m);
    case Over => assert Eval(Division(a, b), env, m) == DivisionStep(l, r, m);
    case Raise => assert Eval(Power(a, b), env, m) == PowerStep(l, r, m);
  }

  /** A symbolic logarithm mentions only the variables of its lifted antilog. */
  lemma LogStepFreeVars(args: seq<Expr>, env: map<string, real>, m: Numerics)
    requires Eval(Log(args), env, m).Ok? && Eval(Log(args), env, m).value.Sym?
    ensures |args| >= 1
    ensures var k := if |args| == 1 then 0 else 1;
            Eval(args[k], env, m).Ok? &&
            FreeVars(Eval(Log(args), env, m).value.e) <= FreeVars(Lift(Eval(args[k], env, m).value))
  {
    var k := if |args| == 1 then 0 else 1;
    var base := if |args| == 1 then Num(E) else Eval(args[0], env, m).value;
    var t := Eval(args[k], env, m).value;
    assert Eval(Log(args), env, m) == Ops.LogStep(base, t, m);
    var r := Eval(Log(args), env, m).value.e;
    assert [t.e][1..] == [];
    assert LogFreeVars([t.e]) == FreeVars(t.e);
    if base.x != E {
      assert [Const(base.x), t.e][1..] == [t.e];
      assert LogFreeVars([Const(base.x), t.e]) == FreeVars(t.e);
    }
  }

  /** The free variables an evaluated child contributes once lifted. */
  lemma {:induction false} ChildEliminates(a: Expr, env: map<string, real>, m: Numerics)
    requires Eval(a, env, m).Ok?
    ensures FreeVars(Lift(Eval(a, env, m).value)) <= FreeVars(a) - env.Keys
    decreases a, 1
  {
    if Eval(a, env, m).value.Sym? { EvalEliminatesBound(a, env, m); }
  }

  /** A symbolic result always mentions some variable. */
  lemma {:induction false} NormalHasVariable(e: Expr)
    requires EvalFacts.Normal(e)
    ensures FreeVars(e) != {}
  {
    match e
    case Var(_) =>
    case Sum(a, b) => if !a.Const? { NormalHasVariable(a); } else { NormalHasVariable(b); }
    case Difference(a, b) => if !a.Const? { NormalHasVariable(a); } else { NormalHasVariable(b); }
    case Product(a, b) => if !a.Const? { NormalHasVariable(a); } else { NormalHasVariable(b); }
    case Division(a, b) => if !a.Const? { NormalHasVariable(a); } else { NormalHasVariable(b); }
    case Power(a, b) => NormalHasVariable(a);
    case Log(args) =>
      if |args| == 1 {
        NormalHasVariable(args[0]);
        LogFreeVarsHead(args, 0);
      } else {
        NormalHasVariable(args[1]);
        LogFreeVarsHead(args, 1);
      }
  }

  /** With every variable of the expression bound, a successful evaluation is a number. */
  lemma ClosedEvalIsNumeric(e: Expr, env: map<string, real>, m: Numerics)
    requires FreeVars(e) <= env.Keys
    requires Eval(e, env, m).Ok?
    ensures Eval(e, env, m).value.Num?
  {
    var t := Eval(e, env, m).value;
    if t.Sym? {
      EvalFacts.EvalResultNormal(e, env, m);
      NormalHasVariable(t.e);
      EvalEliminatesBound(e, env, m);
    }
  }
}
