/**
  What repeated simplification does.  Because `Sum.eval` rebuilds a symbolic
  sum as `right + left`, evaluating a symbolic result again mirrors every Sum
  in it; a second re-evaluation restores it.  So `simplify` is not idempotent,
  but it has period two on its own results.
*/
module EvalFacts {
  import opened Wrappers
  import opened Value
  import opened Operator
  import Ops

  /** A child that a rebuild lifted: a Constant other than the excluded
      numbers, or a normal tree (`childOk` is that child's normality). */
  predicate Arg(c: Expr, childOk: bool, excluded: set<real>) {
    if c.Const? then c.val !in excluded else childOk
  }

  /** The shape of every symbolic evaluation result. */
  predicate Normal(e: Expr) {
    match e
    case Const(_) => false
    case Var(_) => true
    case Sum(a, b) => Arg(a, Normal(a), {0.0}) && Arg(b, Normal(b), {0.0}) && !(a.Const? && b.Const?)
    case Difference(a, b) => Arg(a, Normal(a), {0.0}) && Arg(b, Normal(b), {0.0}) && !(a.Const? && b.Const?)
    case Product(a, b) =>
      Arg(a, Normal(a), {0.0, 1.0}) && Arg(b, Normal(b), {0.0, 1.0}) && !(a.Const? && b.Const?)
    case Division(a, b) =>
      Arg(a, Normal(a), {0.0}) && Arg(b, Normal(b), {0.0, 1.0}) && !(a.Const? && b.Const?)
    case Power(a, b) => Normal(a) && Arg(b, Normal(b), {0.0, 1.0})
    case Log(args) =>
      (|args| == 1 && Normal(args[0])) ||
      (|args| == 2 && args[0].Const? && args[0].val != E && Normal(args[1]))
  }

  /** An evaluation result: a number, or a normal tree. */
  predicate ResultOk(t: Term) {
    t.Num? || Normal(t.e)
  }

  /** Every Sum's operands swapped, all the way down. */
  function Mirror(e: Expr): Expr {
    match e
    case Const(_) => e
    case Var(_) => e
    case Sum(a, b) => Sum(Mirror(b), Mirror(a))
    case Difference(a, b) => Difference(Mirror(a), Mirror(b))
    case Product(a, b) => Product(Mirror(a), Mirror(b))
    case Division(a, b) => Division(Mirror(a), Mirror(b))
    case Power(a, b) => Power(Mirror(a), Mirror(b))
    case Log(args) =>
      if |args| == 1 then Log([Mirror(args[0])])
      else if |args| == 2 then Log([Mirror(args[0]), Mirror(args[1])])
      else e
  }

  lemma {:induction false} MirrorInvolutive(e: Expr)
    ensures Mirror(Mirror(e)) == e
  {
    match e
    case Const(_) =>
    case Var(_) =>
    case Sum(a, b) => MirrorInvolutive(a); MirrorInvolutive(b);
    case Difference(a, b) => MirrorInvolutive(a); MirrorInvolutive(b);
    case Product(a, b) => MirrorInvolutive(a); MirrorInvolutive(b);
    case Division(a, b) => MirrorInvolutive(a); MirrorInvolutive(b);
    case Power(a, b) => MirrorInvolutive(a); MirrorInvolutive(b);
    case Log(args) =>
      if |args| == 1 {
        MirrorInvolutive(args[0]);
        assert [args[0]] == args;
      } else if |args| == 2 {
        MirrorInvolutive(args[0]);
        MirrorInvolutive(args[1]);
        assert [args[0], args[1]] == args;
      }
  }

  lemma {:induction false} MirrorNormal(e: Expr)
    requires Normal(e)
    ensures Normal(Mirror(e))
  {
    match e
    case Var(_) =>
    case Sum(a, b) => if !a.Const? { MirrorNormal(a); } if !b.Const? { MirrorNormal(b); }
    case Difference(a, b) => if !a.Const? { MirrorNormal(a); } if !b.Const? { MirrorNormal(b); }
    case Product(a, b) => if !a.Const? { MirrorNormal(a); } if !b.Const? { MirrorNormal(b); }
    case Division(a, b) => if !a.Const? { MirrorNormal(a); } if !b.Const? { MirrorNormal(b); }
    case Power(a, b) => MirrorNormal(a); if !b.Const? { MirrorNormal(b); }
    case Log(args) =>
      if |args| == 1 { MirrorNormal(args[0]); } else { MirrorNormal(args[1]); }
  }

  /** Evaluating a lifted child of a normal tree again, without bindings. */
  lemma {:induction false} ArgReEval(c: Expr, excluded: set<real>, m: Numerics)
    requires Arg(c, Normal(c), excluded)
    ensures Eval(c, map[], m).Ok?
    ensures var t := Eval(c, map[], m).value;
            Lift(t) == Mirror(c) && (c.Const? <==> t.Num?) && (t.Num? ==> t.x !in excluded)
    decreases c, 1
  {
    if !c.Const? {
      NormalReEval(c, m);
    }
  }

  /** A normal tree re-evaluated without bindings comes back mirrored. */
  lemma {:induction false} NormalReEval(e: Expr, m: Numerics)
    requires Normal(e)
    ensures Eval(e, map[], m) == Ok(Sym(Mirror(e)))
    decreases e, 0
  {
    match e
    case Var(_) =>
    case Sum(a, b) => ArgReEval(a, {0.0}, m); ArgReEval(b, {0.0}, m);
    case Difference(a, b) => ArgReEval(a, {0.0}, m); ArgReEval(b, {0.0}, m);
    case Product(a, b) => ArgReEval(a, {0.0, 1.0}, m); ArgReEval(b, {0.0, 1.0}, m);
    case Division(a, b) => ArgReEval(a, {0.0}, m); ArgReEval(b, {0.0, 1.0}, m);
    case Power(a, b) => NormalReEval(a, m); ArgReEval(b, {0.0, 1.0}, m);
    case Log(args) =>
      if |args| == 1 {
        NormalReEval(args[0], m);
      } else {
        NormalReEval(args[1], m);
      }
  }

  /** Every symbolic result of `eval`, with any bindings, is normal. */
  lemma {:induction false} EvalResultNormal(e: Expr, env: map<string, real>, m: Numerics)
    requires Eval(e, env, m).Ok?
    ensures ResultOk(Eval(e, env, m).value)
  {
    match e
    case Const(_) =>
    case Var(_) =>
    case Sum(a, b) => StepNormal(Plus, a, b, env, m); EvalResultNormal(a, env, m); EvalResultNormal(b, env, m);
    case Difference(a, b) => StepNormal(Minus, a, b, env, m); EvalResultNormal(a, env, m); EvalResultNormal(b, env, m);
    case Product(a, b) => StepNormal(Times, a, b, env, m); EvalResultNormal(a, env, m); EvalResultNormal(b, env, m);
    case Division(a, b) => StepNormal(Over, a, b, env, m); EvalResultNormal(a, env, m); EvalResultNormal(b, env, m);
    case Power(a, b) => StepNormal(Raise, a, b, env, m); EvalResultNormal(a, env, m); EvalResultNormal(b, env, m);
    case Log(args) =>
      LogNormal(args, env, m);
      EvalResultNormal(args[if |args| == 1 then 0 else 1], env, m);
  }

  /** An operator node whose operands evaluate to results gives a result. */
  lemma StepNormal(op: Op, a: Expr, b: Expr, env: map<string, real>, m: Numerics)
    requires Eval(Node(op, a, b), env, m).Ok?
    ensures Eval(a, env, m).Ok? && Eval(b, env, m).Ok?
    ensures ResultOk(Eval(a, env, m).value) && ResultOk(Eval(b, env, m).value) ==>
            ResultOk(Eval(Node(op, a, b), env, m).value)
  {
    var l, r := Eval(a, env, m).value, Eval(b, env, m).value;
    match op
    case Plus => assert Eval(Sum(a, b), env, m) == SumStep(l, r, m);
    case Minus => assert Eval(Difference(a, b), env, m) == DifferenceStep(l, r, m);
    case Times => assert Eval(Product(a, b), env, m) == ProductStep(l, r, m);
    case Over => assert Eval(Division(a, b), env, m) == DivisionStep(l, r, m);
    case Raise => assert Eval(Power(a, b), env, m) == PowerStep(l, r, m);
  }

  /** A logarithm whose antilog evaluates to a result gives a result. */
  lemma LogNormal(args: seq<Expr>, env: map<string, real>, m: Numerics)
    requires Eval(Log(args), env, m).Ok?
    ensures |args| >= 1
    ensures var k := if |args| == 1 then 0 else 1;
            Eval(args[k], env, m).Ok? &&
            (ResultOk(Eval(args[k], env, m).value) ==> ResultOk(Eval(Log(args), env, m).value))
  {
    var k := if |args| == 1 then 0 else 1;
    var base := if |args| == 1 then Num(E) else Eval(args[0], env, m).value;
    assert Eval(Log(args), env, m) == Ops.LogStep(base, Eval(args[k], env, m).value, m);
  }

  /** A literal zero on either side of a Sum changes nothing: the sum evaluates
      exactly as the other operand does, failure included. */
  lemma SumZeroIdentity(e: Expr, env: map<string, real>, m: Numerics)
    ensures Eval(Sum(e, Const(0.0)), env, m) == Eval(e, env, m)
    ensures Eval(Sum(Const(0.0), e), env, m) == Eval(e, env, m)
  {
    if Eval(e, env, m).Ok? {
      var t := Eval(e, env, m).value;
      assert Eval(Sum(e, Const(0.0)), env, m) == SumStep(t, Num(0.0), m);
      assert Eval(Sum(Const(0.0), e), env, m) == SumStep(Num(0.0), t, m);
    }
  }

  /** A literal zero denominator fails with ZeroDivision unless the numerator
      evaluates to 0, which is tested first. */
  lemma DivisionByZero(e: Expr, env: map<string, real>, m: Numerics)
    requires Eval(e, env, m).Ok?
    ensures Eval(Division(e, Const(0.0)), env, m) ==
            if IsNum(Eval(e, env, m).value, 0.0) then Ok(Num(0.0)) else Err(ZeroDivision)
  {
    assert Eval(Division(e, Const(0.0)), env, m) == DivisionStep(Eval(e, env, m).value, Num(0.0), m);
  }

  /** Simplifying a simplified result mirrors its Sums, and simplifying once
      more gives back the first result: `simplify` has period two. */
  lemma SimplifyPeriodTwo(t: Term, m: Numerics)
    requires Simplify(t, m).Ok?
    ensures var once := Simplify(t, m).value;
            && Simplify(once, m) == Ok(if once.Num? then once else Sym(Mirror(once.e)))
            && Simplify(Simplify(once, m).value, m) == Ok(once)
  {
    var once := Simplify(t, m).value;
    if t.Sym? {
      EvalResultNormal(t.e, map[], m);
    }
    if once.Sym? {
      NormalReEval(once.e, m);
      MirrorNormal(once.e);
      NormalReEval(Mirror(once.e), m);
      MirrorInvolutive(once.e);
    }
  }

  /** `simplify` is not idempotent: x + y simplifies to y + x and back again. */
  lemma SimplifyNotIdempotent(m: Numerics)
    ensures Simplify(Sym(Sum(Var("x"), Var("y"))), m) == Ok(Sym(Sum(Var("y"), Var("x"))))
    ensures Simplify(Sym(Sum(Var("y"), Var("x"))), m) == Ok(Sym(Sum(Var("x"), Var("y"))))
  {
    NormalReEval(Sum(Var("x"), Var("y")), m);
    NormalReEval(Sum(Var("y"), Var("x")), m);
  }

  /** `math.log` outside its domain: base 1 divides by `log(1) == 0`, a
      negative antilog is a ValueError, but the antilog-equals-base shortcut
      answers 1 before `math.log` is reached. */
  lemma LogOutsideDomain(m: Numerics)
    ensures Eval(Log([Const(1.0), Const(5.0)]), map[], m) == Err(ZeroDivision)
    ensures Eval(Log([Const(-2.0)]), map[], m) == Err(MathDomain)
    ensures Eval(Log([Const(-2.0), Const(-2.0)]), map[], m) == Ok(Num(1.0))
  {
    assert Eval(Const(-2.0), map[], m) == Ok(Num(-2.0));
  }
}
