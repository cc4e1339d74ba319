/**
  The earliest engine, src/exp/variable.py: the same leaves and composition
  layer, but no Logarithm, no derivatives, an evaluator that is plain Python
  arithmetic on the children's results (no zero or one shortcuts), operator
  constructors that do not lift numbers, and a printer that holds both
  children to the parent's own precedence and always adds the parentheses.
*/
module Earliest {
  import opened Wrappers
  import opened Value
  import Variable
  import Printer
  import Operator
  import Semantics

  /** The trees that engine can build: no Logarithm anywhere. */
  predicate LogFree(e: Expr) {
    match e
    case Const(_) => true
    case Var(_) => true
    case Sum(a, b) => LogFree(a) && LogFree(b)
    case Difference(a, b) => LogFree(a) && LogFree(b)
    case Product(a, b) => LogFree(a) && LogFree(b)
    case Division(a, b) => LogFree(a) && LogFree(b)
    case Power(a, b) => LogFree(a) && LogFree(b)
    case Log(_) => false
  }

  /** `Sum(*vals)` and the other BinaryOperator constructors of this engine:
      the children are stored as given and exactly two are demanded. */
  function PlainConstruct(op: Op, vals: seq<Expr>): (r: Outcome<Expr>)
    ensures r.Ok? <==> |vals| == 2
    ensures r.Err? ==> r.error == Arity
    ensures r.Ok? ==> OpOf(r.value) == Some(op) && Children(r.value) == vals
  {
    if |vals| != 2 then Err(Arity) else Ok(Node(op, vals[0], vals[1]))
  }

  /** `eval(val_dict)`: `left <op> right` on the children's results, left first.
      A number result is the reference value (`PlainEvalIsDenotation`). */
  function PlainEval(e: Expr, env: map<string, real>, m: Numerics): (r: Outcome<Term>)
    requires LogFree(e)
    ensures r.Err? ==> r.error == ZeroDivision || r.error == NoReflectedPow
    ensures FreeVars(e) <= env.Keys && r.Ok? ==> r.value.Num?
  {
    match e
    case Const(v) => Ok(Variable.ConstEval(v, env))
    case Var(n) => Ok(Variable.VarEval(n, env))
    case Sum(a, b) =>
      var l :- PlainEval(a, env, m); var r :- PlainEval(b, env, m); Apply(Plus, l, r, m)
    case Difference(a, b) =>
      var l :- PlainEval(a, env, m); var r :- PlainEval(b, env, m); Apply(Minus, l, r, m)
    case Product(a, b) =>
      var l :- PlainEval(a, env, m); var r :- PlainEval(b, env, m); Apply(Times, l, r, m)
    case Division(a, b) =>
      var l :- PlainEval(a, env, m); var r :- PlainEval(b, env, m); Apply(Over, l, r, m)
    case Power(a, b) =>
      var l :- PlainEval(a, env, m); var r :- PlainEval(b, env, m); Apply(Raise, l, r, m)
  }

  /** `str(e)` of this engine: both children of a binary node are held to the
      parent's precedence; Power is `base^exp` with both sides held to 2. */
  function PlainRender(e: Expr, show: real -> string): (r: string)
    requires LogFree(e)
    ensures e.Const? ==> r == show(e.val)
    ensures e.Var? ==> r == e.name
    ensures Printer.IsOperator(e) ==> |r| > 0
  {
    match e
    case Const(v) => Variable.ConstRender(v, show)
    case Var(n) => Variable.VarRender(n)
    case Sum(a, b) => PlainInfix(e, PlainRender(a, show), PlainRender(b, show), "+")
    case Difference(a, b) => PlainInfix(e, PlainRender(a, show), PlainRender(b, show), "-")
    case Product(a, b) => PlainInfix(e, PlainRender(a, show), PlainRender(b, show), "*")
    case Division(a, b) => PlainInfix(e, PlainRender(a, show), PlainRender(b, show), "/")
    case Power(a, b) =>
      Printer.Wrap(a, PlainRender(a, show), 2.0) + "^" + Printer.Wrap(b, PlainRender(b, show), 2.0)
  }

  function PlainInfix(parent: Expr, ls: string, rs: string, symbol: string): (s: string)
    requires parent.Sum? || parent.Difference? || parent.Product? || parent.Division?
    ensures |s| > 0
  {
    var p := Printer.Precedence(parent);
    Printer.Spaced(Printer.Wrap(parent.left, ls, p), symbol, Printer.Wrap(parent.right, rs, p))
  }

  /** Plain evaluation yields a number exactly when the reference value is
      defined, and then yields that value. */
  ghost predicate Agrees(e: Expr, env: map<string, real>, m: Numerics)
    requires LogFree(e)
  {
    && (PlainEval(e, env, m).Ok? && PlainEval(e, env, m).value.Num? <==> Semantics.Denote(e, env, m).Some?)
    && (Semantics.Denote(e, env, m).Some? ==> PlainEval(e, env, m) == Ok(Num(Semantics.Denote(e, env, m).value)))
  }

  lemma TimesIsProduct(x: real, y: real, m: Numerics)
    ensures NumericOp(Times, x, y, m) == Ok(Num(Mul(x, y)))
  {
  }

  /** One binary node agrees once both of its children do. */
  lemma SumAgrees(a: Expr, b: Expr, env: map<string, real>, m: Numerics)
    requires LogFree(a) && LogFree(b)
    requires Agrees(a, env, m) && Agrees(b, env, m)
    ensures LogFree(Sum(a, b)) && Agrees(Sum(a, b), env, m)
  {
    if Semantics.Denote(a, env, m).Some? && Semantics.Denote(b, env, m).Some? {
      var x, y := Semantics.Denote(a, env, m).value, Semantics.Denote(b, env, m).value;
      assert PlainEval(Sum(a, b), env, m) == Apply(Plus, Num(x), Num(y), m);
    }
  }

  lemma DifferenceAgrees(a: Expr, b: Expr, env: map<string, real>, m: Numerics)
    requires LogFree(a) && LogFree(b)
    requires Agrees(a, env, m) && Agrees(b, env, m)
    ensures LogFree(Difference(a, b)) && Agrees(Difference(a, b), env, m)
  {
    if Semantics.Denote(a, env, m).Some? && Semantics.Denote(b, env, m).Some? {
      var x, y := Semantics.Denote(a, env, m).value, Semantics.Denote(b, env, m).value;
      assert PlainEval(Difference(a, b), env, m) == Apply(Minus, Num(x), Num(y), m);
    }
  }

  lemma DivisionAgrees(a: Expr, b: Expr, env: map<string, real>, m: Numerics)
    requires LogFree(a) && LogFree(b)
    requires Agrees(a, env, m) && Agrees(b, env, m)
    ensures LogFree(Division(a, b)) && Agrees(Division(a, b), env, m)
  {
    if Semantics.Denote(a, env, m).Some? && Semantics.Denote(b, env, m).Some? {
      var x, y := Semantics.Denote(a, env, m).value, Semantics.Denote(b, env, m).value;
      assert PlainEval(Division(a, b), env, m) == Apply(Over, Num(x), Num(y), m);
    }
  }

  lemma PowerAgrees(a: Expr, b: Expr, env: map<string, real>, m: Numerics)
    requires LogFree(a) && LogFree(b)
    requires Agrees(a, env, m) && Agrees(b, env, m)
    ensures LogFree(Power(a, b)) && Agrees(Power(a, b), env, m)
  {
    if Semantics.Denote(a, env, m).Some? && Semantics.Denote(b, env, m).Some? {
      var x, y := Semantics.Denote(a, env, m).value, Semantics.Denote(b, env, m).value;
      assert PlainEval(Power(a, b), env, m) == Apply(Raise, Num(x), Num(y), m);
    }
  }

  lemma ProductAgrees(a: Expr, b: Expr, env: map<string, real>, m: Numerics)
    requires LogFree(a) && LogFree(b)
    requires Agrees(a, env, m) && Agrees(b, env, m)
    ensures LogFree(Product(a, b)) && Agrees(Product(a, b), env, m)
  {
    if Semantics.Denote(a, env, m).Some? && Semantics.Denote(b, env, m).Some? {
      var x, y := Semantics.Denote(a, env, m).value, Semantics.Denote(b, env, m).value;
      assert PlainEval(Product(a, b), env, m) == Apply(Times, Num(x), Num(y), m);
      TimesIsProduct(x, y, m);
      Semantics.DenoteProduct(a, b, env, m);
    }
  }

  lemma {:induction false} PlainEvalAgrees(e: Expr, env: map<string, real>, m: Numerics)
    requires LogFree(e)
    ensures Agrees(e, env, m)
  {
    match e
    case Const(_) =>
    case Var(_) =>
    case Sum(a, b) => PlainEvalAgrees(a, env, m); PlainEvalAgrees(b, env, m); SumAgrees(a, b, env, m);
    case Difference(a, b) => PlainEvalAgrees(a, env, m); PlainEvalAgrees(b, env, m); DifferenceAgrees(a, b, env, m);
    case Product(a, b) => PlainEvalAgrees(a, env, m); PlainEvalAgrees(b, env, m); ProductAgrees(a, b, env, m);
    case Division(a, b) => PlainEvalAgrees(a, env, m); PlainEvalAgrees(b, env, m); DivisionAgrees(a, b, env, m);
    case Power(a, b) => PlainEvalAgrees(a, env, m); PlainEvalAgrees(b, env, m); PowerAgrees(a, b, env, m);
  }

  /** A number comes out of plain evaluation exactly when the reference value
      is defined, and it is that value. */
  lemma PlainEvalIsDenotation(e: Expr, env: map<string, real>, m: Numerics, x: real)
    requires LogFree(e)
    ensures PlainEval(e, env, m) == Ok(Num(x)) <==> Semantics.Denote(e, env, m) == Some(x)
  {
    PlainEvalAgrees(e, env, m);
  }

  /** The shortcuts of the later engine never change a number the plain
      evaluator produces, given the identities of `**` they rely on. */
  lemma ShortcutsKeepPlainNumbers(e: Expr, env: map<string, real>, m: Numerics, x: real)
    requires LogFree(e)
    requires Semantics.Lawful(m)
    requires PlainEval(e, env, m) == Ok(Num(x))
    ensures Operator.Eval(e, env, m) == Ok(Num(x))
  {
    PlainEvalIsDenotation(e, env, m, x);
    Semantics.EvalSound(e, env, m);
  }

  /** ...but they do decide more: 0 * y is 0 there, and stays a tree here. */
  lemma ShortcutsDecideMore(m: Numerics)
    ensures Operator.Eval(Product(Const(0.0), Var("y")), map[], m) == Ok(Num(0.0))
    ensures PlainEval(Product(Const(0.0), Var("y")), map[], m) == Ok(Sym(Product(Const(0.0), Var("y"))))
  {
  }

  /** Both operands are held to the parent's own precedence, so a right operand
      of the same or higher precedence is printed bare, as the tail of the text. */
  lemma PlainRightOperandBare(e: Expr, show: real -> string)
    requires e.Sum? || e.Difference? || e.Product? || e.Division?
    requires LogFree(e)
    requires Printer.Precedence(e.right) >= Printer.Precedence(e)
    ensures var r, rs := PlainRender(e, show), PlainRender(e.right, show);
            |rs| <= |r| && r[|r| - |rs|..] == rs
  {
    var ls, rs := PlainRender(e.left, show), PlainRender(e.right, show);
    var p := Printer.Precedence(e);
    var symbol := match e case Sum(_, _) => "+" case Difference(_, _) => "-" case Product(_, _) => "*" case Division(_, _) => "/";
    assert PlainRender(e, show) == PlainInfix(e, ls, rs, symbol);
    assert Printer.Wrap(e.right, rs, p) == rs;
    Printer.SpacedEndsWith(Printer.Wrap(e.left, ls, p), symbol, rs);
  }

  /** Without the +0.1 on the right, `a - (b - c)` prints exactly like
      `a - b - c`: neither difference is wrapped. */
  lemma PlainPrinterLosesGrouping(a: real, b: real, c: real, show: real -> string)
    ensures LogFree(Difference(Const(a), Difference(Const(b), Const(c))))
    ensures LogFree(Difference(Difference(Const(a), Const(b)), Const(c)))
    ensures PlainRender(Difference(Const(a), Difference(Const(b), Const(c))), show) ==
            Printer.Spaced(Printer.Spaced(show(a), "-", show(b)), "-", show(c))
    ensures PlainRender(Difference(Difference(Const(a), Const(b)), Const(c)), show) ==
            Printer.Spaced(Printer.Spaced(show(a), "-", show(b)), "-", show(c))
  {
    var sa, sb, sc := show(a), show(b), show(c);
    var inner := Difference(Const(b), Const(c));
    assert PlainRender(Const(a), show) == sa && PlainRender(Const(c), show) == sc;
    assert PlainRender(inner, show) == Printer.Spaced(sb, "-", sc);
    assert Printer.Wrap(inner, Printer.Spaced(sb, "-", sc), 0.0) == Printer.Spaced(sb, "-", sc);
    assert PlainRender(Difference(Const(a), inner), show) == Printer.Spaced(sa, "-", Printer.Spaced(sb, "-", sc));
    assert sa + " " + "-" + " " + (sb + " " + "-" + " " + sc) == sa + " " + "-" + " " + sb + " " + "-" + " " + sc;
  }
}
