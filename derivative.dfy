/**
  Symbolic differentiation (the `diff` methods of iota/objects/operator.py and
  iota/objects/ops.py).  Each operator builds its closed-form derivative out
  of its children and their derivatives through the composition layer, and
  the result is then simplified (evaluated without bindings).  The leaves'
  `diff` is not simplified.
*/
module Derivative {
  import opened Wrappers
  import opened Value
  import Variable
  import Ops
  import opened Operator

  /** `l' + r'`: numbers add, otherwise a Sum of the lifted derivatives. */
  function SumRule(dl: Term, dr: Term, m: Numerics): (r: Term)
    ensures dl.Num? && dr.Num? ==> r == Num(dl.x + dr.x)
    ensures dl.Sym? || dr.Sym? ==> r == Sym(Sum(Lift(dl), Lift(dr)))
  {
    Apply(Plus, dl, dr, m).value
  }

  /** `l' - r'`: numbers subtract, otherwise a Difference of the lifted derivatives. */
  function DifferenceRule(dl: Term, dr: Term, m: Numerics): (r: Term)
    ensures dl.Num? && dr.Num? ==> r == Num(dl.x - dr.x)
    ensures dl.Sym? || dr.Sym? ==> r == Sym(Difference(Lift(dl), Lift(dr)))
  {
    Apply(Minus, dl, dr, m).value
  }

  /** The product rule as written, `l * r' + l' * r`. */
  function ProductRule(l: Expr, r: Expr, dl: Term, dr: Term, m: Numerics): (d: Term)
    ensures d == Sym(Sum(Product(l, Lift(dr)), Product(Lift(dl), r)))
  {
    var first := Apply(Times, Sym(l), dr, m).value;
    var second := Apply(Times, dl, Sym(r), m).value;
    Apply(Plus, first, second, m).value
  }

  /** The quotient rule as written, `(r * l' - l * r') / (r * r)`. */
  function QuotientRule(l: Expr, r: Expr, dl: Term, dr: Term, m: Numerics): (d: Term)
    ensures d == Sym(Division(Difference(Product(r, Lift(dl)), Product(l, Lift(dr))), Product(r, r)))
  {
    var first := Apply(Times, Sym(r), dl, m).value;
    var second := Apply(Times, Sym(l), dr, m).value;
    var numerator := Apply(Minus, first, second, m).value;
    var denominator := Apply(Times, Sym(r), Sym(r), m).value;
    Apply(Over, numerator, denominator, m).value
  }

  /** The generalised power rule, `f^g * (g' * ln(f) + g * f' / f)`, correct for
      a symbolic exponent as well as a constant one. */
  function PowerRule(f: Expr, g: Expr, df: Term, dg: Term, m: Numerics): (d: Term)
    ensures d == Sym(Product(Power(f, g), Sum(Product(Lift(dg), Log([f])), Division(Product(g, Lift(df)), f))))
  {
    var lnF := ConstructLog([Sym(f)]);
    assert MakeConstants([Sym(f)]) == [f];
    var logTerm := Apply(Times, dg, Sym(lnF), m).value;
    var ratio := Apply(Over, Apply(Times, Sym(g), df, m).value, Sym(f), m).value;
    var inner := Apply(Plus, logTerm, ratio, m).value;
    Apply(Times, Sym(Power(f, g)), inner, m).value
  }

  /** `diff(wrt)`.  Children are differentiated in the order the source's
      expressions name them; any failure, including one raised while
      simplifying, is the failure of the whole derivative. */
  function Diff(e: Expr, wrt: string, m: Numerics): (r: Outcome<Term>)
    ensures e.Const? ==> r == Ok(Num(0.0))
    ensures e.Var? ==> r == Ok(Num(if e.name == wrt then 1.0 else 0.0))
    ensures e.Log? && |e.args| == 0 ==> r == Err(IndexOutOfRange)
    ensures e.Log? && |e.args| >= 2 && Eval(e.args[0], map[], m).Ok? && Eval(e.args[0], map[], m).value.Sym? ==>
              r == Err(NotImplemented)
    ensures e.Log? && |e.args| >= 2 && Eval(e.args[0], map[], m).Ok? && Eval(e.args[0], map[], m).value.Num? &&
            Eval(e.args[0], map[], m).value.x <= 0.0 && Diff(e.args[1], wrt, m).Ok? ==>
              r == Err(MathDomain)
  {
    match e
    case Const(v) => Ok(Variable.ConstDiff(v, wrt))
    case Var(n) => Ok(Variable.VarDiff(n, wrt))
    case Sum(a, b) =>
      var da :- Diff(a, wrt, m);
      var db :- Diff(b, wrt, m);
      Simplify(SumRule(da, db, m), m)
    case Difference(a, b) =>
      var da :- Diff(a, wrt, m);
      var db :- Diff(b, wrt, m);
      Simplify(DifferenceRule(da, db, m), m)
    case Product(a, b) =>
      var db :- Diff(b, wrt, m);
      var da :- Diff(a, wrt, m);
      Simplify(ProductRule(a, b, da, db, m), m)
    case Division(a, b) =>
      var da :- Diff(a, wrt, m);
      var db :- Diff(b, wrt, m);
      Simplify(QuotientRule(a, b, da, db, m), m)
    case Power(f, g) =>
      var dg :- Diff(g, wrt, m);
      var df :- Diff(f, wrt, m);
      Simplify(PowerRule(f, g, df, dg, m), m)
    case Log(args) =>
      if |args| == 1 then
        // the natural log: math.log(math.e) is exactly 1.0
        var da :- Diff(args[0], wrt, m);
        Simplify(Ops.LogQuotient(da, 1.0, args[0], m).value, m)
      else if |args| == 0 then
        Err(IndexOutOfRange)
      else
        var base :- Eval(args[0], map[], m);
        if base.Sym? then Err(NotImplemented)
        else
          var da :- Diff(args[1], wrt, m);
          // math.log(base) raises ValueError for a base that is not positive
          if base.x <= 0.0 then Err(MathDomain)
          else Simplify(Ops.LogQuotient(da, m.ln(base.x), args[1], m).value, m)
  }
}
