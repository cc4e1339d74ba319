/**
  Partial evaluation (iota/objects/operator.py, with Logarithm from
  iota/objects/ops.py).  Every operator node evaluates both children first,
  left then right, and then applies its zero/one shortcuts in a fixed order
  before falling back to Python arithmetic, which rebuilds a node when either
  side is still symbolic.
*/
module Operator {
  import opened Wrappers
  import opened Value
  import Variable
  import Ops

  /** `Sum.eval` after the children: left 0 gives right, else right 0 gives
      left, else `right + left` -- so a symbolic sum is rebuilt mirrored. */
  function SumStep(l: Term, r: Term, m: Numerics): (res: Outcome<Term>)
    ensures IsNum(l, 0.0) ==> res == Ok(r)
    ensures !IsNum(l, 0.0) && IsNum(r, 0.0) ==> res == Ok(l)
    ensures !IsNum(l, 0.0) && !IsNum(r, 0.0) ==>
              res == Ok(if l.Num? && r.Num? then Num(l.x + r.x) else Sym(Sum(Lift(r), Lift(l))))
  {
    if IsNum(l, 0.0) then Ok(r)
    else if IsNum(r, 0.0) then Ok(l)
    else Apply(Plus, r, l, m)
  }

  /** `Difference.eval` after the children: left 0 gives the negated right
      (a TypeError when the right is symbolic), else right 0 gives left, else
      `left - right`. */
  function DifferenceStep(l: Term, r: Term, m: Numerics): (res: Outcome<Term>)
    ensures res.Err? <==> IsNum(l, 0.0) && r.Sym?
    ensures res.Err? ==> res.error == NoNegation
    ensures IsNum(l, 0.0) && r.Num? ==> res.value == Num(-r.x)
    ensures !IsNum(l, 0.0) && IsNum(r, 0.0) ==> res.value == l
    ensures !IsNum(l, 0.0) && !IsNum(r, 0.0) ==>
              res.value == if l.Num? && r.Num? then Num(l.x - r.x) else Sym(Difference(Lift(l), Lift(r)))
  {
    if IsNum(l, 0.0) then Negate(r)
    else if IsNum(r, 0.0) then Ok(l)
    else Apply(Minus, l, r, m)
  }

  /** `Product.eval` after the children: either side 0 gives 0, else left 1
      gives right, else right 1 gives left, else `left * right`. */
  function ProductStep(l: Term, r: Term, m: Numerics): (res: Outcome<Term>)
    ensures res.Ok?
    ensures IsNum(l, 0.0) || IsNum(r, 0.0) ==> res.value == Num(0.0)
    ensures !IsNum(l, 0.0) && !IsNum(r, 0.0) && IsNum(l, 1.0) ==> res.value == r
    ensures !IsNum(l, 0.0) && !IsNum(r, 0.0) && !IsNum(l, 1.0) && IsNum(r, 1.0) ==> res.value == l
    ensures !IsNum(l, 0.0) && !IsNum(r, 0.0) && !IsNum(l, 1.0) && !IsNum(r, 1.0) ==>
              res.value == if l.Num? && r.Num? then Num(Mul(l.x, r.x)) else Sym(Product(Lift(l), Lift(r)))
  {
    if IsNum(l, 0.0) || IsNum(r, 0.0) then Ok(Num(0.0))
    else if IsNum(l, 1.0) then Ok(r)
    else if IsNum(r, 1.0) then Ok(l)
    else Apply(Times, l, r, m)
  }

  /** `Division.eval` after the children: a zero numerator gives 0 and is
      tested first (so 0/0 is 0), a zero denominator raises, denominator 1
      gives the numerator, else `left / right`. */
  function DivisionStep(l: Term, r: Term, m: Numerics): (res: Outcome<Term>)
    ensures res.Err? <==> !IsNum(l, 0.0) && IsNum(r, 0.0)
    ensures res.Err? ==> res.error == ZeroDivision
    ensures IsNum(l, 0.0) ==> res.value == Num(0.0)
    ensures !IsNum(l, 0.0) && IsNum(r, 1.0) ==> res.value == l
    ensures !IsNum(l, 0.0) && !IsNum(r, 0.0) && !IsNum(r, 1.0) ==>
              res.value == if l.Num? && r.Num? then Num(Div(l.x, r.x)) else Sym(Division(Lift(l), Lift(r)))
  {
    if IsNum(l, 0.0) then Ok(Num(0.0))
    else if IsNum(r, 0.0) then Err(ZeroDivision)
    else if IsNum(r, 1.0) then Ok(l)
    else Apply(Over, l, r, m)
  }

  /** `Power.eval` after the children: exponent 0 gives 1 (0^0 included),
      exponent 1 gives the base, base 0 or 1 gives the base, else
      `base ** exponent`, which fails for a numeric base and symbolic exponent. */
  function PowerStep(base: Term, power: Term, m: Numerics): (res: Outcome<Term>)
    ensures IsNum(power, 0.0) ==> res == Ok(Num(1.0))
    ensures !IsNum(power, 0.0) && IsNum(power, 1.0) ==> res == Ok(base)
    ensures !IsNum(power, 0.0) && !IsNum(power, 1.0) && (IsNum(base, 0.0) || IsNum(base, 1.0)) ==> res == Ok(base)
    ensures res.Err? <==>
              (base.Num? && base.x != 0.0 && base.x != 1.0 && power.Sym?)
    ensures res.Err? ==> res.error == NoReflectedPow
    ensures base.Sym? && !IsNum(power, 0.0) && !IsNum(power, 1.0) ==> res == Ok(Sym(Power(base.e, Lift(power))))
    ensures base.Num? && power.Num? && base.x != 0.0 && base.x != 1.0 && power.x != 0.0 && power.x != 1.0 ==>
              res == Ok(Num(m.pow(base.x, power.x)))
  {
    if IsNum(power, 0.0) then Ok(Num(1.0))
    else if IsNum(power, 1.0) then Ok(base)
    else if IsNum(base, 0.0) || IsNum(base, 1.0) then Ok(base)
    else Apply(Raise, base, power, m)
  }

  /** `eval(val_dict)`.  Bindings map names to numbers; no bindings at all
      behaves as the empty map.  A result is never a bare Constant node, which is
      why `IsNum` is the right reading of the source's `== 0.` tests. */
  function Eval(e: Expr, env: map<string, real>, m: Numerics): (r: Outcome<Term>)
    ensures r.Ok? && r.value.Sym? ==> !r.value.e.Const?
  {
    match e
    case Const(v) => Ok(Variable.ConstEval(v, env))
    case Var(n) => Ok(Variable.VarEval(n, env))
    case Sum(a, b) =>
      var l :- Eval(a, env, m);
      var r :- Eval(b, env, m);
      SumStep(l, r, m)
    case Difference(a, b) =>
      var l :- Eval(a, env, m);
      var r :- Eval(b, env, m);
      DifferenceStep(l, r, m)
    case Product(a, b) =>
      var l :- Eval(a, env, m);
      var r :- Eval(b, env, m);
      ProductStep(l, r, m)
    case Division(a, b) =>
      var l :- Eval(a, env, m);
      var r :- Eval(b, env, m);
      DivisionStep(l, r, m)
    case Power(a, b) =>
      var base :- Eval(a, env, m);
      var power :- Eval(b, env, m);
      PowerStep(base, power, m)
    case Log(args) =>
      if |args| == 1 then
        var antilog :- Eval(args[0], env, m);
        Ops.LogStep(Num(E), antilog, m)
      else if |args| == 0 then
        Err(IndexOutOfRange)
      else
        var base :- Eval(args[0], env, m);
        var antilog :- Eval(args[1], env, m);
        Ops.LogStep(base, antilog, m)
  }

  /** `simplify`: a tree is replaced by its evaluation without bindings; a
      number passes through unchanged. */
  function Simplify(t: Term, m: Numerics): (r: Outcome<Term>)
    ensures t.Num? ==> r == Ok(t)
    ensures t.Sym? ==> r == Eval(t.e, map[], m)
  {
    match t
    case Num(_) => Ok(t)
    case Sym(e) => Eval(e, map[], m)
  }
}
