/**
  The Logarithm operator (iota/objects/ops.py): the non-recursive part of its
  `eval` and of its `diff`.  The recursion over children lives with the other
  operators in `Operator.Eval` and `Derivative.Diff`.
*/
module Ops {
  import opened Wrappers
  import opened Value

  /** What `Logarithm.eval` does once base and antilog are evaluated.  A base
      that is not a number raises before the antilog is looked at; then antilog 1
      gives 0, antilog equal to the base gives 1, a numeric antilog gives its
      logarithm, and a symbolic one is rebuilt as a Logarithm node: the
      one-child form when the base is e, else (lifted base, antilog).
      `math.log(x, b)` raises ValueError unless `x` and `b` are positive, and
      ZeroDivisionError for base 1, whose logarithm is the divisor. */
  function LogStep(base: Term, antilog: Term, m: Numerics): (r: Outcome<Term>)
    ensures r.Err? <==> base.Sym? || (antilog.Num? && antilog.x != 1.0 && antilog.x != base.x &&
                                      (antilog.x <= 0.0 || base.x <= 0.0 || base.x == 1.0))
    ensures base.Sym? ==> r == Err(NotImplemented)
    ensures r.Err? && base.Num? ==>
              r.error == if antilog.x <= 0.0 || base.x <= 0.0 then MathDomain else ZeroDivision
    ensures base.Num? && IsNum(antilog, 1.0) ==> r.value == Num(0.0)
    ensures base.Num? && !IsNum(antilog, 1.0) && IsNum(antilog, base.x) ==> r.value == Num(1.0)
    ensures base.Num? && antilog.Num? && antilog.x != 1.0 && antilog.x != base.x && r.Ok? ==>
              r.value == Num(m.log(antilog.x, base.x))
    ensures base.Num? && antilog.Sym? ==>
              r.value == Sym(if base.x == E then Log([antilog.e]) else Log([Const(base.x), antilog.e]))
  {
    if base.Sym? then Err(NotImplemented)
    else if IsNum(antilog, 1.0) then Ok(Num(0.0))
    else if IsNum(antilog, base.x) then Ok(Num(1.0))
    else if antilog.Num? then
      if antilog.x <= 0.0 || base.x <= 0.0 then Err(MathDomain)
      else if base.x == 1.0 then Err(ZeroDivision)
      else Ok(Num(m.log(antilog.x, base.x)))
    else if base.x == E then
      assert MakeConstants([antilog])[0] == antilog.e;
      assert MakeConstants([antilog]) == [antilog.e];
      Ok(Sym(ConstructLog([antilog])))
    else
      assert MakeConstants([base, antilog])[0] == Const(base.x);
      assert MakeConstants([base, antilog])[1] == antilog.e;
      assert MakeConstants([base, antilog]) == [Const(base.x), antilog.e];
      Ok(Sym(ConstructLog([base, antilog])))
  }

  /** `antilog.diff(wrt) / (math.log(base) * antilog)` for a numeric base whose
      natural log is `lnBase`: a Division node whose numerator is the lifted
      derivative and whose denominator is the product, in that order. */
  function LogQuotient(dAntilog: Term, lnBase: real, antilog: Expr, m: Numerics): (r: Outcome<Term>)
    ensures r == Ok(Sym(Division(Lift(dAntilog), Product(Const(lnBase), antilog))))
  {
    // a number times a tree never fails
    var denominator := Apply(Times, Num(lnBase), Sym(antilog), m).value;
    Apply(Over, dAntilog, denominator, m)
  }
}
