/**
  The infix printer (`__str__` and `parenthesize` in iota/objects/operator.py,
  `Logarithm.__str__` in iota/objects/ops.py).  Precedences are Sum and
  Difference 0, Product and Division 1, Power and Logarithm 2.  A child is
  wrapped in parentheses when it is an operator whose precedence is below the
  threshold of its position and its text is not already of the form "(...)".
*/
module Printer {
  import opened Wrappers
  import opened Value
  import Variable

  /** `Operator.precedence` of a node; leaves, which are not operators, count as 0. */
  function Precedence(e: Expr): (p: real)
    ensures e.Sum? || e.Difference? ==> p == 0.0
    ensures e.Product? || e.Division? ==> p == 1.0
    ensures e.Power? || e.Log? ==> p == 2.0
  {
    match e
    case Product(_, _) => 1.0
    case Division(_, _) => 1.0
    case Power(_, _) => 2.0
    case Log(_) => 2.0
    case _ => 0.0
  }

  predicate IsOperator(e: Expr) {
    !e.Const? && !e.Var?
  }

  /** The text already starts with '(' and ends with ')'. */
  predicate Enclosed(s: string) {
    |s| > 0 && s[0] == '(' && s[|s| - 1] == ')'
  }

  /** `"(" + s + ")"`. */
  function Parens(s: string): (r: string)
    ensures |r| == |s| + 2 && r[0] == '(' && r[|r| - 1] == ')'
  {
    "(" + s + ")"
  }

  /** Two operands around a symbol, one space either side. */
  function Spaced(l: string, symbol: string, r: string): (s: string)
    ensures |s| == |l| + |symbol| + |r| + 2
  {
    l + " " + symbol + " " + r
  }

  /** The right operand is the tail of the spaced text. */
  lemma SpacedEndsWith(l: string, symbol: string, r: string)
    ensures r == Spaced(l, symbol, r)[|l| + |symbol| + 2..]
  {
    assert Spaced(l, symbol, r) == (l + " " + symbol + " ") + r;
  }

  /** Wrapping decided by precedence alone: an operator child below the
      threshold gets parentheses, anything else is left as it is. */
  function Wrap(child: Expr, s: string, threshold: real): (r: string)
    ensures r == s || r == "(" + s + ")"
    ensures r != s <==> IsOperator(child) && Precedence(child) < threshold
  {
    if IsOperator(child) && Precedence(child) < threshold then Parens(s) else s
  }

  /** `parenthesize(val, precedence=threshold)` given `s == str(val)`: as `Wrap`,
      except that a text already starting with '(' and ending with ')' is
      never wrapped again. */
  function Parenthesize(child: Expr, s: string, threshold: real): (r: string)
    ensures r == s || r == "(" + s + ")"
    ensures r != s <==> IsOperator(child) && Precedence(child) < threshold && !Enclosed(s)
  {
    if Enclosed(s) then s else Wrap(child, s, threshold)
  }

  /** `BinaryOperator.__str__`: the left child is held to the parent's
      precedence, the right child to the parent's precedence plus 0.1, and the
      symbol stands between single spaces. */
  function Infix(parent: Expr, l: Expr, ls: string, r: Expr, rs: string, symbol: string): (s: string)
    ensures |s| > 0
  {
    Spaced(Parenthesize(l, ls, Precedence(parent)), symbol, Parenthesize(r, rs, Precedence(parent) + 0.1))
  }

  /** How the text of a binary node is laid out: the left operand's text,
      wrapped at the parent's precedence, then the symbol between single
      spaces, then the right operand's text, wrapped at the parent's
      precedence plus 0.1. */
  lemma InfixLayout(parent: Expr, l: Expr, ls: string, r: Expr, rs: string, symbol: string)
    ensures var s := Infix(parent, l, ls, r, rs, symbol);
            var wl, wr := Parenthesize(l, ls, Precedence(parent)), Parenthesize(r, rs, Precedence(parent) + 0.1);
            |s| == |wl| + |symbol| + 2 + |wr| &&
            s[..|wl|] == wl && s[|wl|..|wl| + |symbol| + 2] == " " + symbol + " " && s[|wl| + |symbol| + 2..] == wr
  {
    var wl, wr := Parenthesize(l, ls, Precedence(parent)), Parenthesize(r, rs, Precedence(parent) + 0.1);
    assert Spaced(wl, symbol, wr) == wl + (" " + symbol + " ") + wr;
  }

  /** A Logarithm with other than one or two children somewhere in the tree. */
  predicate HasUnprintableLog(e: Expr) {
    match e
    case Const(_) => false
    case Var(_) => false
    case Sum(a, b) => HasUnprintableLog(a) || HasUnprintableLog(b)
    case Difference(a, b) => HasUnprintableLog(a) || HasUnprintableLog(b)
    case Product(a, b) => HasUnprintableLog(a) || HasUnprintableLog(b)
    case Division(a, b) => HasUnprintableLog(a) || HasUnprintableLog(b)
    case Power(a, b) => HasUnprintableLog(a) || HasUnprintableLog(b)
    case Log(args) =>
      if |args| == 1 then HasUnprintableLog(args[0])
      else if |args| == 2 then HasUnprintableLog(args[0]) || HasUnprintableLog(args[1])
      else true
  }

  /** `str(e)`, with `show` standing for Python's `str` of a number.  Printing
      fails exactly when some Logarithm in the tree has an arity other than one
      or two; an operator never prints as the empty string. */
  function Render(e: Expr, show: real -> string): (r: Outcome<string>)
    ensures r.Err? <==> HasUnprintableLog(e)
    ensures r.Err? ==> r.error == NotImplemented
    ensures r.Ok? && IsOperator(e) ==> |r.value| > 0
  {
    match e
    case Const(v) => Ok(Variable.ConstRender(v, show))
    case Var(n) => Ok(Variable.VarRender(n))
    case Sum(a, b) =>
      var ls :- Render(a, show);
      var rs :- Render(b, show);
      Ok(Infix(e, a, ls, b, rs, "+"))
    case Difference(a, b) =>
      var ls :- Render(a, show);
      var rs :- Render(b, show);
      Ok(Infix(e, a, ls, b, rs, "-"))
    case Product(a, b) =>
      var ls :- Render(a, show);
      var rs :- Render(b, show);
      Ok(Infix(e, a, ls, b, rs, "*"))
    case Division(a, b) =>
      var ls :- Render(a, show);
      var rs :- Render(b, show);
      Ok(Infix(e, a, ls, b, rs, "/"))
    case Power(a, b) =>
      // no spaces around '^', both sides held to precedence 2
      var bs :- Render(a, show);
      var ps :- Render(b, show);
      Ok(Parenthesize(a, bs, 2.0) + "^" + Parenthesize(b, ps, 2.0))
    case Log(args) =>
      // children are printed as they are, never parenthesised
      if |args| == 1 then
        var antilog :- Render(args[0], show);
        Ok("ln(" + antilog + ")")
      else if |args| == 2 then
        var base :- Render(args[0], show);
        var antilog :- Render(args[1], show);
        Ok("log(" + base + ", " + antilog + ")")
      else
        Err(NotImplemented)
  }

  /** The printer with the redundancy test removed, so that wrapping depends on
      precedence alone.  An operator that is wrapped at all renders with a
      symbol outside any parentheses, so the test can only ever skip a wrap that
      was needed: this is the printer the redundancy test was meant to leave
      unchanged. */
  function RenderStrict(e: Expr, show: real -> string): (r: Outcome<string>)
    ensures r.Err? <==> HasUnprintableLog(e)
    ensures r.Ok? && e.Power? ==>
              var bs := RenderStrict(e.base, show).value;
              IsOperator(e.base) && Precedence(e.base) < 2.0 ==>
                |r.value| > |bs| + 2 && r.value[..|bs| + 2] == "(" + bs + ")"
  {
    match e
    case Const(v) => Ok(Variable.ConstRender(v, show))
    case Var(n) => Ok(Variable.VarRender(n))
    case Sum(a, b) =>
      var ls :- RenderStrict(a, show);
      var rs :- RenderStrict(b, show);
      Ok(StrictInfix(e, a, ls, b, rs, "+"))
    case Difference(a, b) =>
      var ls :- RenderStrict(a, show);
      var rs :- RenderStrict(b, show);
      Ok(StrictInfix(e, a, ls, b, rs, "-"))
    case Product(a, b) =>
      var ls :- RenderStrict(a, show);
      var rs :- RenderStrict(b, show);
      Ok(StrictInfix(e, a, ls, b, rs, "*"))
    case Division(a, b) =>
      var ls :- RenderStrict(a, show);
      var rs :- RenderStrict(b, show);
      Ok(StrictInfix(e, a, ls, b, rs, "/"))
    case Power(a, b) =>
      var bs :- RenderStrict(a, show);
      var ps :- RenderStrict(b, show);
      Ok(Wrap(a, bs, 2.0) + "^" + Wrap(b, ps, 2.0))
    case Log(args) =>
      if |args| == 1 then
        var antilog :- RenderStrict(args[0], show);
        Ok("ln(" + antilog + ")")
      else if |args| == 2 then
        var base :- RenderStrict(args[0], show);
        var antilog :- RenderStrict(args[1], show);
        Ok("log(" + base + ", " + antilog + ")")
      else
        Err(NotImplemented)
  }

  function StrictInfix(parent: Expr, l: Expr, ls: string, r: Expr, rs: string, symbol: string): (s: string)
    ensures |s| > 0
  {
    Spaced(Wrap(l, ls, Precedence(parent)), symbol, Wrap(r, rs, Precedence(parent) + 0.1))
  }
}
