/**
  What the infix printer guarantees, and where its redundancy test lets two
  different trees print alike.
*/
module PrinterFacts {
  import opened Wrappers
  import opened Value
  import opened Printer

  predicate Binary(e: Expr) {
    e.Sum? || e.Difference? || e.Product? || e.Division?
  }

  /** The symbol `__str__` puts between the operands. */
  function Symbol(e: Expr): string
    requires Binary(e)
  {
    match e
    case Sum(_, _) => "+"
    case Difference(_, _) => "-"
    case Product(_, _) => "*"
    case Division(_, _) => "/"
  }

  /** A printable binary node prints as its two operands around its symbol. */
  lemma BinaryRender(e: Expr, show: real -> string)
    requires Binary(e) && Render(e, show).Ok?
    ensures Render(e.left, show).Ok? && Render(e.right, show).Ok?
    ensures Render(e, show).value ==
            Infix(e, e.left, Render(e.left, show).value, e.right, Render(e.right, show).value, Symbol(e))
  {
  }

  lemma SpacedEnds(l: string, symbol: string, r: string)
    ensures |l| > 0 ==> Spaced(l, symbol, r)[0] == l[0]
    ensures |r| > 0 ==> Spaced(l, symbol, r)[|Spaced(l, symbol, r)| - 1] == r[|r| - 1]
  {
  }

  /** A right operand of the same or lower precedence always comes out closed
      by a parenthesis, so `a - (b - c)` never prints as `a - b - c`. */
  lemma RightOperandGrouped(e: Expr, show: real -> string)
    requires Binary(e) && Render(e, show).Ok?
    requires IsOperator(e.right) && Precedence(e.right) <= Precedence(e)
    ensures var s := Render(e, show).value; s[|s| - 1] == ')'
  {
    BinaryRender(e, show);
    var ls, rs := Render(e.left, show).value, Render(e.right, show).value;
    var wrapped := Parenthesize(e.right, rs, Precedence(e) + 0.1);
    assert |wrapped| > 0 && wrapped[|wrapped| - 1] == ')';
    SpacedEnds(Parenthesize(e.left, ls, Precedence(e)), Symbol(e), wrapped);
  }

  /** A left operand of lower precedence always comes out opened by a
      parenthesis: `(a + b) * c`. */
  lemma LeftOperandGrouped(e: Expr, show: real -> string)
    requires Binary(e) && Render(e, show).Ok?
    requires IsOperator(e.left) && Precedence(e.left) < Precedence(e)
    ensures var s := Render(e, show).value; |s| > 0 && s[0] == '('
  {
    BinaryRender(e, show);
    var ls, rs := Render(e.left, show).value, Render(e.right, show).value;
    var wrapped := Parenthesize(e.left, ls, Precedence(e));
    assert |wrapped| > 0 && wrapped[0] == '(';
    SpacedEnds(wrapped, Symbol(e), Parenthesize(e.right, rs, Precedence(e) + 0.1));
  }

  /** Left-nested differences print flat, right-nested ones keep their
      parentheses: with numbers shown as `1`, `2`, `3` these are `1 - 2 - 3` and
      `1 - (2 - 3)`. */
  lemma DifferenceChains(a: real, b: real, c: real, show: real -> string)
    requires |show(b)| > 0 && show(b)[0] != '('
    ensures Render(Difference(Difference(Const(a), Const(b)), Const(c)), show) ==
            Ok(Spaced(Spaced(show(a), "-", show(b)), "-", show(c)))
    ensures Render(Difference(Const(a), Difference(Const(b), Const(c))), show) ==
            Ok(Spaced(show(a), "-", Parens(Spaced(show(b), "-", show(c)))))
  {
    var sa, sb, sc := show(a), show(b), show(c);
    var left, right := Spaced(sa, "-", sb), Spaced(sb, "-", sc);
    assert Render(Difference(Const(a), Const(b)), show) == Ok(left);
    assert Render(Difference(Const(b), Const(c)), show) == Ok(right);
    assert right[0] == sb[0];
    assert Parenthesize(Difference(Const(b), Const(c)), right, 0.0 + 0.1) == Parens(right);
  }

  /** `p + q` for two variables prints as `p + q`. */
  lemma SumOfVariables(p: string, q: string, show: real -> string)
    ensures Render(Sum(Var(p), Var(q)), show) == Ok(Spaced(p, "+", q))
    ensures RenderStrict(Sum(Var(p), Var(q)), show) == Ok(Spaced(p, "+", q))
  {
  }

  /** `(p + q) * (r + s)` for four variables: both sums are wrapped. */
  lemma ProductOfSums(p: string, q: string, r: string, s: string, show: real -> string)
    requires |p| > 0 && p[0] != '(' && |r| > 0 && r[0] != '('
    ensures Render(Product(Sum(Var(p), Var(q)), Sum(Var(r), Var(s))), show) ==
            Ok(Spaced(Parens(Spaced(p, "+", q)), "*", Parens(Spaced(r, "+", s))))
    ensures RenderStrict(Product(Sum(Var(p), Var(q)), Sum(Var(r), Var(s))), show) ==
            Ok(Spaced(Parens(Spaced(p, "+", q)), "*", Parens(Spaced(r, "+", s))))
  {
    SumOfVariables(p, q, show);
    SumOfVariables(r, s, show);
    var left, right := Spaced(p, "+", q), Spaced(r, "+", s);
    assert left[0] == p[0] && right[0] == r[0];
  }

  /** `(r + s)^n`: the sum is wrapped, the variable is not. */
  lemma PowerOfSum(r: string, s: string, n: string, show: real -> string)
    requires |r| > 0 && r[0] != '('
    ensures Render(Power(Sum(Var(r), Var(s)), Var(n)), show) == Ok(Parens(Spaced(r, "+", s)) + "^" + n)
    ensures RenderStrict(Power(Sum(Var(r), Var(s)), Var(n)), show) == Ok(Parens(Spaced(r, "+", s)) + "^" + n)
  {
    SumOfVariables(r, s, show);
    var base := Spaced(r, "+", s);
    assert base[0] == r[0];
  }

  /** `((p + q) * (r + s))^n` as the source prints it: the product's text starts
      with '(' and ends with ')', so it is not wrapped again; precedence alone
      would wrap it. */
  lemma PowerOfProduct(p: string, q: string, r: string, s: string, n: string, show: real -> string)
    requires |p| > 0 && p[0] != '(' && |r| > 0 && r[0] != '('
    ensures Render(Power(Product(Sum(Var(p), Var(q)), Sum(Var(r), Var(s))), Var(n)), show) ==
            Ok(Spaced(Parens(Spaced(p, "+", q)), "*", Parens(Spaced(r, "+", s))) + "^" + n)
    ensures RenderStrict(Power(Product(Sum(Var(p), Var(q)), Sum(Var(r), Var(s))), Var(n)), show) ==
            Ok(Parens(Spaced(Parens(Spaced(p, "+", q)), "*", Parens(Spaced(r, "+", s)))) + "^" + n)
  {
    ProductOfSums(p, q, r, s, show);
    var product := Spaced(Parens(Spaced(p, "+", q)), "*", Parens(Spaced(r, "+", s)));
    assert product[0] == '(' && product[|product| - 1] == ')';
  }

  /** `(p + q) * (r + s)^n`: the power binds tighter than the product and is not wrapped. */
  lemma ProductWithPower(p: string, q: string, r: string, s: string, n: string, show: real -> string)
    requires |p| > 0 && p[0] != '(' && |r| > 0 && r[0] != '('
    ensures Render(Product(Sum(Var(p), Var(q)), Power(Sum(Var(r), Var(s)), Var(n))), show) ==
            Ok(Spaced(Parens(Spaced(p, "+", q)), "*", Parens(Spaced(r, "+", s)) + "^" + n))
    ensures RenderStrict(Product(Sum(Var(p), Var(q)), Power(Sum(Var(r), Var(s)), Var(n))), show) ==
            Ok(Spaced(Parens(Spaced(p, "+", q)), "*", Parens(Spaced(r, "+", s)) + "^" + n))
  {
    SumOfVariables(p, q, show);
    PowerOfSum(r, s, n, show);
    var left := Spaced(p, "+", q);
    assert left[0] == p[0];
  }

  /** The redundancy test looks only at the first and last characters, so a
      product of two sums counts as already parenthesised: `((x + y) * (z + w))^n`
      prints exactly like `(x + y) * (z + w)^n`, a different tree. */
  lemma EnclosedTestConflates(p: string, q: string, r: string, s: string, n: string, show: real -> string)
    requires |p| > 0 && p[0] != '(' && |r| > 0 && r[0] != '('
    ensures Render(Power(Product(Sum(Var(p), Var(q)), Sum(Var(r), Var(s))), Var(n)), show) ==
            Render(Product(Sum(Var(p), Var(q)), Power(Sum(Var(r), Var(s)), Var(n))), show)
  {
    PowerOfProduct(p, q, r, s, n, show);
    ProductWithPower(p, q, r, s, n, show);
    SuffixJoinsRightOperand(Parens(Spaced(p, "+", q)), "*", Parens(Spaced(r, "+", s)), "^", n);
  }

  /** Text appended after a spaced operation reads as part of its right operand. */
  lemma SuffixJoinsRightOperand(l: string, symbol: string, r: string, u: string, t: string)
    ensures Spaced(l, symbol, r) + u + t == Spaced(l, symbol, r + u + t)
  {
    assert l + " " + symbol + " " + r + u + t == l + " " + symbol + " " + (r + u + t);
  }

  /** Deciding by precedence alone keeps the two apart: the power of the
      product opens with two parentheses, the product with one. */
  lemma StrictKeepsGrouping(p: string, q: string, r: string, s: string, n: string, show: real -> string)
    requires |p| > 0 && p[0] != '(' && |r| > 0 && r[0] != '('
    ensures RenderStrict(Power(Product(Sum(Var(p), Var(q)), Sum(Var(r), Var(s))), Var(n)), show) !=
            RenderStrict(Product(Sum(Var(p), Var(q)), Power(Sum(Var(r), Var(s)), Var(n))), show)
  {
    PowerOfProduct(p, q, r, s, n, show);
    ProductWithPower(p, q, r, s, n, show);
    var a, b := Parens(Spaced(p, "+", q)), Parens(Spaced(r, "+", s));
    SecondOfWrapped(Spaced(a, "*", b), "^" + n);
    SecondOfSpaced(p, q, "*", b + "^" + n);
  }

  lemma SecondOfWrapped(body: string, t: string)
    requires |body| > 0 && body[0] == '('
    ensures (Parens(body) + t)[1] == '('
  {
  }

  lemma SecondOfSpaced(p: string, q: string, symbol: string, rest: string)
    requires |p| > 0
    ensures Spaced(Parens(Spaced(p, "+", q)), symbol, rest)[1] == p[0]
  {
    var a := Parens(Spaced(p, "+", q));
    assert a[1] == p[0];
  }
}
