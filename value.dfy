/**
  Expression trees, evaluation results and the composition layer of the iota
  engine (iota/objects/value.py).

  Python builds trees through operator overloading on `Value`; a bare number in
  either operand position is lifted to a `Constant` first.  Here that layer is a
  set of explicit functions: `Lift`, `MakeConstants`, `Forward`, `Reflected`,
  and `Apply`, which is what a Python `a + b` (or `-`, `*`, `/`, `**`) does when
  `a` and `b` are each either a number or a tree.
*/
module Value {
  import opened Wrappers

  /** The exceptions the engine raises, one constructor per kind of failure. */
  datatype Error =
    | ZeroDivision     // ZeroDivisionError: numeric zero denominator, 0 raised to a negative power, or a logarithm to base 1
    | NotImplemented   // NotImplementedError: symbolic log base, unprintable Logarithm, abstract diff
    | NoNegation       // TypeError: unary minus applied to a tree (Value has no __neg__)
    | NoReflectedPow   // TypeError: number ** tree (Value has no __rpow__)
    | Arity            // AssertionError: a BinaryOperator built with other than two children
    | IndexOutOfRange  // IndexError: a Logarithm without children evaluated or differentiated
    | MathDomain       // ValueError: math.log of a number that is not positive

  type Outcome<T> = Result<T, Error>

  /** An expression tree.  A Logarithm keeps the children it was built with:
      one child is the natural log of it, two are (base, antilog). */
  datatype Expr =
    | Const(val: real)
    | Var(name: string)
    | Sum(left: Expr, right: Expr)
    | Difference(left: Expr, right: Expr)
    | Product(left: Expr, right: Expr)
    | Division(left: Expr, right: Expr)
    | Power(base: Expr, exponent: Expr)
    | Log(args: seq<Expr>)

  /** What `eval` and `diff` return: a bare Python number or a tree. */
  datatype Term = Num(x: real) | Sym(e: Expr)

  /** The five overloaded binary operators of Value. */
  datatype Op = Plus | Minus | Times | Over | Raise

  /** The objects a Python `==` may compare a leaf with: a number, a tree, a
      Constant of the duplicate class in iota/objects/constant.py, or anything else. */
  datatype Obj = Number(n: real) | Tree(t: Expr) | DuplicateConstant(v: real) | Other

  /** The float library the engine calls: `math.log(x, base)`, `math.log(x)`
      and `x ** y` on numbers.  Their values are not modelled. */
  datatype Numerics = Numerics(log: (real, real) -> real, ln: real -> real, pow: (real, real) -> real)

  /** `math.e` as a double. */
  const E: real := 2.718281828459045

  /** The test `t == c` that the evaluator writes as `l_val == 0.`: only a
      number equal to `c` passes, since no evaluation result is a Constant. */
  predicate IsNum(t: Term, c: real) {
    t == Num(c)
  }

  function FreeVars(e: Expr): set<string> {
    match e
    case Const(_) => {}
    case Var(n) => {n}
    case Sum(a, b) => FreeVars(a) + FreeVars(b)
    case Difference(a, b) => FreeVars(a) + FreeVars(b)
    case Product(a, b) => FreeVars(a) + FreeVars(b)
    case Division(a, b) => FreeVars(a) + FreeVars(b)
    case Power(a, b) => FreeVars(a) + FreeVars(b)
    case Log(args) => LogFreeVars(args)
  }

  function LogFreeVars(args: seq<Expr>): set<string>
    decreases args, 0
  {
    if |args| == 0 then {} else FreeVars(args[0]) + LogFreeVars(args[1..])
  }

  /** The children an operator node holds (`self.vals`); leaves hold none. */
  function Children(e: Expr): seq<Expr> {
    match e
    case Const(_) => []
    case Var(_) => []
    case Sum(a, b) => [a, b]
    case Difference(a, b) => [a, b]
    case Product(a, b) => [a, b]
    case Division(a, b) => [a, b]
    case Power(a, b) => [a, b]
    case Log(args) => args
  }

  /** The operator a binary node was built with. */
  function OpOf(e: Expr): Option<Op> {
    match e
    case Sum(_, _) => Some(Plus)
    case Difference(_, _) => Some(Minus)
    case Product(_, _) => Some(Times)
    case Division(_, _) => Some(Over)
    case Power(_, _) => Some(Raise)
    case _ => None
  }

  function Node(op: Op, l: Expr, r: Expr): Expr {
    match op
    case Plus => Sum(l, r)
    case Minus => Difference(l, r)
    case Times => Product(l, r)
    case Over => Division(l, r)
    case Raise => Power(l, r)
  }

  /** Lifting of one operand: numbers become Constants, trees stay as they are. */
  function Lift(t: Term): Expr {
    match t
    case Num(x) => Const(x)
    case Sym(e) => e
  }

  /** `make_constants`: every positional argument that is not a Value is
      replaced by a Constant wrapping it; Values are passed untouched. */
  function MakeConstants(args: seq<Term>): (r: seq<Expr>)
    ensures |r| == |args|
    ensures forall i :: 0 <= i < |args| && args[i].Sym? ==> r[i] == args[i].e
    ensures forall i :: 0 <= i < |args| && args[i].Num? ==> r[i] == Const(args[i].x)
  {
    if |args| == 0 then [] else [Lift(args[0])] + MakeConstants(args[1..])
  }

  /** `self <op> other` with `self` a tree (`__add__`, `__sub__`, `__mul__`,
      `__truediv__`, `__pow__`): the written left operand is the left child. */
  function Forward(op: Op, self: Expr, other: Term): (r: Expr)
    ensures OpOf(r) == Some(op)
    ensures Children(r) == [self, Lift(other)]
  {
    Node(op, self, Lift(other))
  }

  /** `other <op> self` reaching `self.__r<op>__(other)`; there is no `__rpow__`,
      so a number raised to a tree is a TypeError. */
  function Reflected(op: Op, self: Expr, other: Term): (r: Outcome<Expr>)
    ensures r.Err? <==> op == Raise
    ensures r.Err? ==> r.error == NoReflectedPow
    ensures r.Ok? ==> OpOf(r.value) == Some(op) && Children(r.value) == [Lift(other), self]
  {
    if op == Raise then Err(NoReflectedPow) else Ok(Node(op, Lift(other), self))
  }

  /** The product of two numbers.  Every product in the model is written with
      this one function, so that equal factors give one and the same term. */
  function Mul(x: real, y: real): real {
    x * y
  }

  /** The quotient of two numbers, likewise written once. */
  function Div(x: real, y: real): real
    requires y != 0.0
  {
    x / y
  }

  /** Python's arithmetic on two numbers.  Division by zero and zero raised to a
      negative power raise ZeroDivisionError. */
  function NumericOp(op: Op, a: real, b: real, m: Numerics): (r: Outcome<Term>)
    ensures r.Err? <==> (op == Over && b == 0.0) || (op == Raise && a == 0.0 && b < 0.0)
    ensures r.Err? ==> r.error == ZeroDivision
    ensures r.Ok? ==> r.value == Num(match op
                                     case Plus => a + b
                                     case Minus => a - b
                                     case Times => Mul(a, b)
                                     case Over => if b == 0.0 then 0.0 else Div(a, b)
                                     case Raise => m.pow(a, b))
  {
    match op
    case Plus => Ok(Num(a + b))
    case Minus => Ok(Num(a - b))
    case Times => Ok(Num(Mul(a, b)))
    case Over => if b == 0.0 then Err(ZeroDivision) else Ok(Num(Div(a, b)))
    case Raise => if a == 0.0 && b < 0.0 then Err(ZeroDivision) else Ok(Num(m.pow(a, b)))
  }

  /** `a <op> b` for operands that are each a number or a tree.  When either is a
      tree the result is the node over both operands, lifted, in written order;
      the only failures are number ** tree and the numeric ones. */
  function Apply(op: Op, a: Term, b: Term, m: Numerics): (r: Outcome<Term>)
    ensures a.Num? && b.Num? ==> r == NumericOp(op, a.x, b.x, m)
    ensures (a.Sym? || b.Sym?) && !(op == Raise && a.Num?) ==> r == Ok(Sym(Node(op, Lift(a), Lift(b))))
    ensures b.Sym? && op == Raise && a.Num? ==> r == Err(NoReflectedPow)
  {
    if a.Num? && b.Num? then NumericOp(op, a.x, b.x, m)
    else if a.Sym? then Ok(Sym(Forward(op, a.e, b)))
    else
      var n :- Reflected(op, b.e, a);
      Ok(Sym(n))
  }

  /** Unary minus: numbers negate; a tree has no `__neg__`. */
  function Negate(t: Term): (r: Outcome<Term>)
    ensures r.Ok? <==> t.Num?
    ensures r.Ok? ==> r.value == Num(-t.x)
    ensures r.Err? ==> r.error == NoNegation
  {
    match t
    case Num(x) => Ok(Num(-x))
    case Sym(_) => Err(NoNegation)
  }

  /** `Sum(*vals)` and the other BinaryOperator constructors: the arguments are
      lifted and then exactly two are demanded. */
  function Construct(op: Op, vals: seq<Term>): (r: Outcome<Expr>)
    ensures r.Ok? <==> |vals| == 2
    ensures r.Err? ==> r.error == Arity
    ensures r.Ok? ==> OpOf(r.value) == Some(op) && Children(r.value) == MakeConstants(vals)
  {
    var kids := MakeConstants(vals);
    if |kids| != 2 then Err(Arity) else Ok(Node(op, kids[0], kids[1]))
  }

  /** `Logarithm(*vals)`: lifts its arguments and accepts any number of them. */
  function ConstructLog(vals: seq<Term>): (r: Expr)
    ensures r.Log? && Children(r) == MakeConstants(vals)
  {
    Log(MakeConstants(vals))
  }

  /** The base `Value.eval` (and `Operator.eval`): returns nothing. */
  function AbstractEval(env: map<string, real>): (r: Option<Term>)
    ensures r.None?
  {
    None
  }

  /** The base `Value.__str__`: the empty string. */
  function AbstractRender(): (r: string)
    ensures |r| == 0
  {
    ""
  }

  /** The base `Value.diff` (and `Operator.diff`): raises NotImplementedError. */
  function AbstractDiff(wrt: string): (r: Outcome<Term>)
    ensures r.Err? && r.error == NotImplemented
  {
    Err(NotImplemented)
  }
}
