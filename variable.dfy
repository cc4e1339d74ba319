/** The leaves of the engine, Constant and Variable (iota/objects/variable.py). */
module Variable {
  import opened Value

  /** `Constant.eval`: the wrapped number, whatever the bindings. */
  function ConstEval(v: real, env: map<string, real>): (r: Term)
    ensures r.Num? && r.x == v
  {
    Num(v)
  }

  /** `Constant.diff`: zero for every variable name. */
  function ConstDiff(v: real, wrt: string): (r: Term)
    ensures IsNum(r, 0.0)
  {
    Num(0.0)
  }

  /** `Constant.__eq__`: another Constant of this class compares values, a bare
      number compares with the value, anything else is unequal. */
  function ConstEquals(v: real, other: Obj): (r: bool)
    ensures other.Number? ==> (r <==> other.n == v)
    ensures other.Tree? ==> (r <==> other.t == Const(v))
    ensures other.DuplicateConstant? || other.Other? ==> !r
  {
    match other
    case Number(n) => v == n
    case Tree(t) => t.Const? && t.val == v
    case DuplicateConstant(_) => false
    case Other => false
  }

  /** `Constant.__str__`: the number as Python prints it. */
  function ConstRender(v: real, show: real -> string): (r: string)
    ensures r == show(v)
  {
    show(v)
  }

  /** `Variable.eval`: the bound number when the name is bound, otherwise the
      Variable itself (also when no bindings are given at all). */
  function VarEval(name: string, env: map<string, real>): (r: Term)
    ensures name in env ==> r == Num(env[name])
    ensures name !in env ==> r == Sym(Var(name))
  {
    if name in env then Num(env[name]) else Sym(Var(name))
  }

  /** `Variable.diff`: one for its own name, zero for any other. */
  function VarDiff(name: string, wrt: string): (r: Term)
    ensures IsNum(r, 1.0) <==> wrt == name
    ensures IsNum(r, 0.0) <==> wrt != name
  {
    if wrt == name then Num(1.0) else Num(0.0)
  }

  /** `Variable.__eq__`: equal only to a Variable of the same name; never to a number. */
  function VarEquals(name: string, other: Obj): (r: bool)
    ensures r <==> other == Tree(Var(name))
  {
    match other
    case Tree(t) => t.Var? && t.name == name
    case _ => false
  }

  /** `Variable.__str__`: the name. */
  function VarRender(name: string): (r: string)
    ensures r == name
  {
    name
  }
}
