/**
  The second Constant leaf class (iota/objects/constant.py).  Its methods read
  as those of the Constant in iota/objects/variable.py, but it is a different
  class: its `isinstance(other, Constant)` test recognises only its own
  instances, so the two kinds of Constant never compare equal to each other.
*/
module Constant {
  import opened Value
  import Variable

  /** `Constant.eval`: the wrapped number; the bindings are ignored.  The
      method bodies are those of the other Constant class. */
  function Eval(v: real, env: map<string, real>): (r: Term)
    ensures r.Num? && r.x == v
  {
    Variable.ConstEval(v, env)
  }

  /** `Constant.diff`: zero. */
  function Diff(v: real, wrt: string): (r: Term)
    ensures IsNum(r, 0.0)
  {
    Variable.ConstDiff(v, wrt)
  }

  /** `Constant.__eq__` of this class. */
  function Equals(v: real, other: Obj): (r: bool)
    ensures other.DuplicateConstant? ==> (r <==> other.v == v)
    ensures other.Number? ==> (r <==> other.n == v)
    ensures other.Tree? || other.Other? ==> !r
  {
    match other
    case DuplicateConstant(w) => v == w
    case Number(n) => v == n
    case _ => false
  }

  /** `Constant.__str__`: the number as Python prints it. */
  function Render(v: real, show: real -> string): (r: string)
    ensures r == show(v)
  {
    Variable.ConstRender(v, show)
  }

  /** Both Constant classes agree with a bare number, but a Constant of one
      class is unequal to a Constant of the other, whatever the values. */
  lemma ConstantClassesNeverEqual(v: real, w: real)
    ensures !Equals(v, Tree(Const(w)))
    ensures !Variable.ConstEquals(w, DuplicateConstant(v))
    ensures Equals(v, Number(w)) == Variable.ConstEquals(v, Number(w))
  {
  }
}
