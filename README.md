# iota symbolic expression engine, modelled in Dafny

iota builds algebraic expression trees from Constant and Variable leaves and
the operator nodes Sum, Difference, Product, Division, Power and Logarithm.
It has four recursive passes over these trees:

- **eval**: partial evaluation under variable bindings. It folds constants and
  applies zero/one shortcuts in a fixed order.
- **diff**: a closed-form derivative for each node kind. Every result is then
  simplified, that is, evaluated with no bindings.
- **str**: an infix printer that adds parentheses by precedence.
- **composition**: Python's arithmetic operators build nodes and lift bare
  numbers to Constant.

A small range layer (`iota/objects/range.py`) offers membership and iteration.

The model follows the package `iota/objects`. The two earlier engines are
modelled as separate functions over the same datatypes:

- The single-file engine `src/iota.py` (module `Legacy`). It is the package
  except for its power rule.
- The earliest engine `src/exp/variable.py` (module `Earliest`). Its eval is
  plain arithmetic with no shortcuts, and its printer is simpler.

Modules:

| module | file | contents |
|---|---|---|
| `Wrappers` | wrappers.dfy | `Option` and `Result` |
| `Value` | value.dfy | trees (`Expr`), results (`Term`), error kinds, lifting and composition |
| `Variable`, `Constant` | variable.dfy, constant.dfy | the leaves, and the duplicate Constant class |
| `Operator`, `Ops` | operator.dfy, ops.dfy | eval and simplify; Logarithm |
| `Printer` | printer.dfy | `str`, and a printer that decides by precedence alone |
| `Derivative` | derivative.dfy | diff |
| `EvalFacts`, `Semantics`, `DerivativeFacts`, `PrinterFacts` | *_facts.dfy, semantics.dfy | what the passes guarantee, against an independent reference value `Semantics.Denote` |
| `Legacy`, `Earliest` | legacy.dfy, earliest.dfy | the two earlier engines |
| `Range` | range.dfy | ranges |

Modelling decisions:

- An evaluation result is `Num(x)` or `Sym(tree)`, inside a `Result` whose
  error kinds are the exceptions Python raises:
  - `ZeroDivision`;
  - `NotImplemented`;
  - `NoNegation`: `-tree`, because Value has no `__neg__`;
  - `NoReflectedPow`: `number ** tree`, because Value has no `__rpow__`;
  - `Arity`;
  - `IndexOutOfRange`;
  - `MathDomain`: the ValueError `math.log` raises for a number that is not positive.
- The source tests a result with `== 0.`. That test is `IsNum(t, c)`, which
  holds only for a number: an evaluation result is never a bare Constant node.
- Python's `math.log`, `math.log(x)` and `**` on numbers are the fields of a
  `Numerics` parameter. Their failures are modelled: `0 ** p` for `p < 0` and a
  logarithm to base 1 raise ZeroDivisionError, and a logarithm of a number or to
  a base that is not positive raises ValueError. `Semantics.Lawful` lists the
  identities of them that the shortcuts rely on: `b**0 == 1`, `b**1 == b`,
  `0**p == 0` for `p > 0`, `1**p == 1`, `log(1) == 0` and `log_b(b) == 1`.
- `str` of a number is a `show: real -> string` parameter.
- Bindings are a `map<string, real>`. Passing no bindings is the empty map.

The earlier copies of the engine repeat the package code line for line, so
one member models every copy. Each row below cites the package lines. The
members also model the following copies:

- `Value.MakeConstants`: src/iota/objects/variable.py:5-10 and src/iota.py:16-21.
- `Value.Forward`: src/iota.py:39-73 and src/exp/variable.py:25-59.
- `Value.Construct`: src/iota.py:145-151.
- `Value.AbstractEval`, `Value.AbstractRender`, `Value.AbstractDiff`: src/iota/objects/value.py:22-30.
- `Variable.ConstEval`, `ConstRender`, `ConstDiff`, `ConstEquals`, `VarEval`, `VarRender`, `VarDiff`: src/iota/objects/variable.py:13-49 and src/iota.py:83-119.
- `Variable.ConstEval` and `Variable.VarEval`: also src/exp/variable.py:71-85.
- The step functions of `Operator`, and `Ops.LogStep`: src/iota.py:171-265 and 294-313.
- `Ops.LogQuotient`: src/iota.py:315-327.
- `Printer.Parenthesize`: src/iota.py:135-142.
- `Operator.Simplify`: src/iota/objects/value.py:10-15 and src/iota.py:24-29.

## Model

| member | source | states |
|---|---|---|
| Value.MakeConstants | iota/objects/value.py:14-21 | every number argument becomes a Constant of it and every tree is kept, position by position |
| Value.Forward | iota/objects/value.py:47-82 | `self <op> other` builds the node of that operator with `self` as left child and the lifted `other` as right child |
| Value.Reflected | iota/objects/value.py:51-82 | `other <op> self` builds the node with the lifted `other` on the left; for `**` there is no reflected form and it fails with NoReflectedPow |
| Value.NumericOp | iota/objects/operator.py:216 | Python arithmetic on two numbers (also lines 104, 130, 159, 188): the result is the number `a + b`, `a - b`, `a * b`, `a / b` or `a ** b`; it fails exactly for division by zero and for 0 raised to a negative power, with ZeroDivision |
| Value.Apply | iota/objects/value.py:47-82 | two numbers combine numerically; otherwise the result is the node over both operands, lifted and in written order; number ** tree fails with NoReflectedPow |
| Value.Negate | iota/objects/operator.py:125-126 | `-x` negates a number and fails with NoNegation on a tree |
| Value.Construct | iota/objects/operator.py:57-68 | the constructor lifts its arguments and succeeds exactly when there are two, failing with Arity otherwise; the node holds the lifted arguments |
| Value.ConstructLog | iota/objects/operator.py:22-27 | a Logarithm lifts its arguments and accepts any number of them |
| Value.AbstractEval | iota/objects/value.py:43-45 | the base `eval` returns nothing |
| Value.AbstractRender | iota/objects/value.py:84-85 | the base `__str__` is the empty string |
| Value.AbstractDiff | iota/objects/value.py:87-90 | the base `diff` fails with NotImplemented |
| Variable.ConstEval | iota/objects/variable.py:21-23 | a Constant evaluates to its number under any bindings |
| Variable.ConstRender | iota/objects/variable.py:25-26 | a Constant prints as its number |
| Variable.ConstDiff | iota/objects/variable.py:28-30 | a Constant's derivative is 0 for every name |
| Variable.ConstEquals | iota/objects/variable.py:32-38 | a Constant equals a Constant of its class with the same value, or a number equal to its value, and nothing else |
| Variable.VarEval | iota/objects/variable.py:51-53 | a bound Variable evaluates to its number; an unbound one, or one with no bindings, evaluates to itself |
| Variable.VarRender | iota/objects/variable.py:55-56 | a Variable prints as its name |
| Variable.VarDiff | iota/objects/variable.py:58-60 | a Variable's derivative is 1 exactly for its own name and 0 exactly for any other |
| Variable.VarEquals | iota/objects/variable.py:62-66 | a Variable equals exactly the Variable of the same name and never a number |
| Constant.Eval | iota/objects/constant.py:21-23 | the duplicate Constant evaluates to its number under any bindings |
| Constant.Render | iota/objects/constant.py:25-26 | it prints as its number |
| Constant.Diff | iota/objects/constant.py:28-30 | its derivative is 0 |
| Constant.Equals | iota/objects/constant.py:32-38 | it equals a Constant of its own class with the same value, or a number equal to its value, and nothing else |
| Constant.ConstantClassesNeverEqual | iota/objects/constant.py:34-35 | Constants of the two classes never compare equal, while both compare alike with a number |
| Operator.SumStep | iota/objects/operator.py:93-104 | a zero left operand gives the right one, else a zero right operand gives the left one, else `right + left`: two numbers add, otherwise a Sum is rebuilt with the operands swapped |
| Operator.DifferenceStep | iota/objects/operator.py:119-130 | it fails exactly when the left operand is 0 and the right one a tree, with NoNegation; a zero left gives the negated right number, else a zero right gives the left, else `left - right` in order |
| Operator.ProductStep | iota/objects/operator.py:146-159 | it never fails; a zero on either side gives 0, else a left 1 gives the right, else a right 1 gives the left, else the product, with order kept |
| Operator.DivisionStep | iota/objects/operator.py:175-188 | it fails exactly when the numerator is not 0 and the denominator is 0, with ZeroDivision; a zero numerator gives 0 (so 0/0 is 0), a denominator 1 gives the numerator, else the quotient |
| Operator.PowerStep | iota/objects/operator.py:204-216 | exponent 0 gives 1, else exponent 1 gives the base, else a base of 0 or 1 gives the base, else `base ** exponent`: the number `pow(base, exponent)` for two numbers, a Power node over a tree base; it fails exactly for a number base other than 0 and 1 with a tree exponent |
| Operator.Eval | iota/objects/operator.py:93-104 | a tree result is never a bare Constant node, so the `== 0.` tests are tests on numbers |
| Operator.Simplify | iota/objects/value.py:24-31 | a number passes through unchanged; a tree is replaced by its evaluation with no bindings |
| Ops.LogStep | iota/objects/ops.py:32-51 | a tree base fails with NotImplemented before any antilog test; with a number base, antilog 1 gives 0, else antilog equal to the base gives 1, else a number antilog gives its logarithm, failing with MathDomain when the antilog or the base is not positive and with ZeroDivision for base 1, else a tree antilog gives `ln(a)` when the base is e and `log(b, a)` otherwise |
| Ops.LogQuotient | iota/objects/ops.py:53-65 | the Logarithm derivative is the Division of the antilog's lifted derivative by `ln(base) * antilog`, in that order |
| Printer.Precedence | iota/objects/operator.py:20 | Sum and Difference have precedence 0; Product and Division 1 (lines 143, 172); Power and Logarithm 2 (line 201, and line 17 of ops.py) |
| Printer.Parenthesize | iota/objects/operator.py:38-54 | a child is wrapped exactly when it is an operator, its precedence is below the threshold, and its text is not already enclosed in '(' and ')'; a wrap adds one pair of parentheses |
| Printer.Wrap | src/exp/variable.py:100-106 | the earliest `parenthesize` wraps exactly when an operator child's precedence is below the threshold, whatever its text |
| Printer.Infix | iota/objects/operator.py:70-80 | the text of a binary node is never empty |
| Printer.InfixLayout | iota/objects/operator.py:70-80 | a binary node's text is the left operand's text, wrapped at the parent's precedence, then the symbol between single spaces, then the right operand's text, wrapped at the parent's precedence plus 0.1 |
| Printer.Render | iota/objects/ops.py:19-30 | printing fails exactly when some Logarithm has other than one or two children, with NotImplemented; an operator never prints empty |
| Printer.RenderStrict | iota/objects/operator.py:218-223 | a printer that wraps by precedence alone; it fails in the same cases; a Power whose base binds less tightly starts with the parenthesised base |
| Derivative.Diff | iota/objects/operator.py:106-232 | `diff(wrt)`, with iota/objects/ops.py:53-65 for Logarithm: a Constant gives 0 and a Variable 1 for its own name and 0 otherwise; a Logarithm with no children fails with IndexOutOfRange, one whose base does not evaluate to a number fails with NotImplemented, and one whose base is a number that is not positive fails with MathDomain once its antilog's derivative exists |
| Derivative.SumRule | iota/objects/operator.py:106-109 | `l' + r'`: two numbers add, otherwise a Sum of the lifted derivatives in order |
| Derivative.DifferenceRule | iota/objects/operator.py:132-135 | `l' - r'`: two numbers subtract, otherwise a Difference of the lifted derivatives in order |
| Derivative.ProductRule | iota/objects/operator.py:161-164 | the product rule as written: `Sum(l * r', l' * r)` |
| Derivative.QuotientRule | iota/objects/operator.py:190-193 | the quotient rule as written: `(r * l' - l * r') / (r * r)` |
| Derivative.PowerRule | iota/objects/operator.py:225-232 | the generalised rule `f^g * (g' * ln(f) + g * f' / f)` |
| DerivativeFacts.TimesZero | iota/objects/operator.py:146-153 | a literal zero factor on either side gives 0 exactly when the other factor evaluates |
| DerivativeFacts.ZeroOver | iota/objects/operator.py:175-182 | a literal zero numerator gives 0 exactly when the denominator evaluates, even to 0 |
| DerivativeFacts.ProductOfZeros | iota/objects/operator.py:161-164 | the product rule with both derivatives 0 simplifies to 0 |
| DerivativeFacts.QuotientOfZeros | iota/objects/operator.py:190-193 | the quotient rule with both derivatives 0 simplifies to 0 |
| DerivativeFacts.PowerOfZeros | iota/objects/operator.py:225-232 | the power rule with both derivatives 0 simplifies to 0 |
| DerivativeFacts.DiffFreeIsZero | iota/objects/variable.py:58-60 | differentiating with respect to a name the tree does not mention gives 0, whenever the derivative exists |
| DerivativeFacts.SimplifyResultOk | iota/objects/value.py:24-31 | a simplified term is a number or a tree in the normal form of evaluation results |
| DerivativeFacts.DiffIsSimplified | iota/objects/operator.py:106-109 | every derivative comes back simplified: a number or a normal tree |
| DerivativeFacts.SquareDerivative | iota/objects/operator.py:225-232 | d/dx x^2 is `x^2 * (2 / x)` once simplified |
| DerivativeFacts.SquareSlopeAtThree | iota/objects/operator.py:225-232 | that derivative evaluates to 6 at x = 3, given 3^2 = 9 |
| DerivativeFacts.LogSlopeAtFive | iota/objects/ops.py:53-65 | d/dx log(e, x) is `1 / x`, which is 0.2 at x = 5, given ln(e) = 1 |
| DerivativeFacts.LogDiffFailures | iota/objects/ops.py:53-65 | the Logarithm derivative fails with IndexOutOfRange for `Logarithm()`, NotImplemented for `Logarithm(b, x)` and MathDomain for `Logarithm(-2, x)` and `Logarithm(0, x)` |
| DerivativeFacts.FiveMinusSquareFails | iota/objects/operator.py:119-135 | d/dx (5 - x * x) fails with NoNegation: simplifying `0 - (x + x)` negates a tree |
| DerivativeFacts.SelfPowerDerivative | iota/objects/operator.py:225-232 | d/dx x^x is `x^x * (x / x + ln(x))` once simplified |
| DerivativeFacts.SelfPowerSlope | iota/objects/operator.py:225-232 | at a positive x = v other than 1 that derivative is `v^v * (1 + ln v)`, the true derivative of x^x |
| EvalFacts.MirrorInvolutive | iota/objects/operator.py:104 | swapping the operands of every Sum twice gives the tree back |
| EvalFacts.MirrorNormal | iota/objects/operator.py:93-104 | swapping keeps a tree in the normal form of evaluation results |
| EvalFacts.NormalReEval | iota/objects/operator.py:93-104 | a normal tree evaluated again with no bindings comes back with every Sum swapped |
| EvalFacts.EvalResultNormal | iota/objects/operator.py:93-216 | every tree that eval returns, under any bindings, is in normal form: no literal 0 or 1 where a shortcut would remove it, and no node over two numbers |
| EvalFacts.SumZeroIdentity | iota/objects/operator.py:99-102 | a literal 0 on either side of a Sum leaves the other operand's evaluation unchanged, failure included |
| EvalFacts.DivisionByZero | iota/objects/operator.py:181-184 | a literal zero denominator fails with ZeroDivision unless the numerator evaluates to 0 |
| EvalFacts.LogOutsideDomain | iota/objects/ops.py:40-47 | `Logarithm(1, 5)` fails with ZeroDivision and `Logarithm(-2)` with MathDomain, while `Logarithm(-2, -2)` is 1 by the shortcut before `math.log` |
| EvalFacts.SimplifyPeriodTwo | iota/objects/value.py:24-31 | simplifying a simplified result swaps its Sums, and a third simplification gives the first result back |
| EvalFacts.SimplifyNotIdempotent | iota/objects/operator.py:104 | `x + y` simplifies to `y + x` and back again |
| Semantics.ProductStepSound | iota/objects/operator.py:146-159 | on two numbers every Product shortcut gives the arithmetic product |
| Semantics.PowerStepSound | iota/objects/operator.py:204-216 | on two numbers every Power shortcut gives `x ** y`, given the identities of `**` |
| Semantics.LogStepSound | iota/objects/ops.py:40-47 | for a positive antilog `x` and a positive base `b` other than 1, every Logarithm shortcut gives `log_b(x)`, given the identities of `log` |
| Semantics.EvalSound | iota/objects/operator.py:93-216 | wherever the reference value of a tree is defined, eval returns exactly that number |
| Semantics.ZeroOverZero | iota/objects/operator.py:181-184 | 0/0 has no reference value, yet it evaluates to 0 |
| Semantics.EvalEliminatesBound | iota/objects/variable.py:51-53 | a tree result mentions only variables of the input that the bindings leave unbound |
| Semantics.ClosedEvalIsNumeric | iota/objects/variable.py:51-53 | with every variable bound, a successful evaluation is a number |
| Legacy.LegacyDiff | src/iota.py:95-327 | the single-file `diff`: the same leaf results and Logarithm failures as the package's |
| Legacy.PlainPowerRule | src/iota.py:273-275 | the single-file power rule `(g * f') * f^(g - 1)`, which never differentiates the exponent |
| Legacy.LegacyAgreesWithoutPower | src/iota.py:182-247 | on a tree with no Power node, the single-file diff equals the package's diff |
| Legacy.CubeSlope | src/iota.py:273-275 | for a constant exponent the plain rule is right: d/dx x^3 is `3 * x^2` |
| Legacy.PlainSelfPower | src/iota.py:273-275 | for x^x the plain rule gives `x * x^(x - 1)` |
| Legacy.PlainSelfPowerSlope | src/iota.py:273-275 | that derivative evaluates to `v * v^(v - 1)` at x = v |
| Legacy.PlainSlopeAtTwo | src/iota.py:273-275 | at x = 2 the plain rule's derivative of x^x is 4 |
| Legacy.GeneralSlopeAtTwo | iota/objects/operator.py:225-232 | at x = 2 the generalised rule's derivative of x^x is `4 * (1 + ln 2)` |
| Legacy.SelfPowerSlopesDisagree | src/iota.py:273-275 | the two engines' derivatives of x^x evaluate to different numbers at x = 2 whenever ln 2 is not 0 |
| Earliest.PlainConstruct | src/exp/variable.py:91-115 | the earliest binary constructors succeed exactly when given two children, fail with Arity otherwise, and keep the children in order |
| Earliest.PlainEval | src/exp/variable.py:129-164 | the earliest `eval` fails only with ZeroDivision or NoReflectedPow, and gives a number whenever every variable of the tree is bound |
| Earliest.PlainRender | src/exp/variable.py:117-170 | the earliest `__str__`: a Constant prints as its number, a Variable as its name, and an operator never prints empty |
| Earliest.PlainEvalAgrees | src/exp/variable.py:129-164 | plain evaluation yields a number exactly when the reference value is defined, and then that value |
| Earliest.PlainEvalIsDenotation | src/exp/variable.py:129-164 | plain evaluation gives `x` exactly when the reference value is `x` |
| Earliest.ShortcutsKeepPlainNumbers | src/exp/variable.py:129-164 | every number the plain evaluator gives is also the package's eval result |
| Earliest.ShortcutsDecideMore | src/exp/variable.py:147-148 | `0 * y` is a tree for the plain evaluator and 0 for the package |
| Earliest.PlainRightOperandBare | src/exp/variable.py:117-126 | both operands are held to the parent's own precedence, so a right operand of the same or higher precedence is printed bare at the end of the text |
| Earliest.PlainPrinterLosesGrouping | src/exp/variable.py:117-126 | `a - (b - c)` and `a - b - c` print alike, as `a - b - c` |
| PrinterFacts.RightOperandGrouped | iota/objects/operator.py:70-80 | a right operand of the same or lower precedence always ends the text with ')' |
| PrinterFacts.LeftOperandGrouped | iota/objects/operator.py:70-80 | a left operand of lower precedence always starts the text with '(' |
| PrinterFacts.DifferenceChains | iota/objects/operator.py:70-80 | `(1 - 2) - 3` prints `1 - 2 - 3` and `1 - (2 - 3)` keeps its parentheses |
| PrinterFacts.ProductOfSums | iota/objects/operator.py:38-54 | `(p + q) * (r + s)` wraps both sums |
| PrinterFacts.PowerOfSum | iota/objects/operator.py:218-223 | `(r + s)^n` wraps the sum and has no spaces around `^` |
| PrinterFacts.PowerOfProduct | iota/objects/operator.py:218-223 | a power of a product of sums is not wrapped again, because its text already starts with '(' and ends with ')' |
| PrinterFacts.ProductWithPower | iota/objects/operator.py:218-223 | `(p + q) * (r + s)^n`: the power binds tighter and is not wrapped |
| PrinterFacts.EnclosedTestConflates | iota/objects/operator.py:50-53 | `((p + q) * (r + s))^n` and `(p + q) * (r + s)^n` print as the same text |
| PrinterFacts.StrictKeepsGrouping | iota/objects/operator.py:50-53 | the printer that decides by precedence alone prints those two trees differently |
| Range.MakeContinuous | iota/objects/range.py:32-38 | an interval is built exactly when `a < b`, and keeps `a`, `b` and `closed` |
| Range.Contains | iota/objects/range.py:40-63 | `item in r`: strictly between the ends for an interval whatever `closed` says, set membership for a set; a compound range is stated by `CompoundContains` |
| Range.StartPointExcluded | iota/objects/range.py:40-42 | membership is strict whatever `closed` says, so `a`, the first point the interval yields, is not a member |
| Range.ContainsInterval | iota/objects/range.py:40-42 | membership that honours `closed`: `a <= x <= b` when closed, and the strict test otherwise |
| Range.ContinuousPoints | iota/objects/range.py:44-50 | iteration yields `a, a + step, ...`, each at most `b`, stopping at the first point beyond `b` |
| Range.SteppedIncreasing | iota/objects/range.py:44-50 | the yielded points strictly increase |
| Range.SteppedLength | iota/objects/range.py:44-50 | the n-th point is yielded exactly when `a + n * step <= b` |
| Range.SteppedUnique | iota/objects/range.py:44-50 | an interval and a step determine the yielded points |
| Range.PointsWithinInterval | iota/objects/range.py:44-50 | every yielded point is a member of the closed interval `[a, b]` |
| Range.DiscreteItems | iota/objects/range.py:65-68 | iterating a set yields each element once and nothing else |
| Range.ListsSetLength | iota/objects/range.py:65-68 | it yields as many values as the set has elements |
| Range.DiscreteItemsAreMembers | iota/objects/range.py:61-68 | the values a set yields are exactly its members |
| Range.SingletonItems | iota/objects/range.py:65-68 | a one-element set yields its element once |
| Range.CompoundContains | iota/objects/range.py:80-85 | a compound range contains an item exactly when some sub-range does, so an empty one contains nothing |
| Range.Items | iota/objects/range.py:87-90 | iteration yields what each sub-range yields, one after the other; an interval inside uses step 0.1 |
| Range.CompoundRepeats | iota/objects/range.py:87-90 | repetition is not removed: two copies of `{v}` yield `v` twice |

## Findings

| source | as written | input that shows it | evidently intended | confidence | as-written member | corrected member |
|---|---|---|---|---|---|---|
| iota/objects/operator.py:50-53 | a child is not wrapped when its text starts with '(' and ends with ')' | `((p + q) * (r + s)) ** n` prints as `(p + q) * (r + s)^n`, which is the text of `(p + q) * (r + s) ** n` | skip the wrap only when the text is one enclosing pair, so a product of two sums is still wrapped | high, not executed | PrinterFacts.EnclosedTestConflates | PrinterFacts.StrictKeepsGrouping |
| src/iota.py:273-275 | `Power.diff` is `g * f' * f ** (g - 1)` | d/dx x^x at x = 2 gives 4, while the derivative is `4 * (1 + ln 2)` | the generalised rule that the package uses | high, not executed | Legacy.SelfPowerSlopesDisagree | DerivativeFacts.SelfPowerSlope |
| iota/objects/range.py:40-42 | `a < item < b` whatever `closed` says | `ContinuousRange(0, 1)` is closed by default and yields 0 first, yet `0 in r` is False | the closed interval `[a, b]` holds its end points | medium, not executed | Range.StartPointExcluded | Range.PointsWithinInterval |

In all three cases, the rest of the model keeps the behaviour as written. The
as-written code is the program being modelled; the corrected members stand
beside it.

## Left out

- Floating point: numbers are reals, with no rounding, infinity or NaN. `E` is the double nearest to e.
- `math.log`, `math.log(x)` and `**` on numbers: their values are left open as fields of `Numerics`; their exceptions are modelled. Lemmas that need their identities say so with `Semantics.Lawful`.
- A negative number raised to a fractional power is a complex number in Python; here it is whatever `pow` gives.
- Python `str` of a number: a `show` parameter.
- Python int versus float results: Power's exponent-0 result `1` and the leaves' derivatives `0` and `1` are the reals 1.0, 0.0 and 1.0.
- Value.Construct: Power has no arity assertion in the source (iota/objects/operator.py:196), but `Expr.Power` holds exactly two children, so a Power with other than two children cannot be represented.
- Earliest.PlainConstruct: the same holds for the earliest engine's Power.
- Earliest.PlainConstruct: that engine's constructors do not lift numbers, so `Sum(2, x)` holds a bare Python number as a child. It prints `2 + x`, and its `eval` raises AttributeError. Children here are trees, so such a node is not represented: `Earliest.PlainEval` and `Earliest.PlainRender` cover only trees built through the operators, which lift.
- Earliest.PlainEval: requires a tree with no Logarithm, because that engine has no Logarithm class.
- Earliest.PlainEval: its value is stated by `Earliest.PlainEvalAgrees` and the lemmas after it, not on the function itself.
- Earliest.PlainRender: its grouping is stated by `PlainRightOperandBare` and `PlainPrinterLosesGrouping`, not on the function itself.
- Operator.Eval: its own contract says only that a tree result is never a Constant. What it computes is stated by the step functions, `Semantics.EvalSound`, `EvalFacts.EvalResultNormal` and `Semantics.EvalEliminatesBound`.
- Derivative.Diff and Legacy.LegacyDiff: their own contracts state the leaves and the Logarithm failures. What they compute for the operators is stated by the rule functions and the `DerivativeFacts` and `Legacy` lemmas.
- Range.Contains: its own contract covers intervals and sets. Compound ranges are stated by `Range.CompoundContains`.
- The difference between passing no bindings and passing `{}` is not modelled. Both mean the empty map, and the results are the same.
- Bindings are names mapped to numbers; a Python dict holding other objects is not modelled.
- Range.ContinuousPoints: requires a positive step. With a step of 0 or below the Python generator never ends.
- Range.ContinuousPoints: points are exact reals, so float drift in `x += step` is not modelled.
- The order in which a Python set is iterated is unspecified. `Range.Enumerates` admits every order, and `DiscreteItems` picks one.
- A CompoundRange is given its sub-ranges as a sequence, iterated in that order.
- The abstract `Range` base class, whose methods only raise NotImplementedError, is not modelled.
- The random-variable layer (iota/objects/rvs.py, iota/objects/random_variable.py) wraps random sampling and is not part of this model.
- Not modelled: the `__main__` demos, src/__init__.py, the decorators and the circular imports. The decorators and imports are replaced by explicit lifting and `Simplify` calls.
- `simplify` is not idempotent: a symbolic Sum is rebuilt as `right + left`, so simplifying a simplified result mirrors it. The model proves period two instead (`EvalFacts.SimplifyPeriodTwo`, `EvalFacts.SimplifyNotIdempotent`).
- A Logarithm with other than one or two children is built without complaint:
  - printing such a Logarithm fails with NotImplemented;
  - evaluating or differentiating one with no children fails with IndexOutOfRange;
  - one with three or more children uses its first two.
