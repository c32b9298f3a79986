/**
 * Expression evaluation over a memory snapshot. Everything here only reads the
 * cells: evaluation never changes memory, whether it succeeds or fails.
 */
module Evaluate {

  import opened Wrappers
  import opened ProgramGraph
  import opened Memory
  import opened Output
  import opened CArith

  /** One operand of a binary expression: an integer literal, or a variable that
      must be defined and hold an `Int`. */
  function ResolveOperand(cells: seq<Cell>, e: Element): Result<int, ErrorKind>
  {
    match e
    case IntLit(t) => Ok(Atoi(t))
    case Ident(n) =>
      (match Lookup(cells, n)
       case None => Fail(NotDefined(n))
       case Some(v) => if v.Int? then Ok(v.i) else Fail(ExpectedInteger))
    case _ => Fail(ExpectedIntegerLiteralOrVariable)
  }

  /** The operator applied to two resolved integers, with C's `/` and `%`. */
  function ApplyOperator(op: Operator, left: int, right: int): Result<int, ErrorKind>
  {
    match op
    case Plus => Ok(left + right)
    case Minus => Ok(left - right)
    case Asterisk => Ok(left * right)
    case Div => if right == 0 then Fail(DivideByZero) else Ok(TruncDiv(left, right))
    case Mod => if right == 0 then Fail(ModByZero) else Ok(TruncMod(left, right))
    case Power => Ok(if right <= 0 then 1 else IntPow(left, right))
    case OtherOp => Fail(UnsupportedOperator)
  }

  /** `lhs op rhs`: the left operand is resolved first, then the right, and only
      then is the operator applied. */
  function EvalBinary(cells: seq<Cell>, lhs: Element, op: Operator, rhs: Element): Result<int, ErrorKind>
  {
    match ResolveOperand(cells, lhs)
    case Fail(k) => Fail(k)
    case Ok(left) =>
      match ResolveOperand(cells, rhs)
      case Fail(k) => Fail(k)
      case Ok(right) => ApplyOperator(op, left, right)
  }

  /** The value an assignment's right-hand side denotes: a binary expression gives
      an `Int`, a literal gives the value of its own type, an identifier gives a
      copy of the variable's value (of any type). */
  function RhsValue(cells: seq<Cell>, expr: Expr): Result<Value, ErrorKind>
  {
    match expr
    case Binary(l, op, r) =>
      (match EvalBinary(cells, l, op, r)
       case Fail(k) => Fail(k)
       case Ok(i) => Ok(Int(i)))
    case Unary(elem) =>
      match elem
      case IntLit(t) => Ok(Int(Atoi(t)))
      case RealLit(t) => Ok(Real(t))
      case StrLit(t) => Ok(Str(t))
      case Ident(n) =>
        (match Lookup(cells, n)
         case None => Fail(NotDefined(n))
         case Some(v) => Ok(v))
      case OtherElement(_) => Fail(ExpectedLiteralOrVariable)
  }

  /** The three ways an operand can fail, and that every other operand resolves. */
  lemma ResolveOperandCases(cells: seq<Cell>, e: Element)
    ensures ResolveOperand(cells, e).Ok? <==>
      e.IntLit? || (e.Ident? && Lookup(cells, e.name).Some? && Lookup(cells, e.name).value.Int?)
    ensures e.RealLit? || e.StrLit? || e.OtherElement? ==>
      ResolveOperand(cells, e) == Fail(ExpectedIntegerLiteralOrVariable)
    ensures e.Ident? && Lookup(cells, e.name).None? ==>
      ResolveOperand(cells, e) == Fail(NotDefined(e.name))
    ensures e.Ident? && Lookup(cells, e.name).Some? && !Lookup(cells, e.name).value.Int? ==>
      ResolveOperand(cells, e) == Fail(ExpectedInteger)
    ensures e.Ident? && ResolveOperand(cells, e).Ok? ==>
      Lookup(cells, e.name) == Some(Int(ResolveOperand(cells, e).value))
  {
  }

  /** Operand errors come before any operator is applied, the left operand's first:
      when an operand fails the result does not depend on the operator. */
  lemma OperandErrorsFirst(cells: seq<Cell>, lhs: Element, op: Operator, rhs: Element, op': Operator)
    ensures ResolveOperand(cells, lhs).Fail? ==>
      EvalBinary(cells, lhs, op, rhs) == Fail(ResolveOperand(cells, lhs).error)
    ensures ResolveOperand(cells, lhs).Ok? && ResolveOperand(cells, rhs).Fail? ==>
      EvalBinary(cells, lhs, op, rhs) == Fail(ResolveOperand(cells, rhs).error)
    ensures ResolveOperand(cells, lhs).Fail? || ResolveOperand(cells, rhs).Fail? ==>
      EvalBinary(cells, lhs, op, rhs) == EvalBinary(cells, lhs, op', rhs)
  {
  }

  /** With both operands resolved, `+ - *` are integer arithmetic, `**` is the
      power for a non-negative exponent and 1 otherwise, and any other operator is
      unsupported. */
  lemma ArithmeticResults(cells: seq<Cell>, lhs: Element, rhs: Element, a: int, b: int)
    requires ResolveOperand(cells, lhs) == Ok(a) && ResolveOperand(cells, rhs) == Ok(b)
    ensures EvalBinary(cells, lhs, Plus, rhs) == Ok(a + b)
    ensures EvalBinary(cells, lhs, Minus, rhs) == Ok(a - b)
    ensures EvalBinary(cells, lhs, Asterisk, rhs) == Ok(a * b)
    ensures b >= 0 ==> EvalBinary(cells, lhs, Power, rhs) == Ok(IntPow(a, b))
    ensures b <= 0 ==> EvalBinary(cells, lhs, Power, rhs) == Ok(1)
    ensures EvalBinary(cells, lhs, OtherOp, rhs) == Fail(UnsupportedOperator)
  {
  }

  /** Division and modulo by zero are errors; otherwise the quotient truncates
      toward zero and `a == (a/b)*b + a%b`, with the remainder smaller than the
      divisor and carrying the dividend's sign. */
  lemma DivModIdentity(cells: seq<Cell>, lhs: Element, rhs: Element, a: int, b: int)
    requires ResolveOperand(cells, lhs) == Ok(a) && ResolveOperand(cells, rhs) == Ok(b)
    ensures b == 0 <==> EvalBinary(cells, lhs, Div, rhs) == Fail(DivideByZero)
    ensures b == 0 <==> EvalBinary(cells, lhs, Mod, rhs) == Fail(ModByZero)
    ensures b != 0 ==>
      var q := EvalBinary(cells, lhs, Div, rhs).value;
      var m := EvalBinary(cells, lhs, Mod, rhs).value;
      && a == q * b + m
      && Abs(m) < Abs(b)
      && (a >= 0 ==> m >= 0)
      && (a <= 0 ==> m <= 0)
      && Abs(q * b) <= Abs(a)
  {
    if b != 0 {
      TruncDivMod(a, b);
    }
  }

  /** A right-hand side fails exactly when the source reports an error for it, and
      an identifier copies the variable's value whatever its type. */
  lemma RhsValueCases(cells: seq<Cell>, expr: Expr)
    ensures expr.Binary? ==>
      (RhsValue(cells, expr).Ok? <==> EvalBinary(cells, expr.lhs, expr.op, expr.rhs).Ok?)
    ensures expr.Binary? && RhsValue(cells, expr).Ok? ==>
      RhsValue(cells, expr).value == Int(EvalBinary(cells, expr.lhs, expr.op, expr.rhs).value)
    ensures expr.Unary? && expr.elem.Ident? ==>
      (RhsValue(cells, expr).Ok? <==> Lookup(cells, expr.elem.name).Some?)
    ensures expr.Unary? && expr.elem.Ident? && RhsValue(cells, expr).Ok? ==>
      Some(RhsValue(cells, expr).value) == Lookup(cells, expr.elem.name)
    ensures expr.Unary? && expr.elem.OtherElement? ==> RhsValue(cells, expr) == Fail(ExpectedLiteralOrVariable)
    ensures expr.Unary? && !expr.elem.Ident? && !expr.elem.OtherElement? ==> RhsValue(cells, expr).Ok?
  {
  }
}
