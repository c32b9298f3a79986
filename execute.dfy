/**
 * The executor itself: methods that update the RAM in place and append to
 * standard output, each proved to do what the corresponding function of
 * `Semantics` says. The evaluator of binary expressions has no `modifies` clause
 * for the RAM: it cannot change memory, whether it succeeds or fails.
 */
module Execute {

  import opened Wrappers
  import opened ProgramGraph
  import opened Memory
  import opened Output
  import opened CArith
  import opened Evaluate
  import opened Semantics

  /** Fetch one operand of a binary expression as an integer, reporting why when
      it is not one. */
  method FetchOperand(elt: Element, memory: Ram, lineNo: int, out: Console) returns (ok: bool, value: int)
    modifies out
    ensures var r := ResolveOperand(memory.cells, elt);
      && ok == r.Ok?
      && (ok ==> value == r.value)
      && out.events == old(out.events) + (if ok then [] else [Error(r.error, lineNo)])
  {
    value := 0;
    match elt
    case IntLit(t) =>
      ok, value := true, Atoi(t);
    case Ident(n) =>
      var rv := memory.ReadCellByName(n);
      if rv.None? {
        out.Emit(Error(NotDefined(n), lineNo));
        return false, 0;
      }
      if !rv.value.Int? {
        out.Emit(Error(ExpectedInteger, lineNo));
        return false, 0;
      }
      ok, value := true, rv.value.i;
    case _ =>
      out.Emit(Error(ExpectedIntegerLiteralOrVariable, lineNo));
      ok := false;
  }

  /** Evaluate `lhs op rhs`: the left operand, then the right, then the operator.
      On failure exactly one error is reported and `result` means nothing. */
  method ExecuteBinaryExpression(lhs: Element, op: Operator, rhs: Element, memory: Ram, lineNo: int, out: Console)
    returns (ok: bool, result: int)
    modifies out
    ensures var r := EvalBinary(memory.cells, lhs, op, rhs);
      && ok == r.Ok?
      && (ok ==> result == r.value)
      && out.events == old(out.events) + (if ok then [] else [Error(r.error, lineNo)])
  {
    var okLeft, left := FetchOperand(lhs, memory, lineNo, out);
    if !okLeft {
      return false, 0;
    }
    var okRight, right := FetchOperand(rhs, memory, lineNo, out);
    if !okRight {
      return false, 0;
    }
    ok, result := true, 0;
    match op
    case Plus =>
      result := left + right;
    case Minus =>
      result := left - right;
    case Asterisk =>
      result := left * right;
    case Div =>
      if right == 0 {
        out.Emit(Error(DivideByZero, lineNo));
        ok := false;
      } else {
        result := TruncDiv(left, right);
      }
    case Mod =>
      if right == 0 {
        out.Emit(Error(ModByZero, lineNo));
        ok := false;
      } else {
        result := TruncMod(left, right);
      }
    case Power =>
      result := CArith.Power(left, right);
    case OtherOp =>
      out.Emit(Error(UnsupportedOperator, lineNo));
      ok := false;
  }

  /** Execute an assignment statement against the RAM. */
  method ExecuteAssignment(stmt: Stmt, memory: Ram, out: Console) returns (ok: bool)
    requires stmt.Assignment?
    requires memory.Valid()
    modifies memory, out
    ensures memory.Valid()
    ensures var o := AssignmentStep(old(memory.cells), stmt.line, stmt.varName, stmt.isPtrDeref, stmt.rhs);
      && ok == o.ok
      && memory.cells == o.cells
      && out.events == old(out.events) + o.emitted
  {
    var varName, line := stmt.varName, stmt.line;
    if stmt.rhs.NonExpr? {
      out.Emit(Error(InvalidRhs, line));
      return false;
    }
    var expr := stmt.rhs.expr;

    // Assignment through a pointer: `*varName = expr`.
    if stmt.isPtrDeref {
      var pval := memory.ReadCellByName(varName);
      if pval.None? {
        out.Emit(Error(NotDefined(varName), line));
        return false;
      }
      if !pval.value.Int? && !pval.value.Ptr? {
        out.Emit(Error(InvalidPointerValue, line));
        return false;
      }
      var addr := if pval.value.Int? then pval.value.i else pval.value.addr;

      var rv: Value;
      if expr.Binary? {
        var okExpr, computed := ExecuteBinaryExpression(expr.lhs, expr.op, expr.rhs, memory, line, out);
        if !okExpr {
          return false;
        }
        rv := Int(computed);
      } else {
        match expr.elem
        case IntLit(t) =>
          rv := Int(Atoi(t));
        case RealLit(t) =>
          rv := Real(t);
        case StrLit(t) =>
          rv := Str(t);
        case Ident(n) =>
          var src := memory.ReadCellByName(n);
          if src.None? {
            out.Emit(Error(NotDefined(n), line));
            return false;
          }
          rv := src.value;
        case OtherElement(_) =>
          out.Emit(Error(ExpectedLiteralOrVariable, line));
          return false;
      }

      var written := memory.WriteCellByAddr(rv, addr);
      if !written {
        out.Emit(Error(InvalidAddress, line));
        return false;
      }
      return true;
    }

    // Direct assignment: `varName = expr`.
    if expr.Binary? {
      var okExpr, computed := ExecuteBinaryExpression(expr.lhs, expr.op, expr.rhs, memory, line, out);
      if !okExpr {
        return false;
      }
      memory.WriteCellByName(Int(computed), varName);
      return true;
    }

    // A single term: an identifier is copied at once, a literal is converted.
    var rv: Value;
    match expr.elem {
      case Ident(n) =>
        var src := memory.ReadCellByName(n);
        if src.None? {
          out.Emit(Error(NotDefined(n), line));
          return false;
        }
        memory.WriteCellByName(src.value, varName);
        return true;
      case IntLit(t) =>
        rv := Int(Atoi(t));
      case RealLit(t) =>
        rv := Real(t);
      case StrLit(t) =>
        rv := Str(t);
      case OtherElement(_) =>
        out.Emit(Error(ExpectedLiteralOrVariable, line));
        return false;
    }
    memory.WriteCellByName(rv, varName);
    return true;
  }

  /** Execute a call statement; only `print` exists. The RAM is only read. */
  method ExecuteFunctionCall(stmt: Stmt, memory: Ram, out: Console) returns (ok: bool)
    requires stmt.FunctionCall?
    modifies out
    ensures var o := CallStep(memory.cells, stmt.line, stmt.functionName, stmt.param);
      && ok == o.ok
      && out.events == old(out.events) + o.emitted
  {
    var line := stmt.line;
    if stmt.functionName != "print" {
      out.Emit(Error(UnknownFunction(stmt.functionName), line));
      return false;
    }
    if stmt.param.None? {
      out.Emit(Newline);
      return true;
    }
    ok := true;
    match stmt.param.value
    case StrLit(t) =>
      out.Emit(OutStr(t));
      out.Emit(Newline);
    case IntLit(t) =>
      out.Emit(OutInt(Atoi(t)));
      out.Emit(Newline);
    case RealLit(t) =>
      out.Emit(OutReal(t));
      out.Emit(Newline);
    case Ident(n) =>
      var rvp := memory.ReadCellByName(n);
      if rvp.None? {
        out.Emit(Error(NotDefined(n), line));
        return false;
      }
      match rvp.value {
        case Int(i) =>
          out.Emit(OutInt(i));
          out.Emit(Newline);
        case Real(t) =>
          out.Emit(OutReal(t));
          out.Emit(Newline);
        case Str(s) =>
          out.Emit(OutStr(s));
          out.Emit(Newline);
        case Ptr(_) =>
          out.Emit(Error(CannotPrintValue, line));
          ok := false;
      }
    case OtherElement(_) =>
      out.Emit(Error(InvalidPrintArgument, line));
      ok := false;
  }

  /** Dispatch one statement on its kind; `pass` does nothing. */
  method ExecuteStatement(stmt: Stmt, memory: Ram, out: Console) returns (ok: bool)
    requires memory.Valid()
    modifies memory, out
    ensures memory.Valid()
    ensures var o := StmtStep(old(memory.cells), stmt);
      && ok == o.ok
      && memory.cells == o.cells
      && out.events == old(out.events) + o.emitted
  {
    match stmt {
      case Assignment(_, _, _, _) =>
        ok := ExecuteAssignment(stmt, memory, out);
      case FunctionCall(_, _, _) =>
        ok := ExecuteFunctionCall(stmt, memory, out);
      case Pass(_) =>
        ok := true;
    }
  }

  /** One pass of the loop in `Execute`: run statement `i`, given that the
      statements before it succeeded, left the current memory and wrote `done`
      after `base`. `total` is what the whole program does from the start: when the
      statement succeeds the rest of the run still leads to `total`; when it fails
      memory and output are already those of `total`. */
  method ExecuteNext(program: Program, i: nat, memory: Ram, out: Console,
                     ghost base: seq<Event>, ghost total: Outcome, ghost done: seq<Event>) returns (ok: bool, ghost done': seq<Event>)
    requires i < |program| && memory.Valid()
    requires out.events == base + done
    requires total == Then(Outcome(true, memory.cells, done), Run(memory.cells, program[i..]))
    modifies memory, out
    ensures memory.Valid()
    ensures out.events == base + done'
    ensures ok ==> total == Then(Outcome(true, memory.cells, done'), Run(memory.cells, program[i + 1..]))
    ensures !ok ==> memory.cells == total.cells && total.emitted == done'
  {
    ghost var step := StmtStep(memory.cells, program[i]);
    RunResumes(total, memory.cells, done, program, i);
    ok := ExecuteStatement(program[i], memory, out);
    done' := done + step.emitted;
  }

  /** Execute the statements in order until one fails or none is left. */
  method Execute(program: Program, memory: Ram, out: Console)
    requires memory.Valid()
    modifies memory, out
    ensures memory.Valid()
    ensures var o := Run(old(memory.cells), program);
      && memory.cells == o.cells
      && out.events == old(out.events) + o.emitted
  {
    ghost var total := Run(memory.cells, program);
    var i := 0;
    ghost var done: seq<Event> := [];
    while i < |program|
      invariant 0 <= i <= |program|
      invariant memory.Valid()
      invariant out.events == old(out.events) + done
      invariant total == Then(Outcome(true, memory.cells, done), Run(memory.cells, program[i..]))
    {
      var ok;
      ok, done := ExecuteNext(program, i, memory, out, old(out.events), total, done);
      if !ok {
        return;
      }
      i := i + 1;
    }
    assert program[i..] == [];
  }
}
