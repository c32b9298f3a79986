/**
 * The meaning of each statement and of a whole program, as functions from the
 * memory before to the memory after and the output produced. A statement either
 * succeeds, producing its writes and its printed output, or fails, leaving
 * memory as it was and producing exactly one error event at its source line.
 */
module Semantics {

  import opened Wrappers
  import opened ProgramGraph
  import opened Memory
  import opened Output
  import opened CArith
  import opened Evaluate

  /** What running one statement (or a program) did: whether it succeeded, the
      memory afterwards, and the events it wrote, in order. */
  datatype Outcome = Outcome(ok: bool, cells: seq<Cell>, emitted: seq<Event>)

  function Fails(cells: seq<Cell>, k: ErrorKind, line: int): Outcome
  {
    Outcome(false, cells, [Error(k, line)])
  }

  /** The address a pointer variable holds: pointers are stored either as `Int`
      or as `Ptr` values; any other tag holds no address. */
  function PointerAddress(v: Value): Option<int>
  {
    match v
    case Int(i) => Some(i)
    case Ptr(a) => Some(a)
    case _ => None
  }

  /** `varName = rhs`, or `*varName = rhs` when `isPtrDeref` holds. */
  function AssignmentStep(cells: seq<Cell>, line: int, varName: string, isPtrDeref: bool, rhs: Rhs): Outcome
  {
    match rhs
    case NonExpr => Fails(cells, InvalidRhs, line)
    case RhsExpr(expr) =>
      if isPtrDeref then
        match Lookup(cells, varName)
        case None => Fails(cells, NotDefined(varName), line)
        case Some(pv) =>
          match PointerAddress(pv)
          case None => Fails(cells, InvalidPointerValue, line)
          case Some(addr) =>
            match RhsValue(cells, expr)
            case Fail(k) => Fails(cells, k, line)
            case Ok(v) =>
              match StoreAt(cells, addr, v)
              case None => Fails(cells, InvalidAddress, line)
              case Some(cells') => Outcome(true, cells', [])
      else
        match RhsValue(cells, expr)
        case Fail(k) => Fails(cells, k, line)
        case Ok(v) => Outcome(true, Store(cells, varName, v), [])
  }

  /** A call statement: only `print`, with no argument or one element. */
  function CallStep(cells: seq<Cell>, line: int, functionName: string, param: Option<Element>): Outcome
  {
    if functionName != "print" then Fails(cells, UnknownFunction(functionName), line)
    else
      match param
      case None => Outcome(true, cells, [Newline])
      case Some(StrLit(t)) => Outcome(true, cells, [OutStr(t), Newline])
      case Some(IntLit(t)) => Outcome(true, cells, [OutInt(Atoi(t)), Newline])
      case Some(RealLit(t)) => Outcome(true, cells, [OutReal(t), Newline])
      case Some(Ident(n)) =>
        (match Lookup(cells, n)
         case None => Fails(cells, NotDefined(n), line)
         case Some(Int(i)) => Outcome(true, cells, [OutInt(i), Newline])
         case Some(Real(t)) => Outcome(true, cells, [OutReal(t), Newline])
         case Some(Str(s)) => Outcome(true, cells, [OutStr(s), Newline])
         case Some(Ptr(_)) => Fails(cells, CannotPrintValue, line))
      case Some(OtherElement(_)) => Fails(cells, InvalidPrintArgument, line)
  }

  /** Dispatch on the statement kind; `pass` does nothing. */
  function StmtStep(cells: seq<Cell>, s: Stmt): Outcome
  {
    match s
    case Assignment(line, varName, isPtrDeref, rhs) => AssignmentStep(cells, line, varName, isPtrDeref, rhs)
    case FunctionCall(line, functionName, param) => CallStep(cells, line, functionName, param)
    case Pass(_) => Outcome(true, cells, [])
  }

  /** `first` followed by `rest`, which runs only when `first` succeeded. */
  function Then(first: Outcome, rest: Outcome): Outcome
    requires first.ok
  {
    Outcome(rest.ok, rest.cells, first.emitted + rest.emitted)
  }

  /** Run the statements in order, stopping at the first one that fails. */
  function Run(cells: seq<Cell>, program: Program): Outcome
    decreases |program|
  {
    if program == [] then Outcome(true, cells, [])
    else
      var o := StmtStep(cells, program[0]);
      if !o.ok then o else Then(o, Run(o.cells, program[1..]))
  }

  /** A failing statement writes nothing and emits exactly one error, at its own
      line; a succeeding statement emits no error, and an assignment emits nothing. */
  lemma StepFailsCleanly(cells: seq<Cell>, s: Stmt)
    ensures !StmtStep(cells, s).ok ==>
      && StmtStep(cells, s).cells == cells
      && |StmtStep(cells, s).emitted| == 1
      && StmtStep(cells, s).emitted[0].Error?
      && StmtStep(cells, s).emitted[0].line == s.line
    ensures StmtStep(cells, s).ok ==> forall e :: e in StmtStep(cells, s).emitted ==> !e.Error?
    ensures StmtStep(cells, s).ok && !s.FunctionCall? ==> StmtStep(cells, s).emitted == []
    ensures !s.Assignment? ==> StmtStep(cells, s).cells == cells
  {
  }

  /** Direct assignment: it succeeds exactly when the right-hand side evaluates;
      then `varName` reads the new value, every other name reads as before, and
      every existing cell keeps its address; otherwise memory is unchanged. */
  lemma DirectAssignment(cells: seq<Cell>, line: int, varName: string, rhs: Rhs)
    ensures var o := AssignmentStep(cells, line, varName, false, rhs);
      && (o.ok <==> rhs.RhsExpr? && RhsValue(cells, rhs.expr).Ok?)
      && (!o.ok ==> o.cells == cells)
      && (rhs.NonExpr? ==> o.emitted == [Error(InvalidRhs, line)])
      && (o.ok ==> Lookup(o.cells, varName) == Some(RhsValue(cells, rhs.expr).value))
      && (o.ok ==> forall other :: other != varName ==> Lookup(o.cells, other) == Lookup(cells, other))
      && (o.ok ==> |o.cells| >= |cells| && forall i :: 0 <= i < |cells| ==> o.cells[i].name == cells[i].name)
  {
    var o := AssignmentStep(cells, line, varName, false, rhs);
    if o.ok {
      var v := RhsValue(cells, rhs.expr).value;
      LookupStore(cells, varName, v, varName);
      forall other | other != varName
        ensures Lookup(o.cells, other) == Lookup(cells, other)
      {
        LookupStore(cells, varName, v, other);
      }
      StoreAddresses(cells, varName, v);
    }
  }

  /** `dst = src` gives `dst` the value `src` holds, whatever its type, and fails
      with "not defined" when `src` is undefined. */
  lemma CopyAssignment(cells: seq<Cell>, line: int, dst: string, src: string)
    ensures var o := AssignmentStep(cells, line, dst, false, RhsExpr(Unary(Ident(src))));
      && (Lookup(cells, src).None? ==> o == Fails(cells, NotDefined(src), line))
      && (Lookup(cells, src).Some? ==> o.ok && Lookup(o.cells, dst) == Lookup(cells, src))
  {
    if Lookup(cells, src).Some? {
      LookupStore(cells, dst, Lookup(cells, src).value, dst);
    }
  }

  /** A copy is independent of its source: after `b = a`, assigning `a` again leaves
      `b` with the value `a` had at the copy. */
  lemma CopyIsIndependent(cells: seq<Cell>, a: string, b: string, expr: Expr, line1: int, line2: int)
    requires a != b
    requires Lookup(cells, a).Some?
    requires RhsValue(Store(cells, b, Lookup(cells, a).value), expr).Ok?
    ensures var o := Run(cells, [Assignment(line1, b, false, RhsExpr(Unary(Ident(a)))),
                                 Assignment(line2, a, false, RhsExpr(expr))]);
      o.ok && Lookup(o.cells, b) == Lookup(cells, a)
  {
    var v := Lookup(cells, a).value;
    var c1 := Store(cells, b, v);
    var w := RhsValue(c1, expr).value;
    LookupStore(cells, b, v, b);
    LookupStore(c1, a, w, b);
    var s1 := Assignment(line1, b, false, RhsExpr(Unary(Ident(a))));
    var s2 := Assignment(line2, a, false, RhsExpr(expr));
    assert StmtStep(cells, s1) == Outcome(true, c1, []);
    assert StmtStep(c1, s2) == Outcome(true, Store(c1, a, w), []);
    assert Run(c1, [s2]) == Outcome(true, Store(c1, a, w), []) by {
      assert [s2][1..] == [];
    }
    assert [s1, s2][1..] == [s2];
  }

  /** Indirect assignment checks, in order: the right-hand side is an expression,
      the pointer variable is defined, it holds an address, the right-hand side
      evaluates, the address exists. Each failure reports its own error. */
  lemma IndirectAssignmentOrder(cells: seq<Cell>, line: int, p: string, rhs: Rhs)
    ensures var o := AssignmentStep(cells, line, p, true, rhs);
      && (rhs.NonExpr? ==> o == Fails(cells, InvalidRhs, line))
      && (rhs.RhsExpr? && Lookup(cells, p).None? ==> o == Fails(cells, NotDefined(p), line))
      && (rhs.RhsExpr? && Lookup(cells, p).Some? && PointerAddress(Lookup(cells, p).value).None? ==>
            o == Fails(cells, InvalidPointerValue, line))
      && (rhs.RhsExpr? && Lookup(cells, p).Some? && PointerAddress(Lookup(cells, p).value).Some? &&
          RhsValue(cells, rhs.expr).Fail? ==>
            o == Fails(cells, RhsValue(cells, rhs.expr).error, line))
      && (rhs.RhsExpr? && Lookup(cells, p).Some? && PointerAddress(Lookup(cells, p).value).Some? &&
          RhsValue(cells, rhs.expr).Ok? ==>
            var addr := PointerAddress(Lookup(cells, p).value).value;
            (o.ok <==> 0 <= addr < |cells|) && (!o.ok ==> o == Fails(cells, InvalidAddress, line)))
  {
  }

  /** A successful indirect assignment writes only the cell at the address the
      pointer holds: that cell keeps its name and takes the value, every other cell
      is untouched, and the pointer variable itself reads as before unless it is
      the cell at that address. */
  lemma IndirectAssignmentFrame(cells: seq<Cell>, line: int, p: string, expr: Expr)
    requires UniqueNames(cells)
    ensures var o := AssignmentStep(cells, line, p, true, RhsExpr(expr));
      o.ok ==>
        var addr := PointerAddress(Lookup(cells, p).value).value;
        var v := RhsValue(cells, expr).value;
        && 0 <= addr < |cells|
        && |o.cells| == |cells|
        && o.cells[addr] == Cell(cells[addr].name, v)
        && (forall j :: 0 <= j < |cells| && j != addr ==> o.cells[j] == cells[j])
        && UniqueNames(o.cells)
        && (cells[addr].name != p ==> Lookup(o.cells, p) == Lookup(cells, p))
        && (forall other :: other != cells[addr].name ==> Lookup(o.cells, other) == Lookup(cells, other))
  {
    var o := AssignmentStep(cells, line, p, true, RhsExpr(expr));
    if o.ok {
      var addr := PointerAddress(Lookup(cells, p).value).value;
      var v := RhsValue(cells, expr).value;
      StoreAtFrame(cells, addr, v);
      forall other | other != cells[addr].name
        ensures Lookup(o.cells, other) == Lookup(cells, other)
      {
        LookupStoreAt(cells, addr, v, other);
      }
      LookupStoreAt(cells, addr, v, p);
    }
  }

  /** `print`: any other function name is an error and prints nothing else;
      `print()` emits exactly one newline; an undefined variable is an error and
      prints nothing else; a pointer cannot be printed; every successful print ends
      its line. A call never changes memory. */
  lemma PrintCases(cells: seq<Cell>, line: int, f: string, param: Option<Element>)
    ensures var o := CallStep(cells, line, f, param);
      && o.cells == cells
      && (f != "print" ==> o == Fails(cells, UnknownFunction(f), line))
      && (f == "print" && param.None? ==> o.ok && o.emitted == [Newline])
      && (f == "print" && param.Some? && param.value.Ident? && Lookup(cells, param.value.name).None? ==>
            o == Fails(cells, NotDefined(param.value.name), line))
      && (f == "print" && param.Some? && param.value.Ident? && Lookup(cells, param.value.name).Some? ==>
            (o.ok <==> !Lookup(cells, param.value.name).value.Ptr?))
      && (f == "print" && param.Some? && param.value.OtherElement? ==> o == Fails(cells, InvalidPrintArgument, line))
      && (o.ok ==> |o.emitted| >= 1 && o.emitted[|o.emitted| - 1] == Newline)
  {
  }

  /** The run from statement `i` is that statement's step, then, if it succeeded,
      the run from statement `i + 1`. */
  lemma RunStep(cells: seq<Cell>, p: Program, i: nat)
    requires i < |p|
    ensures Run(cells, p[i..]) ==
      var step := StmtStep(cells, p[i]);
      if step.ok then Then(step, Run(step.cells, p[i + 1..])) else step
  {
    assert p[i..][0] == p[i];
    assert p[i..][1..] == p[i + 1..];
  }

  /** One step of a run in progress: `total` is what the whole program does, given
      that the statements before `i` succeeded, wrote `done` and left `cells`. */
  lemma RunResumes(total: Outcome, cells: seq<Cell>, done: seq<Event>, p: Program, i: nat)
    requires i < |p|
    requires total == Then(Outcome(true, cells, done), Run(cells, p[i..]))
    ensures var step := StmtStep(cells, p[i]);
      && (step.ok ==> total == Then(Outcome(true, step.cells, done + step.emitted), Run(step.cells, p[i + 1..])))
      && (!step.ok ==> total.cells == step.cells && total.emitted == done + step.emitted)
  {
    RunStep(cells, p, i);
  }

  /** Running `p + q` runs `p`; `q` runs only if every statement of `p` succeeded,
      starting from the memory `p` left. */
  lemma {:induction false} RunAppend(cells: seq<Cell>, p: Program, q: Program)
    ensures Run(cells, p + q) ==
      if Run(cells, p).ok then Then(Run(cells, p), Run(Run(cells, p).cells, q)) else Run(cells, p)
    decreases |p|
  {
    if p == [] {
      assert p + q == q;
    } else {
      var o := StmtStep(cells, p[0]);
      assert Run(cells, p + q) == if o.ok then Then(o, Run(o.cells, p[1..] + q)) else o by {
        assert (p + q)[0] == p[0];
        assert (p + q)[1..] == p[1..] + q;
      }
      if o.ok {
        var r := Run(o.cells, p[1..]);
        RunAppend(o.cells, p[1..], q);
        if r.ok {
          var x := Run(r.cells, q);
          assert o.emitted + (r.emitted + x.emitted) == (o.emitted + r.emitted) + x.emitted;
        }
      }
    }
  }

  /** Once a statement fails, nothing after it runs: no later statement changes
      memory or writes output. */
  lemma RunStopsAtFailure(cells: seq<Cell>, p: Program, q: Program)
    requires !Run(cells, p).ok
    ensures Run(cells, p + q) == Run(cells, p)
  {
    RunAppend(cells, p, q);
  }

  /** The run stops at the first failing statement `i`: the whole program's
      outcome is that of its first `i + 1` statements. */
  lemma RunFirstFailure(cells: seq<Cell>, p: Program, i: nat)
    requires i < |p|
    requires Run(cells, p[..i]).ok
    requires !StmtStep(Run(cells, p[..i]).cells, p[i]).ok
    ensures !Run(cells, p).ok
    ensures Run(cells, p) == Run(cells, p[..i + 1])
  {
    var pre := Run(cells, p[..i]);
    RunAppend(cells, p[..i], [p[i]]);
    assert p[..i] + [p[i]] == p[..i + 1];
    assert Run(pre.cells, [p[i]]) == StmtStep(pre.cells, p[i]);
    RunStopsAtFailure(cells, p[..i + 1], p[i + 1..]);
    assert p[..i + 1] + p[i + 1..] == p;
  }

  /** `pass` only advances. */
  lemma RunPass(cells: seq<Cell>, line: int, p: Program)
    ensures Run(cells, [Pass(line)] + p) == Run(cells, p)
  {
    assert ([Pass(line)] + p)[1..] == p;
  }

  /** A program without assignments never changes memory. */
  lemma {:induction false} RunWithoutAssignments(cells: seq<Cell>, p: Program)
    requires forall i :: 0 <= i < |p| ==> !p[i].Assignment?
    ensures Run(cells, p).cells == cells
    decreases |p|
  {
    if p != [] {
      StepFailsCleanly(cells, p[0]);
      RunWithoutAssignments(cells, p[1..]);
    }
  }

  /** Execution is fail-fast: the output of a run holds at most one error, and
      when it holds one the run failed and the error is its last event. */
  lemma {:induction false} RunErrorIsLast(cells: seq<Cell>, p: Program)
    ensures var o := Run(cells, p);
      && (o.ok ==> forall e :: e in o.emitted ==> !e.Error?)
      && (!o.ok ==> |o.emitted| >= 1 && o.emitted[|o.emitted| - 1].Error?
                    && forall j :: 0 <= j < |o.emitted| - 1 ==> !o.emitted[j].Error?)
    decreases |p|
  {
    if p != [] {
      var s := StmtStep(cells, p[0]);
      StepFailsCleanly(cells, p[0]);
      if s.ok {
        RunErrorIsLast(s.cells, p[1..]);
      }
    }
  }
}
