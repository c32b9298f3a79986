/**
 * Concrete runs of statements from the repository's test programs, worked out
 * against the semantics.
 */
module Scenarios {

  import opened Wrappers
  import opened ProgramGraph
  import opened Memory
  import opened Output
  import opened CArith
  import opened Evaluate
  import opened Semantics

  function IntAssign(line: int, name: string, lhs: Element, op: Operator, rhs: Element): Stmt
  {
    Assignment(line, name, false, RhsExpr(Binary(lhs, op, rhs)))
  }

  /** A literal made only of digits reads as the number those digits spell. */
  lemma AtoiAllDigits(s: string)
    requires AllDigits(s)
    ensures Atoi(s) == DecimalValue(s)
  {
    DigitRunAllDigits(s);
    assert s[..|s|] == s;
  }

  lemma Literal288()
    ensures Atoi("288") == 288
  {
    AtoiAllDigits("288");
    assert "288"[..2] == "28";
    assert "28"[..1] == "2";
  }

  /** The leading zero of `01230` (test03.py, line 47) is ignored. */
  lemma Literal01230()
    ensures Atoi("01230") == 1230
  {
    assert "0" + "1230" == "01230";
    AtoiLeadingZero("1230");
    AtoiAllDigits("1230");
    assert "1230"[..3] == "123";
    assert "123"[..2] == "12";
    assert "12"[..1] == "1";
    assert "1"[..0] == "";
  }

  lemma Digit(s: string, n: nat)
    requires |s| == 1 && IsDigit(s[0]) && DigitValue(s[0]) == n
    ensures Atoi(s) == n
  {
    AtoiAllDigits(s);
    assert s[..0] == [];
  }

  // The memory after each of lines 19-23 of test03.py.
  const After19: seq<Cell> := [Cell("x", Int(12))]
  const After20: seq<Cell> := [Cell("x", Int(12)), Cell("y", Int(144))]
  const After21: seq<Cell> := [Cell("x", Int(12)), Cell("y", Int(144)), Cell("z", Int(2))]
  const After22: seq<Cell> := [Cell("x", Int(5)), Cell("y", Int(144)), Cell("z", Int(2))]
  const After23: seq<Cell> := [Cell("x", Int(5)), Cell("y", Int(144)), Cell("z", Int(2)), Cell("remainder", Int(1))]

  const Line19: Stmt := IntAssign(19, "x", IntLit("3"), Asterisk, IntLit("4"))
  const Line20: Stmt := IntAssign(20, "y", Ident("x"), Power, IntLit("2"))
  const Line21: Stmt := IntAssign(21, "z", IntLit("288"), Div, Ident("y"))
  const Line22: Stmt := Assignment(22, "x", false, RhsExpr(Unary(IntLit("5"))))
  const Line23: Stmt := IntAssign(23, "remainder", Ident("x"), Mod, Ident("z"))

  /** `x = 3 * 4` creates `x` at address 0. */
  lemma StepLine19()
    ensures StmtStep([], Line19) == Outcome(true, After19, [])
  {
    Digit("3", 3);
    Digit("4", 4);
  }

  /** `y = x ** 2` squares `x` into a new cell. */
  lemma StepLine20()
    ensures StmtStep(After19, Line20) == Outcome(true, After20, [])
  {
    Digit("2", 2);
    assert Lookup(After19, "x") == Some(Int(12));
    assert IndexOf(After19, "y") == None;
  }

  /** `z = 288 / y` divides by the 144 just stored. */
  lemma StepLine21()
    ensures StmtStep(After20, Line21) == Outcome(true, After21, [])
  {
    Literal288();
    assert Lookup(After20, "y") == Some(Int(144));
    assert IndexOf(After20, "z") == None;
  }

  /** `x = 5` overwrites `x` in place. */
  lemma StepLine22()
    ensures StmtStep(After21, Line22) == Outcome(true, After22, [])
  {
    Digit("5", 5);
    assert IndexOf(After21, "x") == Some(0);
  }

  /** `remainder = x % z` is 5 % 2. */
  lemma StepLine23()
    ensures StmtStep(After22, Line23) == Outcome(true, After23, [])
  {
    assert Lookup(After22, "x") == Some(Int(5));
    assert Lookup(After22, "z") == Some(Int(2));
    assert IndexOf(After22, "remainder") == None;
  }

  /** Lines 19-23 of test03.py run from an empty memory leave x = 5, y = 144,
      z = 2 and remainder = 1, in the order the names were first assigned, and
      print nothing. */
  lemma BinaryExpressionsProgram()
    ensures Run([], [Line19, Line20, Line21, Line22, Line23]) == Outcome(true, After23, [])
  {
    var p := [Line19, Line20, Line21, Line22, Line23];
    StepLine19();
    StepLine20();
    StepLine21();
    StepLine22();
    StepLine23();
    RunStep([], p, 0);
    RunStep(After19, p, 1);
    RunStep(After20, p, 2);
    RunStep(After21, p, 3);
    RunStep(After22, p, 4);
    assert p[5..] == [];
  }

  /** `print(01230)` (test03.py, line 47) prints 1230 and ends the line. */
  lemma PrintLeadingZero(cells: seq<Cell>)
    ensures CallStep(cells, 47, "print", Some(IntLit("01230"))) == Outcome(true, cells, [OutInt(1230), Newline])
  {
    Literal01230();
  }

  /** `*ptr_xyz = 123` with `ptr_xyz` undefined (test15.py, line 35) reports that
      name and ends the run: memory is as it was and nothing after it runs. */
  lemma UndefinedPointerStops(cells: seq<Cell>, rest: Program)
    requires Lookup(cells, "ptr_xyz").None?
    ensures Run(cells, [Assignment(35, "ptr_xyz", true, RhsExpr(Unary(IntLit("123"))))] + rest) ==
      Outcome(false, cells, [Error(NotDefined("ptr_xyz"), 35)])
  {
    var s := Assignment(35, "ptr_xyz", true, RhsExpr(Unary(IntLit("123"))));
    assert Run(cells, [s]) == StmtStep(cells, s);
    RunStopsAtFailure(cells, [s], rest);
  }

  /** With eleven cells (addresses 0 to 10) and `ptr_xyz` holding 11, the write
      `*ptr_xyz = 123` (test16.py, lines 35-37) is an invalid address, and the run
      ends there with memory unchanged. */
  lemma InvalidAddressStops(cells: seq<Cell>, rest: Program)
    requires |cells| == 11 && Lookup(cells, "ptr_xyz") == Some(Int(11))
    ensures Run(cells, [Assignment(37, "ptr_xyz", true, RhsExpr(Unary(IntLit("123"))))] + rest) ==
      Outcome(false, cells, [Error(InvalidAddress, 37)])
  {
    var s := Assignment(37, "ptr_xyz", true, RhsExpr(Unary(IntLit("123"))));
    assert Run(cells, [s]) == StmtStep(cells, s);
    RunStopsAtFailure(cells, [s], rest);
  }
}
