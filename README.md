# nuPython executor, modelled in Dafny

This project models the run-time step of the nuPython interpreter (`project06/execute.c`). The executor takes two inputs:

- a program graph: a chain of assignment, function-call and `pass` statements;
- a RAM: an ordered store of named, typed cells.

It executes the statements in order. It stops at the first statement that reports a semantic error. Errors are printed as `**SEMANTIC ERROR: … (line N)`.

Modules:

- `ProgramGraph`: the statements, expressions, elements and operators the executor receives. The chain of `next_stmt` pointers becomes a `seq<Stmt>`.
- `Memory`: the RAM contract the executor relies on.
  - Cells are `(name, value)` pairs, and a cell's address is its creation index.
  - A write by name overwrites the cell with that name, or appends a new one.
  - A write by address succeeds only for `0 <= addr < |cells|`, and it may change the cell's type.
  - `Memory.Ram` is the store as a class whose write methods replace its cells.
- `Output`: standard output as a log of events: `Newline`, `OutInt`, `OutReal`, `OutStr` and `Error(kind, line)`. `Output.Console` is the class the executor appends to. `Message` gives the text of each error.
- `CArith`: the C arithmetic the evaluator uses.
  - C99 truncating `/` and `%` (section 6.5.5 of ISO/IEC 9899:1999), written out because Dafny's operators are Euclidean.
  - The `**` accumulator loop.
  - `atoi` on digit strings.
- `Evaluate`: the pure part of `execute_binary_expression`: operand resolution, the operator, and the value of a right-hand side.
- `Semantics`: what one statement and a whole program do. Each is a function from the memory before to an `Outcome`: success or failure, the memory after, and the events written. The run is fail-fast.
- `Execute`: the executor as imperative methods that update a `Ram` and a `Console` in place. Each method is proved equal to the corresponding `Semantics` function, with the same branch order and the same error at each branch.
- `Scenarios`: statements from the test programs `test03.py`, `test15.py` and `test16.py`, worked out against the semantics.

## Model

| member | source | states |
|---|---|---|
| Execute.Execute | project06/execute.c:411-433 | Running a program leaves exactly the memory `Run` gives. The output is the old output followed by `Run`'s events: each statement in order, stopping after the first that fails. |
| Execute.ExecuteNext | project06/execute.c:414-431 | One pass of the loop. A successful statement leaves the rest of the run leading to the whole program's outcome. A failing statement leaves memory and output already equal to the whole program's outcome. |
| Execute.ExecuteStatement | project06/execute.c:415-431 | Dispatches on the statement kind. Its result, new memory and output are those of `StmtStep`. `pass` succeeds and changes nothing. |
| Execute.ExecuteAssignment | project06/execute.c:263-409 | Returns success, and leaves the RAM and output, exactly as `AssignmentStep` on the old memory says. The RAM keeps its names unique. |
| Execute.ExecuteFunctionCall | project06/execute.c:65-138 | Returns success and appends output exactly as `CallStep` says. It has no write access to the RAM. |
| Execute.ExecuteBinaryExpression | project06/execute.c:159-260 | Succeeds exactly when `EvalBinary` does, and then returns its value. On failure it appends exactly one error at the statement's line. It cannot modify memory. |
| Execute.FetchOperand | project06/execute.c:167-221 | Resolves one operand as `ResolveOperand` does. It reports that function's error on failure and writes nothing on success. |
| CArith.Power | project06/execute.c:248-255 | The accumulator loop returns `left` to the power `right` when `right >= 0`, and 1 when `right <= 0`. |
| CArith.TruncDivMod | project06/execute.c:239-246 | For `b != 0`, C's `a/b` and `a%b` satisfy `(a/b)*b + a%b == a`. The remainder is smaller than `b` in magnitude and never has the opposite sign of `a`. The quotient truncates toward zero. |
| CArith.TruncDivNonNegative | project06/execute.c:239-246 | On non-negative operands, C's `/` and `%` agree with Euclidean division. |
| CArith.TruncDivNegate | project06/execute.c:239-246 | Negating the dividend negates both C's quotient and its remainder. |
| CArith.DigitRun | project06/execute.c:171 | The leading digit run that `atoi` reads: it is all digits, and it is followed by a non-digit or the end. |
| CArith.AtoiDecimal | project06/execute.c:92-93 | `atoi` inverts the decimal rendering of every natural number. |
| CArith.AtoiLeadingZero | project06/execute.c:92 | A leading `0` does not change the value of an integer literal. |
| CArith.DecimalValueOfDecimal | project06/execute.c:93 | The decimal rendering of `n` denotes `n`. |
| CArith.DigitRunAllDigits | project06/execute.c:171 | On a string of digits, `atoi` reads every character. |
| Evaluate.ResolveOperandCases | project06/execute.c:167-193 | An operand resolves exactly when it is an integer literal or an `Int` variable. The three failures report "expected integer literal or variable", "not defined" (with the name) and "expected integer". |
| Evaluate.OperandErrorsFirst | project06/execute.c:167-224 | Operand errors come before the operator is applied, and the left operand's error comes first. When an operand fails, the operator does not matter. |
| Evaluate.ArithmeticResults | project06/execute.c:223-259 | With both operands resolved, `+ - *` give the integer results. `**` gives the power for `right >= 0` and 1 for `right <= 0`. Any other operator is "unsupported operator". |
| Evaluate.DivModIdentity | project06/execute.c:234-247 | `/` and `%` fail exactly when the right operand is 0, with "divide by 0" and "mod by 0". Otherwise the results satisfy C's truncating division laws. |
| Evaluate.RhsValueCases | project06/execute.c:353-405 | A binary right-hand side gives `Int` of the evaluated result. An identifier copies the variable's value of any type, and fails exactly when the name is undefined. Other elements are errors, and literals always succeed. |
| Semantics.StepFailsCleanly | project06/execute.c:263-409 | A failing statement leaves memory unchanged and writes exactly one error event, at its own line. A succeeding statement writes no error. An assignment prints nothing, and only an assignment changes memory. |
| Semantics.DirectAssignment | project06/execute.c:269-408 | A direct assignment succeeds exactly when the right-hand side evaluates. Then the variable reads the new value, every other name reads as before, and every existing cell keeps its address and name. A non-expression right-hand side reports "invalid RHS". |
| Semantics.CopyAssignment | project06/execute.c:372-384 | `dst = src` gives `dst` the value `src` holds, whatever its type. It fails with "not defined" when `src` is undefined. |
| Semantics.CopyIsIndependent | project06/execute.c:381 | After `b = a`, assigning `a` again leaves `b` holding the value `a` had at the copy. |
| Semantics.IndirectAssignmentOrder | project06/execute.c:277-351 | A pointer assignment checks, in this order: the pointer is defined, it holds an `Int` or `Ptr`, the right-hand side evaluates, the address exists. Each check has its own error, and any failure leaves memory unchanged. |
| Semantics.IndirectAssignmentFrame | project06/execute.c:344-350 | A successful pointer assignment changes only the cell at the address, which keeps its name. The pointer variable reads as before unless it is that cell, and names stay unique. |
| Semantics.PrintCases | project06/execute.c:72-137 | A call never changes memory. Any name but `print` is "unknown function". `print()` is one newline. An undefined variable is "not defined". Printing a variable succeeds exactly when it is not a pointer. Other arguments are "invalid print argument". Every successful print ends its line. |
| Semantics.RunStep | project06/execute.c:413-432 | The run from statement `i` is that statement's step followed, only on success, by the run from `i + 1`. |
| Semantics.RunResumes | project06/execute.c:414-431 | Continuing a run in progress by one statement keeps the whole program's outcome, or completes it when the statement fails. |
| Semantics.RunAppend | project06/execute.c:413-432 | Running `p + q` runs `p`. `q` runs only if all of `p` succeeded, starting from the memory `p` left. |
| Semantics.RunStopsAtFailure | project06/execute.c:417-425 | Once a run fails, later statements change no memory and write no output. |
| Semantics.RunFirstFailure | project06/execute.c:417-425 | A run whose statement `i` is the first to fail has the outcome of its first `i + 1` statements. |
| Semantics.RunPass | project06/execute.c:428-431 | `pass` only advances. |
| Semantics.RunWithoutAssignments | project06/execute.c:422-431 | A program without assignments never changes memory. |
| Semantics.RunErrorIsLast | project06/execute.c:411-433 | A run writes at most one error. When it writes one, the run failed and the error is the last event. |
| Memory.IndexOf | project06/execute.c:106-107 | A name found by a read-by-name is at a valid address holding that name. |
| Memory.IndexOfSpec | project06/execute.c:106-107 | A read-by-name finds the first cell with the name, and finds nothing exactly when no cell has it. |
| Memory.IndexOfIsFirst | project06/execute.c:106-107 | The first cell with a name is the one a read-by-name finds. |
| Memory.LookupStore | project06/execute.c:407 | After a write by name, the name reads the new value and every other name reads as before. |
| Memory.StoreAddresses | project06/execute.c:407 | A write by name keeps every cell at its address, changes only the named cell, and creates a cell only for an undefined name, at the next address. |
| Memory.StoreKeepsNamesUnique | project06/execute.c:407 | A write by name never creates a duplicate name. |
| Memory.StoreAtFrame | project06/execute.c:345 | A write by address succeeds exactly for `0 <= addr < |cells|`. It changes only that cell's value, which may change type, and keeps every name. |
| Memory.LookupStoreAt | project06/execute.c:345 | With unique names, a write by address changes what exactly one name reads: the name of the cell at that address. |
| Memory.Ram.WriteCellByName | project06/execute.c:407 | The RAM's cells become the write-by-name result, and names stay unique. |
| Memory.Ram.WriteCellByAddr | project06/execute.c:345-349 | Reports success exactly for an existing address. The cells become the write-by-address result on success and are unchanged otherwise. |
| Output.Console.Emit | project06/execute.c:73-74 | Writing an event appends it to the output and changes nothing before it. |
| Scenarios.BinaryExpressionsProgram | project06/test03.py:19-23 | From an empty memory the five statements leave x = 5, y = 144, z = 2 and remainder = 1, in creation order, and print nothing. |
| Scenarios.StepLine19 | project06/test03.py:19 | `x = 3 * 4` creates `x = 12` at address 0. |
| Scenarios.StepLine20 | project06/test03.py:20 | `y = x ** 2` stores 144 in a new cell. |
| Scenarios.StepLine21 | project06/test03.py:21 | `z = 288 / y` stores 2. |
| Scenarios.StepLine22 | project06/test03.py:22 | `x = 5` overwrites `x` in place at address 0. |
| Scenarios.StepLine23 | project06/test03.py:23 | `remainder = x % z` stores 1. |
| Scenarios.Literal288 | project06/test03.py:21 | The literal `288` reads as 288. |
| Scenarios.Literal01230 | project06/test03.py:47 | The literal `01230` reads as 1230. |
| Scenarios.PrintLeadingZero | project06/test03.py:47 | `print(01230)` prints 1230 and a newline. |
| Scenarios.UndefinedPointerStops | project06/test15.py:35 | `*ptr_xyz = 123` with `ptr_xyz` undefined reports "name 'ptr_xyz' is not defined" at line 35. The run ends with memory unchanged. |
| Scenarios.InvalidAddressStops | project06/test16.py:35-37 | With 11 cells and `ptr_xyz` holding 11, `*ptr_xyz = 123` reports an invalid memory address. The run ends with memory unchanged. |

## Left out

- The RAM implementation (`ram.h`, `ram.c`) is not part of this model. Only the contract the executor relies on is modelled: a sequence of named cells, where the address is the creation index. Allocation, growth and capacity are not modelled.
- Memory ownership (`ram_free_value`, raw string-pointer copies) is not modelled; strings are immutable values. The pointer path copies the value read for an identifier (line 333) and then frees that copy (line 334) before it is written at line 345. Whether this leaves a dangling string pointer depends on `ram.c`, which is not part of this model. The model assumes the copy stays intact.
- Real numbers: `atof` parsing and `%lf` formatting are floating point. A real is carried as the text of its literal (`Real(token)`, `OutReal(token)`).
- Character-level `printf` output: output is a log of events. `Output.Message` gives each error's text, but the full formatted line is not built.
- `atoi` is modelled as the value of the leading run of decimal digits. Signs and leading whitespace never occur in the parser's integer literals and are not modelled.
- 32-bit `int`: integers are unbounded. Overflow in `+`, `-`, `*`, `**` and in `atoi` is undefined behaviour in C and is not modelled.
- Program-graph construction (`programgraph.h`) is not part of this model. The `next_stmt` pointers become the order of a sequence. `OtherElement` stands for element kinds the executor does not handle, such as keyword elements.
- The `assert` at `execute.c:429` cannot fail, because the statement datatype is closed.
- A pointer read at line 295 takes the address from the `Int` payload or the `Ptr` payload. The model treats both tags as holding an address.
