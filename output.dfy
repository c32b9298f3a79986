/**
 * What the interpreter writes to standard output, recorded as a log of events
 * rather than as formatted characters.
 */
module Output {

  /** The semantic errors the executor reports. */
  datatype ErrorKind =
    | NotDefined(name: string)
    | ExpectedInteger
    | ExpectedIntegerLiteralOrVariable
    | DivideByZero
    | ModByZero
    | UnsupportedOperator
    | InvalidRhs
    | InvalidPointerValue
    | ExpectedLiteralOrVariable
    | InvalidAddress
    | UnknownFunction(functionName: string)
    | CannotPrintValue
    | InvalidPrintArgument

  /** The message text of each error, as it appears between
      `**SEMANTIC ERROR: ` and ` (line N)`. */
  function Message(k: ErrorKind): string
  {
    match k
    case NotDefined(name) => "name '" + name + "' is not defined"
    case ExpectedInteger => "expected integer"
    case ExpectedIntegerLiteralOrVariable => "expected integer literal or variable"
    case DivideByZero => "divide by 0"
    case ModByZero => "mod by 0"
    case UnsupportedOperator => "unsupported operator"
    case InvalidRhs => "invalid RHS in assignment"
    case InvalidPointerValue => "invalid pointer value"
    case ExpectedLiteralOrVariable => "expected literal or variable"
    case InvalidAddress => "invalid memory address for assignment"
    case UnknownFunction(f) => "unknown function '" + f + "'"
    case CannotPrintValue => "cannot print value"
    case InvalidPrintArgument => "invalid print argument"
  }

  /** One piece of output: a line break, a printed value, or an error line
      reported at a statement's source line. */
  datatype Event =
    | Newline
    | OutInt(i: int)
    | OutReal(token: string)
    | OutStr(s: string)
    | Error(kind: ErrorKind, line: int)

  /** Standard output: everything written so far, in order. */
  class Console {
    var events: seq<Event>

    method Emit(e: Event)
      modifies this
      ensures events == old(events) + [e]
    {
      events := events + [e];
    }
  }
}
