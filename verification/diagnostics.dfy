/** Every way a run of the front end can fail. The source raises a plain
    `Exception` with a message, or crashes with a Python runtime error; each
    case here carries the names and the line the message would report. */
module Diagnostics {
  import opened Wrappers
  import opened Tokens

  /** The statement whose body must not be empty. */
  datatype Block = CondBlock | LoopBlock

  /** Python runtime errors the source does not guard against. */
  datatype Crash =
    | EmptySource                 // `text[0]` on empty text
    | HashAtEnd                   // `None.isalpha()` after a final '#'
    | MissingKey(key: Value)      // a dictionary lookup of an absent key
    | MissingArgument(index: nat) // `args_nodes[index]` out of range
    | NotSubscriptable            // slicing a variable name that is not text
    | MissingParameterType(index: nat)          // `arg_types[index]` out of range
    | NoAttribute(className: string, attribute: string) // a child of an unexpected class

  datatype Error =
    // lexical
    | UnexpectedChar(ch: Option<char>, line: int)
    // syntactic
    | Expected(expectedKind: Kind, foundKind: Kind, line: int)
    | ExpectedComparison(foundKind: Kind, line: int)
    | ExpectedBlock(block: Block, line: int)
    | NoProgress(foundKind: Kind, line: int)
    // dispatch
    | NoHandler(className: string)
    // semantic
    | UnimportedLibrary(lib: string, line: int)
    | UndefinedFunction(name: string, line: int)
    | ArityMismatch(name: string, expectedCount: int, foundCount: int, line: int)
    | ArgTypeMismatch(name: string, expected: string, found: string, line: int)
    | DuplicateFunction(name: string, line: int)
    | DuplicateVariable(varName: Value, scope: string, line: int)
    | UndefinedVariable(name: string, scope: string, line: int)
    | ReturnTypeMismatch(name: string, expected: string, found: string, line: int)
    // runtime
    | Crashed(crash: Crash)

  type Outcome<T> = Result<T, Error>
}
