/** Token kinds and token values. The kinds are the names the lexer and the
    parser use; `interpreter/lexical_analysis/tokenType.py` and `token.py`
    are not part of this model, so the printed form of a kind is assumed to
    be its own name. */
module Tokens {
  import opened Chars

  datatype Kind =
    | LIBRARIES | FUNCTIONS | EXECUTION
    | TYPE | ID | STRING | INTEGER | EOF
    | AND | OR | NOT | DIV | MOD | COND | LOOP | RETURN
    | ARROW | MINUS | PLUS | MUL | NDIV
    | MONKEY | COLON | COMMA | SEMICOLON | LBRACKET | RBRACKET | DOT | LPAREN | RPAREN
    | LESS | LESS_EQ | GREATER | GREATER_EQ | EQUAL | NOT_EQUAL | ASSIGN

  /** A token's value: text, a number (INTEGER tokens) or Python's `None` (EOF). */
  datatype Value = Str(s: string) | Int(i: int) | NoValue

  datatype Token = Token(kind: Kind, value: Value)

  /** The value shape each kind of token carries. */
  predicate WellFormed(t: Token) {
    && (t.kind == INTEGER ==> t.value.Int? && t.value.i >= 0)
    && (t.kind == EOF ==> t.value.NoValue?)
    && (t.kind != INTEGER && t.kind != EOF ==> t.value.Str?)
  }

  type WfToken = t: Token | WellFormed(t) witness Token(EOF, NoValue)

  const EofToken: WfToken := Token(EOF, NoValue)

  /** Python's `'{}'.format(v)`. */
  function Show(v: Value): string {
    match v
    case Str(s) => s
    case Int(i) => IntToString(i)
    case NoValue => "None"
  }

  /** The printed form of a token kind (assumed to be its name). */
  function KindName(k: Kind): string {
    match k
    case LIBRARIES => "LIBRARIES"
    case FUNCTIONS => "FUNCTIONS"
    case EXECUTION => "EXECUTION"
    case TYPE => "TYPE"
    case ID => "ID"
    case STRING => "STRING"
    case INTEGER => "INTEGER"
    case EOF => "EOF"
    case AND => "AND"
    case OR => "OR"
    case NOT => "NOT"
    case DIV => "DIV"
    case MOD => "MOD"
    case COND => "COND"
    case LOOP => "LOOP"
    case RETURN => "RETURN"
    case ARROW => "ARROW"
    case MINUS => "MINUS"
    case PLUS => "PLUS"
    case MUL => "MUL"
    case NDIV => "NDIV"
    case MONKEY => "MONKEY"
    case COLON => "COLON"
    case COMMA => "COMMA"
    case SEMICOLON => "SEMICOLON"
    case LBRACKET => "LBRACKET"
    case RBRACKET => "RBRACKET"
    case DOT => "DOT"
    case LPAREN => "LPAREN"
    case RPAREN => "RPAREN"
    case LESS => "LESS"
    case LESS_EQ => "LESS_EQ"
    case GREATER => "GREATER"
    case GREATER_EQ => "GREATER_EQ"
    case EQUAL => "EQUAL"
    case NOT_EQUAL => "NOT_EQUAL"
    case ASSIGN => "ASSIGN"
  }

  /** Python's `str(token)`; `token.py` is not part of this model, so the
      conventional `Token(KIND, value)` form is assumed. */
  function TokenText(t: Token): string {
    "Token(" + KindName(t.kind) + ", "
      + (match t.value case Str(s) => "'" + s + "'" case _ => Show(t.value)) + ")"
  }

  predicate IsComparison(k: Kind) {
    k in {LESS, LESS_EQ, GREATER, GREATER_EQ, EQUAL, NOT_EQUAL}
  }

  predicate IsLogical(k: Kind) {
    k in {AND, OR}
  }

  predicate IsMultiplicative(k: Kind) {
    k in {MUL, NDIV, DIV, MOD}
  }

  predicate IsAdditive(k: Kind) {
    k in {PLUS, MINUS}
  }
}
