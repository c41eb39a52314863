/** The tokenizer (`interpreter/lexical_analysis/lexer.py`). The cursor
    state `(pos, current_char, line_count)` is the immutable `Lexer` record;
    `current_char` is derived from the text and `pos`. Every operation
    returns the advanced cursor instead of mutating it. */
module Lexical {
  import opened Wrappers
  import opened Chars
  import opened Tokens
  import opened Diagnostics

  datatype Lexer = Lexer(text: string, pos: nat, line: nat)

  /** One lexed token and the cursor after it. */
  datatype Lexed = Lexed(tok: WfToken, rest: Lexer)

  /** `current_char`: the character at `pos`, or `None` past the end. */
  function Current(lx: Lexer): Option<char> {
    if lx.pos < |lx.text| then Some(lx.text[lx.pos]) else None
  }

  function Advance(lx: Lexer): Lexer {
    lx.(pos := lx.pos + 1)
  }

  /** `Lexer.__init__`: reading `text[0]` crashes on empty input. */
  function Start(text: string): (r: Outcome<Lexer>)
    ensures r.Ok? <==> |text| > 0
    ensures r.Ok? ==> r.value.text == text && Current(r.value) == Some(text[0]) && r.value.line == 1
  {
    if |text| == 0 then Err(Crashed(EmptySource)) else Ok(Lexer(text, 0, 1))
  }

  /** How much input is left; it never grows, and it shrinks with every
      token other than EOF. */
  function Remaining(lx: Lexer): nat {
    if lx.pos <= |lx.text| then |lx.text| - lx.pos + 1 else 0
  }

  /** A token other than EOF was taken and the cursor moved past it, at
      most one position beyond the end of the text. */
  predicate Moves(lx: Lexer, r: Lexed) {
    && r.tok.kind != EOF
    && r.rest.text == lx.text
    && lx.pos < |lx.text|
    && lx.pos < r.rest.pos <= |lx.text| + 1
  }

  /** The maximal run of characters of class `cls` from the cursor on: the
      loops of `integer`, `_id` and `string` (see `RunSpan`). */
  function Run(lx: Lexer, cls: CharClass): (r: (string, Lexer))
    decreases |lx.text| - lx.pos
    ensures r.1 == lx.(pos := lx.pos + |r.0|)
    ensures lx.pos <= |lx.text| ==> r.1.pos <= |lx.text|
    ensures Current(lx).Some? && InClass(cls, Current(lx).value) ==> |r.0| > 0
    ensures forall i :: 0 <= i < |r.0| ==> InClass(cls, r.0[i])
  {
    match Current(lx)
    case Some(c) =>
      if InClass(cls, c) then
        var (s, e) := Run(Advance(lx), cls);
        ([c] + s, e)
      else ("", lx)
    case None => ("", lx)
  }

  /** A run is the longest prefix of the remaining text whose characters
      all lie in `cls`, and the cursor stops on a character outside it. */
  lemma {:induction false} RunSpan(lx: Lexer, cls: CharClass)
    requires lx.pos <= |lx.text|
    decreases |lx.text| - lx.pos
    ensures var r := Run(lx, cls);
      && r.0 == lx.text[lx.pos..r.1.pos] == LongestPrefix(lx.text[lx.pos..], cls)
      && (Current(r.1).None? || !InClass(cls, Current(r.1).value))
  {
    if Current(lx).Some? && InClass(cls, Current(lx).value) {
      var c := lx.text[lx.pos];
      RunSpan(Advance(lx), cls);
      var (s, e) := Run(Advance(lx), cls);
      assert Run(lx, cls) == ([c] + s, e);
      var tail := lx.text[lx.pos..];
      assert tail[0] == c && tail[1..] == lx.text[lx.pos + 1..];
      assert LongestPrefix(tail, cls) == [c] + LongestPrefix(tail[1..], cls);
      assert lx.text[lx.pos..e.pos] == [c] + lx.text[lx.pos + 1..e.pos];
    } else {
      assert Run(lx, cls) == ("", lx);
      assert LongestPrefix(lx.text[lx.pos..], cls) == "";
    }
  }

  /** `skip_whitespace`: consumes blanks, counting each newline once (see
      `SkipSpan`). */
  function SkipWhitespace(lx: Lexer): (r: Lexer)
    decreases |lx.text| - lx.pos
    ensures r.text == lx.text && r.pos >= lx.pos && r.line >= lx.line
    ensures Current(r).None? || !IsSpace(Current(r).value)
    ensures Current(lx).None? ==> r == lx
  {
    match Current(lx)
    case Some(c) =>
      if IsSpace(c) then
        var next := Advance(lx).(line := if c == '\n' then lx.line + 1 else lx.line);
        SkipWhitespace(next)
      else lx
    case None => lx
  }

  /** Skipping stops inside the text, passes over blanks only, and adds
      one line per newline it passes. */
  lemma {:induction false} SkipSpan(lx: Lexer)
    requires lx.pos <= |lx.text|
    decreases |lx.text| - lx.pos
    ensures var r := SkipWhitespace(lx);
      && r.pos <= |lx.text|
      && (forall i :: lx.pos <= i < r.pos ==> IsSpace(lx.text[i]))
      && r.line == lx.line + CountNewlines(lx.text[lx.pos..r.pos])
  {
    match Current(lx)
    case Some(c) =>
      if IsSpace(c) {
        var next := Advance(lx).(line := if c == '\n' then lx.line + 1 else lx.line);
        SkipSpan(next);
        var r := SkipWhitespace(next);
        assert SkipWhitespace(lx) == r;
        assert next.text == lx.text && next.pos == lx.pos + 1;
        assert lx.pos + 1 <= r.pos <= |lx.text|;
        var span := lx.text[lx.pos..r.pos];
        assert span[0] == c;
        assert span[1..] == lx.text[lx.pos + 1..r.pos];
        assert CountNewlines(span) == (if c == '\n' then 1 else 0) + CountNewlines(span[1..]);
      }
    case None =>
  }

  /** `integer`: a maximal digit run and its decimal value (see
      `IntegerRun`). */
  function Integer(lx: Lexer): (r: Lexed)
    requires Current(lx).Some? && IsDigit(Current(lx).value)
    ensures Moves(lx, r) && r.rest.line == lx.line
  {
    var (digits, rest) := Run(lx, Digits);
    Lexed(Token(INTEGER, Int(DecimalValue(digits))), rest)
  }

  /** An INTEGER token carries the value of the longest digit run from the
      cursor, and the cursor ends just after that run. */
  lemma IntegerRun(lx: Lexer)
    requires Current(lx).Some? && IsDigit(Current(lx).value)
    ensures var run := LongestPrefix(lx.text[lx.pos..], Digits);
      AllDigits(run) && Integer(lx) == Lexed(Token(INTEGER, Int(DecimalValue(run))), lx.(pos := lx.pos + |run|))
  {
    RunSpan(lx, Digits);
  }

  const TypeNames: set<string> := {"INT", "STRING", "FLOAT", "ARRAY", "BOOL", "VOID"}

  /** Reserved words whose token value is not their own text. */
  const OperatorNames: set<string> := {"AND", "OR", "NOT", "DIV", "MOD", "RETURN"}

  /** Reserved words with a kind of their own and their own text as value. */
  const KeywordNames: set<string> := {"Libraries", "Functions", "Execution", "COND", "LOOP"}

  const ReservedWords: set<string> := TypeNames + OperatorNames + KeywordNames

  function OperatorToken(w: string): (t: WfToken)
    requires w in OperatorNames
    ensures t.kind in {AND, OR, NOT, DIV, MOD, RETURN}
  {
    if w == "AND" then Token(AND, Str("and"))
    else if w == "OR" then Token(OR, Str("or"))
    else if w == "NOT" then Token(NOT, Str("not"))
    else if w == "DIV" then Token(DIV, Str("//"))
    else if w == "MOD" then Token(MOD, Str("%"))
    else Token(RETURN, Str("return"))
  }

  function KeywordToken(w: string): (t: WfToken)
    ensures t.kind == ID <==> w !in KeywordNames
    ensures t.kind !in {TYPE, AND, OR, NOT, DIV, MOD, RETURN}
    ensures t.value == Str(w)
  {
    if w == "Libraries" then Token(LIBRARIES, Str(w))
    else if w == "Functions" then Token(FUNCTIONS, Str(w))
    else if w == "Execution" then Token(EXECUTION, Str(w))
    else if w == "COND" then Token(COND, Str(w))
    else if w == "LOOP" then Token(LOOP, Str(w))
    else Token(ID, Str(w))
  }

  /** The keyword reclassification at the end of `_id`: the source tests the
      reserved words one by one; they are distinct, so grouping them by the
      token they produce gives the same result. */
  function ClassifyWord(w: string): (t: WfToken)
    ensures t.kind == ID <==> w !in ReservedWords
    ensures t.value.Str? && (w !in OperatorNames ==> t.value == Str(w))
  {
    if w in TypeNames then Token(TYPE, Str(w))
    else if w in OperatorNames then OperatorToken(w)
    else KeywordToken(w)
  }

  /** Type names, and only they, become TYPE; the operator words, and only
      they, become operator kinds. */
  lemma ClassifyWordKinds(w: string)
    ensures ClassifyWord(w).kind == TYPE <==> w in TypeNames
    ensures ClassifyWord(w).kind in {AND, OR, NOT, DIV, MOD, RETURN} <==> w in OperatorNames
  {
  }

  /** The boolean operator words and the values their tokens carry. */
  lemma BooleanWordValues()
    ensures ClassifyWord("AND") == Token(AND, Str("and"))
    ensures ClassifyWord("OR") == Token(OR, Str("or"))
    ensures ClassifyWord("NOT") == Token(NOT, Str("not"))
  {
  }

  /** The other operator words and the values their tokens carry: Python's
      spelling of integer division and remainder, and `return`. */
  lemma ArithmeticWordValues()
    ensures ClassifyWord("DIV") == Token(DIV, Str("//"))
    ensures ClassifyWord("MOD") == Token(MOD, Str("%"))
    ensures ClassifyWord("RETURN") == Token(RETURN, Str("return"))
  {
  }

  /** `_id`: gathers letters and digits and reclassifies the word (see
      `WordRun`). */
  function Word(lx: Lexer): (r: Lexed)
    requires Current(lx).Some? && IsAlpha(Current(lx).value)
    ensures Moves(lx, r) && r.rest.line == lx.line
    ensures r.tok.value.Str?
  {
    Gather(lx, "")
  }

  /** The loop of `_id`, with the characters `word` gathered so far. */
  function Gather(lx: Lexer, word: string): (r: Lexed)
    decreases |lx.text| - lx.pos
    ensures r.tok.kind != EOF && r.tok.value.Str?
    ensures r.rest.text == lx.text && r.rest.line == lx.line && r.rest.pos >= lx.pos
    ensures lx.pos <= |lx.text| ==> r.rest.pos <= |lx.text|
    ensures Current(lx).Some? && IsAlnum(Current(lx).value) ==> r.rest.pos > lx.pos
  {
    match Current(lx)
    case Some(c) =>
      if IsAlnum(c) then Gather(Advance(lx), word + [c])
      else Lexed(ClassifyWord(word), lx)
    case None => Lexed(ClassifyWord(word), lx)
  }

  /** The loop gathers the longest alphanumeric run from the cursor and
      classifies everything gathered, with the cursor just after the run. */
  lemma {:induction false} GatherRun(lx: Lexer, word: string)
    requires lx.pos <= |lx.text|
    decreases |lx.text| - lx.pos
    ensures var run := LongestPrefix(lx.text[lx.pos..], Alnums);
      Gather(lx, word) == Lexed(ClassifyWord(word + run), lx.(pos := lx.pos + |run|))
  {
    var tail := lx.text[lx.pos..];
    if Current(lx).Some? && IsAlnum(Current(lx).value) {
      var c := lx.text[lx.pos];
      GatherRun(Advance(lx), word + [c]);
      assert tail[1..] == lx.text[lx.pos + 1..];
      assert LongestPrefix(tail, Alnums) == [c] + LongestPrefix(tail[1..], Alnums);
      assert word + [c] + LongestPrefix(tail[1..], Alnums) == word + LongestPrefix(tail, Alnums);
    } else {
      assert LongestPrefix(tail, Alnums) == "";
      assert word + "" == word;
    }
  }

  /** A word is the maximal alphanumeric run from the cursor, classified
      as a reserved word or a name, with the cursor just after it. */
  lemma WordRun(lx: Lexer)
    requires Current(lx).Some? && IsAlpha(Current(lx).value)
    ensures var word := LongestPrefix(lx.text[lx.pos..], Alnums);
      |word| > 0 && Word(lx) == Lexed(ClassifyWord(word), lx.(pos := lx.pos + |word|))
  {
    GatherRun(lx, "");
    assert "" + LongestPrefix(lx.text[lx.pos..], Alnums) == LongestPrefix(lx.text[lx.pos..], Alnums);
  }

  /** `string`: skips the opening quote, takes everything up to the next
      quote (or the end) verbatim, and skips the closing quote (see
      `StringRun`). */
  function StringLit(lx: Lexer): (r: Lexed)
    requires Current(lx).Some?
    ensures Moves(lx, r) && r.rest.line == lx.line
  {
    var (s, rest) := Run(Advance(lx), NotQuote);
    Lexed(Token(STRING, Str(s)), Advance(rest))
  }

  /** A STRING token holds the text up to the next quote, which it never
      contains, and the cursor ends past the closing quote. */
  lemma StringRun(lx: Lexer)
    requires Current(lx).Some?
    ensures var body := LongestPrefix(lx.text[lx.pos + 1..], NotQuote);
      && (forall i :: 0 <= i < |body| ==> body[i] != '\'')
      && StringLit(lx) == Lexed(Token(STRING, Str(body)), lx.(pos := lx.pos + |body| + 2))
  {
    RunSpan(Advance(lx), NotQuote);
  }

  /** A one-character operator that becomes a two-character one when the
      next character is `second`. */
  function Pair(lx: Lexer, second: char, long: Kind, short: Kind, first: char): (r: Lexed)
    requires Current(lx) == Some(first)
    requires long !in {INTEGER, EOF} && short !in {INTEGER, EOF}
    ensures Moves(lx, r) && r.rest.line == lx.line
  {
    var lx2 := Advance(lx);
    if Current(lx2) == Some(second) then Lexed(Token(long, Str([first, second])), Advance(lx2))
    else Lexed(Token(short, Str([first])), lx2)
  }

  /** The single-character punctuation tokens. */
  function Punctuation(c: char): (k: Option<Kind>)
    ensures k.Some? ==> k.value !in {INTEGER, EOF}
  {
    if c == '@' then Some(MONKEY)
    else if c == ':' then Some(COLON)
    else if c == ',' then Some(COMMA)
    else if c == ';' then Some(SEMICOLON)
    else if c == '{' then Some(LBRACKET)
    else if c == '}' then Some(RBRACKET)
    else if c == '.' then Some(DOT)
    else if c == '+' then Some(PLUS)
    else if c == '*' then Some(MUL)
    else if c == '/' then Some(NDIV)
    else if c == '(' then Some(LPAREN)
    else if c == ')' then Some(RPAREN)
    else None
  }

  /** Characters that start some token. */
  predicate Recognised(c: char) {
    IsDigit(c) || IsAlpha(c) || c == '\'' || c == '#' || IsOperatorStart(c) || Punctuation(c).Some?
  }

  /** The `#` sigil (see `SigilGlues` and `GluedRun`). */
  function Sigil(lx: Lexer): (r: Outcome<Lexed>)
    requires Current(lx) == Some('#')
    ensures r.Ok? ==> Moves(lx, r.value) && r.value.rest.line == lx.line
  {
    var lx2 := Advance(lx);
    match Current(lx2)
    case None => Err(Crashed(HashAtEnd))
    case Some(c) =>
      if IsAlpha(c) then Ok(Glued(lx2))
      else Ok(Lexed(Token(ID, Str("#")), lx2))
  }

  /** The word after a `#`, glued to the sigil through its token value. */
  function Glued(lx: Lexer): (r: Lexed)
    requires Current(lx).Some? && IsAlpha(Current(lx).value)
    ensures Moves(lx, r) && r.rest.line == lx.line
  {
    var w := Word(lx);
    Lexed(Token(ID, Str("#" + w.tok.value.s)), w.rest)
  }

  predicate IsOperatorStart(c: char) {
    c == '-' || c == '<' || c == '>' || c == '=' || c == '!'
  }

  /** The operators that look one character ahead. */
  function Operator(lx: Lexer, c: char): (r: Outcome<Lexed>)
    requires Current(lx) == Some(c) && IsOperatorStart(c)
    ensures r.Ok? ==> Moves(lx, r.value) && r.value.rest.line == lx.line
  {
    if c == '-' then Ok(Pair(lx, '>', ARROW, MINUS, '-'))
    else if c == '<' then Ok(Pair(lx, '=', LESS_EQ, LESS, '<'))
    else if c == '>' then Ok(Pair(lx, '=', GREATER_EQ, GREATER, '>'))
    else if c == '=' then Ok(Pair(lx, '=', EQUAL, ASSIGN, '='))
    else
      var lx2 := Advance(lx);
      if Current(lx2) == Some('=') then Ok(Lexed(Token(NOT_EQUAL, Str("!=")), Advance(lx2)))
      else Err(UnexpectedChar(Current(lx2), lx2.line))
  }

  /** The productions of `get_next_token` once the current character `c`
      is known not to be blank. The source tests the characters in another
      order; the tests are disjoint, so the order does not matter. */
  function Scan(lx: Lexer, c: char): (r: Outcome<Lexed>)
    requires Current(lx) == Some(c)
    ensures r.Ok? ==> Moves(lx, r.value) && r.value.rest.line == lx.line
  {
    if IsDigit(c) then Ok(Integer(lx))
    else if IsAlpha(c) then Ok(Word(lx))
    else if c == '\'' then Ok(StringLit(lx))
    else if c == '#' then Sigil(lx)
    else if IsOperatorStart(c) then Operator(lx, c)
    else if Punctuation(c).Some? then Ok(Lexed(Token(Punctuation(c).value, Str([c])), Advance(lx)))
    else Err(UnexpectedChar(Some(c), lx.line))
  }

  /** `get_next_token`: EOF, an error, or a token that moves the cursor. */
  function NextToken(lx: Lexer): (r: Outcome<Lexed>)
    ensures Current(lx).None? ==> r == Ok(Lexed(EofToken, lx))
    ensures r.Ok? ==> r.value.rest.text == lx.text && r.value.rest.pos >= lx.pos && r.value.rest.line >= lx.line
    ensures r.Ok? && r.value.tok.kind == EOF ==> Current(r.value.rest).None?
    ensures r.Ok? && r.value.tok.kind != EOF ==>
      lx.pos < |lx.text| && lx.pos < r.value.rest.pos <= |lx.text| + 1
  {
    match Current(lx)
    case None => Ok(Lexed(EofToken, lx))
    case Some(c0) =>
      var lx1 := if IsSpace(c0) then SkipWhitespace(lx) else lx;
      match Current(lx1)
      case None => Ok(Lexed(EofToken, lx1))
      case Some(c) => Scan(lx1, c)
  }

  /** Leading blanks never change the token: lexing from a cursor gives the
      same as lexing after skipping its blanks. */
  lemma NextTokenSkipsWhitespace(lx: Lexer)
    ensures NextToken(lx) == NextToken(SkipWhitespace(lx))
  {
    var sk := SkipWhitespace(lx);
    if Current(sk).Some? {
      assert SkipWhitespace(sk) == sk;
    }
  }

  /** What the first non-blank character decides: a digit starts an
      INTEGER token, a letter a word, a quote a STRING token, `#` the sigil
      production (see `Integer`, `Word`, `StringLit`, `Sigil`). */
  lemma LexDispatch(lx: Lexer)
    requires Current(lx).Some? && !IsSpace(Current(lx).value)
    ensures var c := Current(lx).value;
      && (IsDigit(c) ==> NextToken(lx) == Ok(Integer(lx)))
      && (IsAlpha(c) ==> NextToken(lx) == Ok(Word(lx)))
      && (c == '\'' ==> NextToken(lx) == Ok(StringLit(lx)))
      && (c == '#' ==> NextToken(lx) == Sigil(lx))
  {
    assert NextToken(lx) == Scan(lx, Current(lx).value);
  }

  /** A `#` is lexed by the sigil production. */
  lemma SigilNext(lx: Lexer)
    requires Current(lx) == Some('#')
    ensures NextToken(lx) == Sigil(lx)
  {
    assert NextToken(lx) == Scan(lx, '#');
  }

  /** A `#` at the end of the input crashes the lexer. */
  lemma LexSigilAtEnd(lx: Lexer)
    requires Current(lx) == Some('#') && lx.pos + 1 == |lx.text|
    ensures NextToken(lx) == Err(Crashed(HashAtEnd))
  {
    SigilNext(lx);
  }

  /** A `#` before a letter is lexed by gluing the word after it to the
      sigil. */
  lemma SigilGlues(lx: Lexer)
    requires Current(lx) == Some('#') && lx.pos + 1 < |lx.text| && IsAlpha(lx.text[lx.pos + 1])
    ensures NextToken(lx) == Ok(Glued(Advance(lx)))
  {
    SigilNext(lx);
  }

  /** The glued token is `#` followed by the word's token value, and the
      cursor ends just after the word. */
  lemma GluedRun(lx: Lexer)
    requires Current(lx).Some? && IsAlpha(Current(lx).value)
    ensures var word := LongestPrefix(lx.text[lx.pos..], Alnums);
      Glued(lx) == Lexed(Token(ID, Str("#" + ClassifyWord(word).value.s)), lx.(pos := lx.pos + |word|))
  {
    WordRun(lx);
  }

  /** A `#` before anything but a letter is the ID `#` on its own. */
  lemma LexSigilAlone(lx: Lexer)
    requires Current(lx) == Some('#') && lx.pos + 1 < |lx.text| && !IsAlpha(lx.text[lx.pos + 1])
    ensures NextToken(lx) == Ok(Lexed(Token(ID, Str("#")), lx.(pos := lx.pos + 1)))
  {
    SigilNext(lx);
  }

  /** An operator start character is lexed by the operator production. */
  lemma OperatorNext(lx: Lexer, c: char)
    requires Current(lx) == Some(c) && IsOperatorStart(c)
    ensures NextToken(lx) == Operator(lx, c)
  {
    assert NextToken(lx) == Scan(lx, c);
  }

  /** `->` when `-` is followed by `>`, else `-`. */
  lemma LexMinus(lx: Lexer)
    requires Current(lx) == Some('-')
    ensures NextToken(lx) == Ok(
      if Current(Advance(lx)) == Some('>') then Lexed(Token(ARROW, Str("->")), lx.(pos := lx.pos + 2))
      else Lexed(Token(MINUS, Str("-")), lx.(pos := lx.pos + 1)))
  {
    OperatorNext(lx, '-');
  }

  /** `<=` when `<` is followed by `=`, else `<`. */
  lemma LexLess(lx: Lexer)
    requires Current(lx) == Some('<')
    ensures NextToken(lx) == Ok(
      if Current(Advance(lx)) == Some('=') then Lexed(Token(LESS_EQ, Str("<=")), lx.(pos := lx.pos + 2))
      else Lexed(Token(LESS, Str("<")), lx.(pos := lx.pos + 1)))
  {
    OperatorNext(lx, '<');
  }

  /** `>=` when `>` is followed by `=`, else `>`. */
  lemma LexGreater(lx: Lexer)
    requires Current(lx) == Some('>')
    ensures NextToken(lx) == Ok(
      if Current(Advance(lx)) == Some('=') then Lexed(Token(GREATER_EQ, Str(">=")), lx.(pos := lx.pos + 2))
      else Lexed(Token(GREATER, Str(">")), lx.(pos := lx.pos + 1)))
  {
    OperatorNext(lx, '>');
  }

  /** `==` when `=` is followed by `=`, else the assignment `=`. */
  lemma LexEquals(lx: Lexer)
    requires Current(lx) == Some('=')
    ensures NextToken(lx) == Ok(
      if Current(Advance(lx)) == Some('=') then Lexed(Token(EQUAL, Str("==")), lx.(pos := lx.pos + 2))
      else Lexed(Token(ASSIGN, Str("=")), lx.(pos := lx.pos + 1)))
  {
    OperatorNext(lx, '=');
  }

  /** `!=` when `!` is followed by `=`; a `!` alone is an error naming the
      character after it. */
  lemma LexBang(lx: Lexer)
    requires Current(lx) == Some('!')
    ensures var next := Current(Advance(lx));
      NextToken(lx) ==
        if next == Some('=') then Ok(Lexed(Token(NOT_EQUAL, Str("!=")), lx.(pos := lx.pos + 2)))
        else Err(UnexpectedChar(next, lx.line))
  {
    OperatorNext(lx, '!');
  }

  /** A punctuation character is a token of its own, one character long,
      whose value is that character. */
  lemma LexPunctuation(lx: Lexer, c: char)
    requires Current(lx) == Some(c) && Punctuation(c).Some?
    ensures NextToken(lx) == Ok(Lexed(Token(Punctuation(c).value, Str([c])), lx.(pos := lx.pos + 1)))
  {
    PunctuationStandsAlone(c);
    assert NextToken(lx) == Scan(lx, c);
  }

  /** No punctuation character is blank or starts any other production. */
  lemma PunctuationStandsAlone(c: char)
    requires Punctuation(c).Some?
    ensures !IsSpace(c) && !IsDigit(c) && !IsAlpha(c) && c != '\'' && c != '#' && !IsOperatorStart(c)
  {
  }

  /** Any other character is a lexical error naming it and the line. */
  lemma LexRejects(lx: Lexer, c: char)
    requires Current(lx) == Some(c) && !IsSpace(c) && !Recognised(c)
    ensures NextToken(lx) == Err(UnexpectedChar(Some(c), lx.line))
  {
    assert NextToken(lx) == Scan(lx, c);
  }

  /** A token the parser receives, with `line_count` just after it was
      lexed: the line number every node built while it is current gets. */
  datatype Lexeme = Lexeme(tok: WfToken, line: nat)

  /** How the token stream ends: EOF on a line, or the error that the
      lexer raises when asked for the token after the last one. */
  datatype StreamEnd = AtEof(eofLine: nat) | Failed(failure: Error)

  /** The tokens successive `get_next_token` calls return, EOF excluded. */
  datatype Stream = Stream(lexemes: seq<Lexeme>, end: StreamEnd)

  /** Calling `get_next_token` until it returns EOF or raises. The lexer is
      deterministic, so the `i`-th call the parser makes, including calls
      made inside a look-ahead that restores the lexer, returns the `i`-th
      element. */
  function Lexemes(lx: Lexer): (r: Stream)
    decreases Remaining(lx)
    ensures forall i :: 0 <= i < |r.lexemes| ==> r.lexemes[i].tok.kind != EOF && r.lexemes[i].line >= lx.line
    ensures forall i, j :: 0 <= i <= j < |r.lexemes| ==> r.lexemes[i].line <= r.lexemes[j].line
  {
    match NextToken(lx)
    case Err(e) => Stream([], Failed(e))
    case Ok(l) =>
      if l.tok.kind == EOF then Stream([], AtEof(l.rest.line))
      else
        var rest := Lexemes(l.rest);
        Stream([Lexeme(l.tok, l.rest.line)] + rest.lexemes, rest.end)
  }

  /** The stream starts with what one `get_next_token` call returns. */
  lemma LexemesFirst(lx: Lexer)
    ensures NextToken(lx).Err? ==> Lexemes(lx) == Stream([], Failed(NextToken(lx).error))
    ensures NextToken(lx).Ok? && NextToken(lx).value.tok.kind == EOF ==>
      Lexemes(lx) == Stream([], AtEof(NextToken(lx).value.rest.line))
    ensures NextToken(lx).Ok? && NextToken(lx).value.tok.kind != EOF ==>
      var l := NextToken(lx).value;
      |Lexemes(lx).lexemes| > 0 && Lexemes(lx).lexemes[0] == Lexeme(l.tok, l.rest.line)
      && Lexemes(lx).lexemes[1..] == Lexemes(l.rest).lexemes && Lexemes(lx).end == Lexemes(l.rest).end
  {
  }
}
