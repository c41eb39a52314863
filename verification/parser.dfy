/** The recursive-descent parser (`interpreter/syntax_analysis/parser.py`).
    The parser's state is the lexer cursor together with the current token;
    every production takes that state and returns the node it built with
    the state after it, or the error that Python would raise. Each node's
    line number is the lexer's line count at the moment the source builds
    it, which is the line reached after lexing the lookahead token. */
module Parsing {
  import opened Wrappers
  import opened Tokens
  import opened Diagnostics
  import opened Lexical
  import opened Ast

  /** `Parser.current_token` as a position in the token stream; past the
      last token of a stream that ends in EOF, the current token is EOF. */
  datatype RawState = PState(ts: Stream, at: nat)

  type PState = p: RawState | p.at < |p.ts.lexemes| || (p.at == |p.ts.lexemes| && p.ts.end.AtEof?)
    witness PState(Stream([], AtEof(1)), 0)

  /** A production's result and the state after it. */
  datatype Parsed<T> = Parsed(node: T, ps: PState)

  type Step<T> = Outcome<Parsed<T>>

  /** `current_token` with the lexer's `line_count` at that moment. */
  function Lookahead(ps: PState): Lexeme {
    if ps.at < |ps.ts.lexemes| then ps.ts.lexemes[ps.at] else Lexeme(EofToken, ps.ts.end.eofLine)
  }

  function Tok(ps: PState): WfToken {
    Lookahead(ps).tok
  }

  function Line(ps: PState): nat {
    Lookahead(ps).line
  }

  /** The tokens left; it falls with every token other than EOF eaten. */
  function Rank(ps: PState): nat {
    |ps.ts.lexemes| - ps.at
  }

  /** `r` is `ps` itself or a state strictly further along the same stream. */
  predicate Follows(ps: PState, r: PState) {
    r.ts == ps.ts && (r == ps || Rank(r) < Rank(ps))
  }

  /** `r` is strictly further along the same stream than `ps`. */
  predicate Consumes(ps: PState, r: PState) {
    r.ts == ps.ts && Rank(r) < Rank(ps)
  }

  /** `Parser.eat`: take the current token if it has kind `k` and lex the
      next one, which fails where the stream fails; any other kind is an
      error naming both kinds and the line. EOF stays current for good. */
  function Eat(ps: PState, k: Kind): (r: Outcome<PState>)
    ensures Tok(ps).kind != k ==> r == Err(Expected(k, Tok(ps).kind, Line(ps)))
    ensures r.Ok? ==> Tok(ps).kind == k && r.value.ts == ps.ts
    ensures r.Ok? && ps.at < |ps.ts.lexemes| ==> r.value.at == ps.at + 1
    ensures r.Ok? && ps.at == |ps.ts.lexemes| ==> r.value == ps
    ensures r.Err? && Tok(ps).kind == k ==> ps.at + 1 == |ps.ts.lexemes| && ps.ts.end == Failed(r.error)
    ensures r.Ok? && k != EOF ==> Rank(r.value) < Rank(ps)
  {
    if Tok(ps).kind != k then Err(Expected(k, Tok(ps).kind, Line(ps)))
    else if ps.at == |ps.ts.lexemes| then Ok(ps)
    else if ps.at + 1 == |ps.ts.lexemes| && ps.ts.end.Failed? then Err(ps.ts.end.failure)
    else Ok(PState(ps.ts, ps.at + 1))
  }

  /** `Parser.__init__`: the lexer over the text, and its first token. */
  function Begin(text: string): (r: Outcome<PState>)
    ensures |text| == 0 ==> r == Err(Crashed(EmptySource))
    ensures r.Ok? ==> exists lx :: Start(text) == Ok(lx) && r.value == PState(Lexemes(lx), 0)
  {
    var lx :- Start(text);
    var ts := Lexemes(lx);
    if |ts.lexemes| == 0 && ts.end.Failed? then Err(ts.end.failure)
    else Ok(PState(ts, 0))
  }

  // ----- expressions -----

  /** `factor`: an integer, a parenthesised `expr`, a call or a variable;
      on any other token it builds nothing and consumes nothing. */
  function Factor(ps: PState): (r: Step<Option<Node>>)
    decreases Rank(ps), 0
    ensures r.Ok? ==> Follows(ps, r.value.ps)
    ensures Tok(ps).kind !in {INTEGER, LPAREN, MONKEY, ID} ==> r == Ok(Parsed(None, ps))
    ensures r.Ok? && Tok(ps).kind in {INTEGER, LPAREN, MONKEY, ID} ==> Rank(r.value.ps) < Rank(ps)
    ensures r.Ok? && Tok(ps).kind == INTEGER ==> r.value.node == Some(Num(Tok(ps), Line(r.value.ps)))
    ensures r.Ok? && Tok(ps).kind == ID ==> r.value.node == Some(Var(Tok(ps).value, Line(r.value.ps)))
  {
    var tok := Tok(ps);
    match tok.kind
    case INTEGER =>
      var p1 :- Eat(ps, INTEGER);
      Ok(Parsed(Some(Num(tok, Line(p1))), p1))
    case LPAREN =>
      var p1 :- Eat(ps, LPAREN);
      var e :- Expr(p1);
      var p2 :- Eat(e.ps, RPAREN);
      Ok(Parsed(e.node, p2))
    case MONKEY =>
      var c :- FunctionCall(ps);
      Ok(Parsed(Some(c.node), c.ps))
    case ID =>
      var p1 :- Eat(ps, ID);
      Ok(Parsed(Some(Var(tok.value, Line(p1))), p1))
    case _ => Ok(Parsed(None, ps))
  }

  /** `term`: factors joined by `*`, `/`, `//` and `%`, each new operator
      taking everything before it as its left operand. */
  function Term(ps: PState): (r: Step<Option<Node>>)
    decreases Rank(ps), 2
    ensures r.Ok? ==> Follows(ps, r.value.ps)
    ensures r.Ok? ==> !IsMultiplicative(Tok(r.value.ps).kind)
  {
    var f :- Factor(ps);
    TermLoop(f.node, f.ps)
  }

  /** The `while` of `term`, with the operand built so far. */
  function TermLoop(left: Option<Node>, ps: PState): (r: Step<Option<Node>>)
    decreases Rank(ps), 1
    ensures r.Ok? ==> Follows(ps, r.value.ps)
    ensures r.Ok? ==> !IsMultiplicative(Tok(r.value.ps).kind)
    ensures !IsMultiplicative(Tok(ps).kind) ==> r == Ok(Parsed(left, ps))
  {
    var op := Tok(ps);
    if IsMultiplicative(op.kind) then
      var p1 :- Eat(ps, op.kind);
      var f :- Factor(p1);
      TermLoop(Some(BinOp(left, op, f.node, Line(f.ps))), f.ps)
    else
      Ok(Parsed(left, ps))
  }

  /** `expr`: a term, then `+` or `-` and a whole `expr` as the right
      operand, so additive chains nest to the right. */
  function Expr(ps: PState): (r: Step<Option<Node>>)
    decreases Rank(ps), 4
    ensures r.Ok? ==> Follows(ps, r.value.ps)
    ensures r.Ok? ==> !IsAdditive(Tok(r.value.ps).kind) && !IsMultiplicative(Tok(r.value.ps).kind)
  {
    var t :- Term(ps);
    ExprLoop(t.node, t.ps)
  }

  /** The `while` of `expr`. */
  function ExprLoop(left: Option<Node>, ps: PState): (r: Step<Option<Node>>)
    requires !IsMultiplicative(Tok(ps).kind)
    decreases Rank(ps), 3
    ensures r.Ok? ==> Follows(ps, r.value.ps)
    ensures r.Ok? ==> !IsAdditive(Tok(r.value.ps).kind) && !IsMultiplicative(Tok(r.value.ps).kind)
    ensures !IsAdditive(Tok(ps).kind) ==> r == Ok(Parsed(left, ps))
  {
    var op := Tok(ps);
    if IsAdditive(op.kind) then
      var p1 :- Eat(ps, op.kind);
      var e :- Expr(p1);
      ExprLoop(Some(BinOp(left, op, e.node, Line(e.ps))), e.ps)
    else
      Ok(Parsed(left, ps))
  }

  /** `function_call`: `@ lib . fun ( args )`. */
  function FunctionCall(ps: PState): (r: Step<Node>)
    ensures r.Ok? ==> Consumes(ps, r.value.ps)
    ensures r.Ok? ==> r.value.node.FunCall?
    ensures Tok(ps).kind != MONKEY ==> r == Err(Expected(MONKEY, Tok(ps).kind, Line(ps)))
  {
    var p1 :- Eat(ps, MONKEY);
    var lib :- Name(p1);
    var p3 :- Eat(lib.ps, DOT);
    var fun :- Name(p3);
    CallTail(lib.node, fun.node, fun.ps)
  }

  /** The parenthesised argument list of a call and the `FunCall` node,
      whose line is read before the closing parenthesis is eaten. */
  function CallTail(lib: string, fun: string, ps: PState): (r: Step<Node>)
    ensures r.Ok? ==> Consumes(ps, r.value.ps)
    ensures r.Ok? ==> r.value.node.FunCall? && r.value.node.libName == lib && r.value.node.funName == fun
    ensures r.Ok? ==> forall n <- r.value.node.argsNodes :: n.Var?
  {
    var p1 :- Eat(ps, LPAREN);
    var args :- CallArgs(p1);
    var line := Line(args.ps);
    var p2 :- Eat(args.ps, RPAREN);
    Ok(Parsed(FunCall(lib, fun, args.node, line), p2))
  }

  /** Reading `current_token.value` and then eating an ID: the name. */
  function Name(ps: PState): (r: Step<string>)
    ensures r.Ok? ==> Tok(ps).kind == ID && r.value.node == Tok(ps).value.s
    ensures r.Ok? ==> Consumes(ps, r.value.ps)
    ensures Tok(ps).kind != ID ==> r == Err(Expected(ID, Tok(ps).kind, Line(ps)))
  {
    var p1 :- Eat(ps, ID);
    Ok(Parsed(Tok(ps).value.s, p1))
  }

  /** The argument `while` of `function_call`: each STRING, INTEGER or ID
      becomes a `Var` holding the token's value, commas optional. */
  function CallArgs(ps: PState): (r: Step<seq<Node>>)
    decreases Rank(ps)
    ensures r.Ok? ==> Follows(ps, r.value.ps) && Tok(r.value.ps).kind == RPAREN
    ensures r.Ok? ==> forall n <- r.value.node :: n.Var?
    ensures Tok(ps).kind == RPAREN ==> r == Ok(Parsed([], ps))
  {
    if Tok(ps).kind == RPAREN then Ok(Parsed([], ps))
    else
      var k := if Tok(ps).kind in {STRING, INTEGER} then Tok(ps).kind else ID;
      var arg := Var(Tok(ps).value, Line(ps));
      var p1 :- Eat(ps, k);
      var p2 :- if Tok(p1).kind == COMMA then Eat(p1, COMMA) else Ok(p1);
      var rest :- CallArgs(p2);
      Ok(Parsed([arg] + rest.node, rest.ps))
  }

  /** Token `b` follows token `a` directly or after a single comma. */
  predicate Separated(ts: Stream, a: nat, b: nat) {
    b == a + 1 || (b == a + 2 && a + 1 < |ts.lexemes| && ts.lexemes[a + 1].tok.kind == COMMA)
  }

  /** The call arguments `args` were read, in order, from the STRING,
      INTEGER or ID tokens at positions `pos` of the input from `from` up to
      `to`, with nothing but single commas between them and after the
      last. */
  predicate ArgLayout(ts: Stream, from: nat, to: nat, pos: seq<nat>, args: seq<Node>) {
    && |pos| == |args|
    && (|pos| == 0 ==> to == from)
    && (|pos| > 0 ==> pos[0] == from && Separated(ts, pos[|pos| - 1], to))
    && (forall k :: 0 <= k < |pos| ==>
          && pos[k] < to <= |ts.lexemes|
          && ts.lexemes[pos[k]].tok.kind in {STRING, INTEGER, ID}
          && args[k] == Var(ts.lexemes[pos[k]].tok.value, ts.lexemes[pos[k]].line))
    && (forall k :: 0 < k < |pos| ==> Separated(ts, pos[k - 1], pos[k]))
  }

  /** Every call argument comes from its own STRING, INTEGER or ID token,
      in source order, with the value and line of that token; the tokens in
      between are single commas, and the arguments stop at `)`. */
  lemma {:induction false} CallArgsLayout(ps: PState) returns (pos: seq<nat>)
    requires CallArgs(ps).Ok?
    ensures ArgLayout(ps.ts, ps.at, CallArgs(ps).value.ps.at, pos, CallArgs(ps).value.node)
    decreases Rank(ps)
  {
    if Tok(ps).kind == RPAREN {
      pos := [];
    } else {
      var k := if Tok(ps).kind in {STRING, INTEGER} then Tok(ps).kind else ID;
      var p1 := Eat(ps, k).value;
      assert ps.at < |ps.ts.lexemes| && p1.at == ps.at + 1;
      var p2 := (if Tok(p1).kind == COMMA then Eat(p1, COMMA) else Ok(p1)).value;
      assert Separated(ps.ts, ps.at, p2.at);
      var rest := CallArgs(p2).value;
      var arg := Var(Tok(ps).value, Line(ps));
      assert CallArgs(ps).value == Parsed([arg] + rest.node, rest.ps);
      var tail := CallArgsLayout(p2);
      pos := [ps.at] + tail;
      ArgLayoutCons(ps.ts, ps.at, p2.at, rest.ps.at, tail, rest.node, arg);
    }
  }

  /** An argument token in front of a layout extends it. */
  lemma ArgLayoutCons(ts: Stream, from: nat, mid: nat, to: nat, pos: seq<nat>, args: seq<Node>, arg: Node)
    requires ArgLayout(ts, mid, to, pos, args) && Separated(ts, from, mid) && mid <= to <= |ts.lexemes|
    requires from < |ts.lexemes| && ts.lexemes[from].tok.kind in {STRING, INTEGER, ID}
    requires arg == Var(ts.lexemes[from].tok.value, ts.lexemes[from].line)
    ensures ArgLayout(ts, from, to, [from] + pos, [arg] + args)
  {
    var ats, xs := [from] + pos, [arg] + args;
    forall k | 0 < k < |ats|
      ensures Separated(ts, ats[k - 1], ats[k])
    {
      if k > 1 {
        assert ats[k - 1] == pos[k - 2] && ats[k] == pos[k - 1];
      }
    }
    forall k | 0 <= k < |ats|
      ensures && ats[k] < to <= |ts.lexemes|
              && ts.lexemes[ats[k]].tok.kind in {STRING, INTEGER, ID}
              && xs[k] == Var(ts.lexemes[ats[k]].tok.value, ts.lexemes[ats[k]].line)
    {
      if k > 0 {
        assert ats[k] == pos[k - 1] && xs[k] == args[k - 1];
      }
    }
  }

  // ----- boolean expressions -----

  /** `bool_expr`: a comparison when it starts with an INTEGER or an ID,
      otherwise a logical expression. */
  function BoolExpr(ps: PState): (r: Step<Node>)
    decreases Rank(ps), 2
    ensures r.Ok? ==> Follows(ps, r.value.ps)
    ensures r.Ok? ==> r.value.node.BinOp? || r.value.node.UnOp?
  {
    if Tok(ps).kind == INTEGER || Tok(ps).kind == ID then BoolComparison(ps)
    else BoolLogical(ps)
  }

  /** `bool_comparison_expr`: `expr` comparison-operator `expr`; a missing
      operator is an error naming the token found instead. */
  function BoolComparison(ps: PState): (r: Step<Node>)
    ensures r.Ok? ==> Follows(ps, r.value.ps)
    ensures r.Ok? ==> r.value.node.BinOp? && IsComparison(r.value.node.op.kind)
  {
    var left :- Expr(ps);
    var op := Tok(left.ps);
    if IsComparison(op.kind) then
      var p1 :- Eat(left.ps, op.kind);
      var right :- Expr(p1);
      Ok(Parsed(BinOp(left.node, op, right.node, Line(right.ps)), right.ps))
    else
      Err(ExpectedComparison(op.kind, Line(left.ps)))
  }

  /** `bool_logical_expr`: a negation or a parenthesised comparison, then
      any number of AND/OR operands, each nesting what came before on the
      left. */
  function BoolLogical(ps: PState): (r: Step<Node>)
    decreases Rank(ps), 1
    ensures r.Ok? ==> Follows(ps, r.value.ps)
    ensures r.Ok? ==> r.value.node.BinOp? || r.value.node.UnOp?
    ensures r.Ok? ==> !IsLogical(Tok(r.value.ps).kind)
  {
    var first :- if Tok(ps).kind == NOT then UnarExpr(ps) else Bracketed(ps);
    LogicalLoop(first.node, first.ps)
  }

  /** `( comparison )`. */
  function Bracketed(ps: PState): (r: Step<Node>)
    ensures r.Ok? ==> Consumes(ps, r.value.ps)
    ensures r.Ok? ==> r.value.node.BinOp? && IsComparison(r.value.node.op.kind)
  {
    var c :- Opened(ps);
    var p2 :- Eat(c.ps, RPAREN);
    Ok(Parsed(c.node, p2))
  }

  /** `( comparison`, the closing parenthesis left for the caller. */
  function Opened(ps: PState): (r: Step<Node>)
    ensures r.Ok? ==> Consumes(ps, r.value.ps)
    ensures r.Ok? ==> r.value.node.BinOp? && IsComparison(r.value.node.op.kind)
  {
    var p1 :- Eat(ps, LPAREN);
    BoolComparison(p1)
  }

  /** The `while` of `bool_logical_expr`. */
  function LogicalLoop(left: Node, ps: PState): (r: Step<Node>)
    requires left.BinOp? || left.UnOp?
    decreases Rank(ps)
    ensures r.Ok? ==> Follows(ps, r.value.ps)
    ensures r.Ok? ==> r.value.node.BinOp? || r.value.node.UnOp?
    ensures r.Ok? ==> !IsLogical(Tok(r.value.ps).kind)
    ensures !IsLogical(Tok(ps).kind) ==> r == Ok(Parsed(left, ps))
  {
    var op := Tok(ps);
    if IsLogical(op.kind) then
      var p1 :- Eat(ps, op.kind);
      var right :- LogicalOperand(p1);
      var node := BinOp(Some(left), op, Some(right.node.0), right.node.1);
      var p2 :- Eat(right.ps, RPAREN);
      LogicalLoop(node, p2)
    else
      Ok(Parsed(left, ps))
  }

  /** The operand after AND/OR: `not ( comparison )` or `( comparison )`,
      up to but excluding the closing parenthesis, with the line at which
      the source builds the enclosing node. */
  function LogicalOperand(ps: PState): (r: Step<(Node, int)>)
    ensures r.Ok? ==> Consumes(ps, r.value.ps)
    ensures r.Ok? ==> r.value.node.1 == Line(r.value.ps)
    ensures r.Ok? && Tok(ps).kind == NOT ==> r.value.node.0.UnOp? && r.value.node.0.token == Tok(ps)
    ensures r.Ok? && Tok(ps).kind != NOT ==> r.value.node.0.BinOp? && IsComparison(r.value.node.0.op.kind)
  {
    if Tok(ps).kind == NOT then
      var p1 :- Eat(ps, NOT);
      var c :- Opened(p1);
      Ok(Parsed((UnOp(Tok(ps), c.node, Line(c.ps)), Line(c.ps)), c.ps))
    else
      var c :- Opened(ps);
      Ok(Parsed((c.node, Line(c.ps)), c.ps))
  }

  /** `unar_expr`: `not ( bool_expr )`. */
  function UnarExpr(ps: PState): (r: Step<Node>)
    decreases Rank(ps), 0
    ensures r.Ok? ==> Follows(ps, r.value.ps)
    ensures r.Ok? ==> r.value.node.UnOp? && r.value.node.token == Tok(ps) && Tok(ps).kind == NOT
  {
    var p1 :- Eat(ps, NOT);
    var p2 :- Eat(p1, LPAREN);
    var b :- BoolExpr(p2);
    var p3 :- Eat(b.ps, RPAREN);
    Ok(Parsed(UnOp(Tok(ps), b.node, Line(p3)), p3))
  }

  /** The tokens that end the look-ahead of `is_bool_expr`. */
  predicate ScanStop(k: Kind) {
    k in {ASSIGN, MONKEY, EOF, RBRACKET, COND, LOOP}
  }

  /** The operators that make an expression boolean. */
  predicate BoolOperator(k: Kind) {
    IsComparison(k) || k in {AND, OR, NOT}
  }

  /** `is_bool_expr`: eat tokens until a stop token or a boolean operator
      (eating that one too). The source restores the parser afterwards,
      so only the answer is returned and the caller keeps its state. */
  function IsBoolExpr(ps: PState): (r: Outcome<bool>)
    decreases Rank(ps)
    ensures ScanStop(Tok(ps).kind) ==> r == Ok(false)
    ensures r == Ok(true) ==> !ScanStop(Tok(ps).kind)
  {
    var k := Tok(ps).kind;
    if ScanStop(k) then Ok(false)
    else if BoolOperator(k) then
      var _ :- Eat(ps, k);
      Ok(true)
    else
      var p1 :- Eat(ps, k);
      IsBoolExpr(p1)
  }

  // ----- statements -----

  /** The kinds that begin a statement. */
  predicate StatementStart(k: Kind) {
    k in {TYPE, ID, COND, LOOP, MONKEY}
  }

  /** `statement_list`: declarations, assignments to one target, a
      condition, a loop or a call; on any other token nothing. */
  function StatementList(ps: PState): (r: Step<seq<Node>>)
    decreases Rank(ps), 1
    ensures r.Ok? ==> Follows(ps, r.value.ps)
    ensures !StatementStart(Tok(ps).kind) ==> r == Ok(Parsed([], ps))
    ensures r.Ok? && StatementStart(Tok(ps).kind) ==> Rank(r.value.ps) < Rank(ps)
  {
    match Tok(ps).kind
    case TYPE => VarDeclarationList(ps)
    case ID =>
      var target := Var(Tok(ps).value, Line(ps));
      var p1 :- Eat(ps, ID);
      AssignLoop(target, p1)
    case COND =>
      var c :- ConditionStatement(ps);
      Ok(Parsed([c.node], c.ps))
    case LOOP =>
      var l :- LoopStatement(ps);
      Ok(Parsed([l.node], l.ps))
    case MONKEY =>
      var c :- FunctionCall(ps);
      Ok(Parsed([c.node], c.ps))
    case _ => Ok(Parsed([], ps))
  }

  /** The `while` loops that collect statements until a token of `stops`.
      A round in which `statement_list` consumes nothing would repeat with
      the same state forever; that is the `NoProgress` outcome. */
  function BlockLoop(ps: PState, stops: set<Kind>): (r: Step<seq<Node>>)
    decreases Rank(ps), 2
    ensures r.Ok? ==> Follows(ps, r.value.ps)
    ensures r.Ok? ==> Tok(r.value.ps).kind in stops
    ensures Tok(ps).kind in stops ==> r == Ok(Parsed([], ps))
    ensures Tok(ps).kind !in stops && !StatementStart(Tok(ps).kind) ==>
      r == Err(NoProgress(Tok(ps).kind, Line(ps)))
  {
    if Tok(ps).kind in stops then Ok(Parsed([], ps))
    else
      var s :- StatementList(ps);
      if s.ps == ps then Err(NoProgress(Tok(ps).kind, Line(ps)))
      else
        var rest :- BlockLoop(s.ps, stops);
        Ok(Parsed(s.node + rest.node, rest.ps))
  }

  /** Reading a TYPE token's text and eating it: a `Type` node with the
      line before the eat. */
  function TypeNode(ps: PState): (r: Step<Node>)
    ensures r.Ok? ==> Tok(ps).kind == TYPE && r.value.node == Type(Tok(ps).value.s, Line(ps))
    ensures r.Ok? ==> Consumes(ps, r.value.ps)
    ensures Tok(ps).kind != TYPE ==> r == Err(Expected(TYPE, Tok(ps).kind, Line(ps)))
  {
    var p1 :- Eat(ps, TYPE);
    Ok(Parsed(Type(Tok(ps).value.s, Line(ps)), p1))
  }

  /** `var_declaration_list`: `type name` pairs, each maybe initialised. */
  function VarDeclarationList(ps: PState): (r: Step<seq<Node>>)
    decreases Rank(ps)
    ensures r.Ok? ==> Follows(ps, r.value.ps)
    ensures r.Ok? ==> Tok(r.value.ps).kind != TYPE
    ensures Tok(ps).kind != TYPE ==> r == Ok(Parsed([], ps))
  {
    if Tok(ps).kind != TYPE then Ok(Parsed([], ps))
    else
      var t :- TypeNode(ps);
      var v := Var(Tok(t.ps).value, Line(t.ps));
      var p2 :- Eat(t.ps, ID);
      var d :- VarDeclaration(t.node, v, p2);
      var rest :- VarDeclarationList(d.ps);
      Ok(Parsed(d.node + rest.node, rest.ps))
  }

  /** `var_declaration`: the `VarDecl`, then an `Assign` of an arithmetic
      `expr` when `=` follows. */
  function VarDeclaration(typ: Node, v: Node, ps: PState): (r: Step<seq<Node>>)
    requires typ.Type? && v.Var?
    ensures r.Ok? ==> Follows(ps, r.value.ps)
    ensures r.Ok? ==> 1 <= |r.value.node| <= 2 && r.value.node[0] == VarDecl(typ, v, Line(ps))
    ensures r.Ok? ==> (|r.value.node| == 2 <==> Tok(ps).kind == ASSIGN)
    ensures r.Ok? && |r.value.node| == 2 ==>
      r.value.node[1].Assign? && r.value.node[1].varNode == v && r.value.node[1].line == Line(r.value.ps)
  {
    var decl := VarDecl(typ, v, Line(ps));
    if Tok(ps).kind == ASSIGN then
      var p1 :- Eat(ps, ASSIGN);
      var e :- Expr(p1);
      Ok(Parsed([decl, Assign(v, e.node, Line(e.ps))], e.ps))
    else
      Ok(Parsed([decl], ps))
  }

  /** The `while` over `=` after an ID in `statement_list`: every
      assignment in the chain has the same target. */
  function AssignLoop(target: Node, ps: PState): (r: Step<seq<Node>>)
    requires target.Var?
    decreases Rank(ps)
    ensures r.Ok? ==> Follows(ps, r.value.ps)
    ensures r.Ok? ==> Tok(r.value.ps).kind != ASSIGN
    ensures r.Ok? ==> forall n <- r.value.node :: n.Assign? && n.varNode == target
    ensures Tok(ps).kind != ASSIGN ==> r == Ok(Parsed([], ps))
  {
    if Tok(ps).kind != ASSIGN then Ok(Parsed([], ps))
    else
      var a :- VarAssignment(target, ps);
      var rest :- AssignLoop(target, a.ps);
      Ok(Parsed([a.node] + rest.node, rest.ps))
  }

  /** `var_assignment_statement`: `=` and a right-hand side. */
  function VarAssignment(target: Node, ps: PState): (r: Step<Node>)
    requires target.Var?
    ensures r.Ok? ==> Consumes(ps, r.value.ps)
    ensures r.Ok? ==> r.value.node.Assign? && r.value.node.varNode == target
    ensures r.Ok? ==> r.value.node.line == Line(r.value.ps)
  {
    var p1 :- Eat(ps, ASSIGN);
    var isBool :- IsBoolExpr(p1);
    var rhs :- RightHandSide(p1, isBool);
    Ok(Parsed(Assign(target, rhs.node, Line(rhs.ps)), rhs.ps))
  }

  /** The choice of right-hand side, in the source's order: a boolean
      expression when the look-ahead found one, a string, a call, or else
      an arithmetic expression. */
  function RightHandSide(ps: PState, isBool: bool): (r: Step<Option<Node>>)
    ensures r.Ok? ==> Follows(ps, r.value.ps)
    ensures r.Ok? && isBool ==> r.value.node.Some? && (r.value.node.value.BinOp? || r.value.node.value.UnOp?)
    ensures r.Ok? && !isBool && Tok(ps).kind == STRING ==>
      r.value.node == Some(String(Tok(ps).value.s, Line(r.value.ps)))
    ensures r.Ok? && !isBool && Tok(ps).kind == MONKEY ==> r.value.node.Some? && r.value.node.value.FunCall?
    ensures !isBool && Tok(ps).kind != STRING && Tok(ps).kind != MONKEY ==> r == Expr(ps)
  {
    if isBool then
      var b :- BoolExpr(ps);
      Ok(Parsed(Some(b.node), b.ps))
    else if Tok(ps).kind == STRING then
      var p1 :- Eat(ps, STRING);
      Ok(Parsed(Some(String(Tok(ps).value.s, Line(p1))), p1))
    else if Tok(ps).kind == MONKEY then
      var c :- FunctionCall(ps);
      Ok(Parsed(Some(c.node), c.ps))
    else
      Expr(ps)
  }

  /** `condition_statement`: `?: ( bool-or-call ) -> { statements }`. */
  function ConditionStatement(ps: PState): (r: Step<Node>)
    decreases Rank(ps), 0
    ensures r.Ok? ==> Consumes(ps, r.value.ps)
    ensures r.Ok? ==> r.value.node.Cond? && r.value.node.stmtsNode.Stmts? && |r.value.node.stmtsNode.stmts| > 0
  {
    var p3 :- Opening(ps, COND);
    var cond :- if Tok(p3).kind == MONKEY then FunctionCall(p3) else BoolExpr(p3);
    Guarded(CondBlock, cond.node, cond.ps)
  }

  /** The keyword of a condition or loop, `:` and `(`. */
  function Opening(ps: PState, k: Kind): (r: Outcome<PState>)
    requires k != EOF
    ensures r.Ok? ==> Consumes(ps, r.value)
  {
    var p1 :- Eat(ps, k);
    var p2 :- Eat(p1, COLON);
    Eat(p2, LPAREN)
  }

  /** `loop_statement`: `loop: ( bool ) -> { statements }`. */
  function LoopStatement(ps: PState): (r: Step<Node>)
    decreases Rank(ps), 0
    ensures r.Ok? ==> Consumes(ps, r.value.ps)
    ensures r.Ok? ==> r.value.node.Loop? && r.value.node.stmtsNode.Stmts? && |r.value.node.stmtsNode.stmts| > 0
  {
    var p3 :- Opening(ps, LOOP);
    var cond :- BoolExpr(p3);
    Guarded(LoopBlock, cond.node, cond.ps)
  }

  /** The common tail of a condition and a loop: `) ->`, a block that
      must not be empty, and `}`. Both line numbers are read before the
      closing brace is eaten. */
  function Guarded(block: Block, cond: Node, ps: PState): (r: Step<Node>)
    decreases Rank(ps), 0
    ensures r.Ok? ==> Consumes(ps, r.value.ps)
    ensures r.Ok? ==> if block == CondBlock then r.value.node.Cond? else r.value.node.Loop?
    ensures r.Ok? && (r.value.node.Cond? || r.value.node.Loop?) ==>
      r.value.node.boolExpr == cond && r.value.node.stmtsNode.Stmts? && |r.value.node.stmtsNode.stmts| > 0
  {
    var p1 :- Eat(ps, RPAREN);
    var p2 :- Eat(p1, ARROW);
    var body :- Block(block, p2);
    var line := Line(body.ps);
    var stmts := Stmts(body.node, line);
    var p3 :- Eat(body.ps, RBRACKET);
    Ok(Parsed(GuardNode(block, cond, stmts, line), p3))
  }

  /** The `Cond` or `Loop` node of a guarded block. */
  function GuardNode(block: Block, cond: Node, body: Node, line: int): (n: Node)
    ensures if block == CondBlock then n.Cond? else n.Loop?
    ensures n.boolExpr == cond && n.stmtsNode == body && n.line == line
  {
    if block == CondBlock then Cond(cond, body, line) else Loop(cond, body, line)
  }

  /** `{` and the statements up to the closing brace, which is left
      current; an empty block is an error. */
  function Block(block: Block, ps: PState): (r: Step<seq<Node>>)
    decreases Rank(ps), 0
    ensures r.Ok? ==> Consumes(ps, r.value.ps)
    ensures r.Ok? ==> Tok(r.value.ps).kind == RBRACKET && |r.value.node| > 0
  {
    var p1 :- Eat(ps, LBRACKET);
    var body :- BlockLoop(p1, {RBRACKET});
    if |body.node| == 0 then Err(ExpectedBlock(block, Line(body.ps)))
    else Ok(body)
  }

  // ----- sections and functions -----

  /** The section keywords. */
  predicate SectionStart(k: Kind) {
    k in {LIBRARIES, FUNCTIONS, EXECUTION}
  }

  /** `program`: sections in any number and order, their contents
      concatenated; it stops at the first other token, EOF or not. */
  function ParseProgram(ps: PState): (r: Step<Node>)
    ensures r.Ok? ==> Follows(ps, r.value.ps) && !SectionStart(Tok(r.value.ps).kind)
    ensures r.Ok? ==> r.value.node.Program? && r.value.node.line == Line(r.value.ps)
    ensures !SectionStart(Tok(ps).kind) ==> r == Ok(Parsed(Program([], Line(ps)), ps))
  {
    var s :- Sections(ps);
    Ok(Parsed(Program(s.node, Line(s.ps)), s.ps))
  }

  /** The `while` of `program`. */
  function Sections(ps: PState): (r: Step<seq<Node>>)
    decreases Rank(ps)
    ensures r.Ok? ==> Follows(ps, r.value.ps) && !SectionStart(Tok(r.value.ps).kind)
    ensures !SectionStart(Tok(ps).kind) ==> r == Ok(Parsed([], ps))
  {
    if !SectionStart(Tok(ps).kind) then Ok(Parsed([], ps))
    else
      var section :- Section(ps);
      var rest :- Sections(section.ps);
      Ok(Parsed(section.node + rest.node, rest.ps))
  }

  /** One section: its keyword, then `libraries`, `functions` or
      `execution`. */
  function Section(ps: PState): (r: Step<seq<Node>>)
    requires SectionStart(Tok(ps).kind)
    ensures r.Ok? ==> Consumes(ps, r.value.ps)
    ensures r.Ok? && Tok(ps).kind == LIBRARIES ==> forall n <- r.value.node :: n.Library?
    ensures r.Ok? && Tok(ps).kind == FUNCTIONS ==> forall n <- r.value.node :: n.FunImpl?
  {
    var k := Tok(ps).kind;
    var p1 :- Eat(ps, k);
    var p2 :- Eat(p1, LBRACKET);
    var body :- if k == LIBRARIES then LibraryList(p2)
                else if k == FUNCTIONS then FunctionList(p2)
                else BlockLoop(p2, {RBRACKET});
    var p3 :- Eat(body.ps, RBRACKET);
    Ok(Parsed(body.node, p3))
  }

  /** Lists joined end to end, in order. */
  function Concat(xs: seq<seq<Node>>): seq<Node> {
    if |xs| == 0 then [] else xs[0] + Concat(xs[1..])
  }

  /** `states` cuts the input into consecutive sections: the `k`-th begins
      with a section keyword at `states[k]`, ends at `states[k + 1]`, and
      holds `contents[k]`. */
  predicate SectionChain(states: seq<PState>, contents: seq<seq<Node>>) {
    && |states| == |contents| + 1
    && forall k :: 0 <= k < |contents| ==>
         SectionStart(Tok(states[k]).kind) && Section(states[k]) == Ok(Parsed(contents[k], states[k + 1]))
  }

  /** Consecutive sections that end before a token that begins no section
      make up the whole of `program`'s loop, their contents joined in
      source order. */
  lemma {:induction false} SectionsOfChain(states: seq<PState>, contents: seq<seq<Node>>)
    requires SectionChain(states, contents) && !SectionStart(Tok(states[|contents|]).kind)
    ensures Sections(states[0]) == Ok(Parsed(Concat(contents), states[|contents|]))
    decreases |contents|
  {
    if |contents| > 0 {
      assert SectionChain(states[1..], contents[1..]) by {
        forall k | 0 <= k < |contents| - 1
          ensures SectionStart(Tok(states[1..][k]).kind)
            && Section(states[1..][k]) == Ok(Parsed(contents[1..][k], states[1..][k + 1]))
        {
          assert states[1..][k] == states[k + 1] && states[1..][k + 1] == states[k + 2];
        }
      }
      SectionsOfChain(states[1..], contents[1..]);
      assert SectionStart(Tok(states[0]).kind) && Section(states[0]) == Ok(Parsed(contents[0], states[1]));
    }
  }

  /** A section in front of a chain extends it. */
  lemma ChainCons(ps: PState, c: seq<Node>, states: seq<PState>, contents: seq<seq<Node>>)
    requires SectionStart(Tok(ps).kind) && SectionChain(states, contents)
    requires Section(ps) == Ok(Parsed(c, states[0]))
    ensures SectionChain([ps] + states, [c] + contents)
  {
    var st, cs := [ps] + states, [c] + contents;
    forall k | 0 <= k < |cs|
      ensures SectionStart(Tok(st[k]).kind) && Section(st[k]) == Ok(Parsed(cs[k], st[k + 1]))
    {
      if k > 0 {
        assert st[k] == states[k - 1] && st[k + 1] == states[k] && cs[k] == contents[k - 1];
      }
    }
  }

  /** Conversely, a successful loop is such a chain of sections. */
  lemma {:induction false} ChainOfSections(ps: PState) returns (states: seq<PState>, contents: seq<seq<Node>>)
    requires Sections(ps).Ok?
    ensures SectionChain(states, contents) && states[0] == ps
    ensures states[|contents|] == Sections(ps).value.ps && Concat(contents) == Sections(ps).value.node
    decreases Rank(ps)
  {
    if !SectionStart(Tok(ps).kind) {
      states, contents := [ps], [];
    } else {
      var section := Section(ps).value;
      var rest := Sections(section.ps).value;
      assert Sections(ps).value == Parsed(section.node + rest.node, rest.ps);
      var restStates, restContents := ChainOfSections(section.ps);
      ChainCons(ps, section.node, restStates, restContents);
      states, contents := [ps] + restStates, [section.node] + restContents;
      assert contents[1..] == restContents;
    }
  }

  /** A parsed program holds the contents of its sections in source order,
      and takes the line of the token it stops at. */
  lemma ProgramOfChain(states: seq<PState>, contents: seq<seq<Node>>)
    requires SectionChain(states, contents) && !SectionStart(Tok(states[|contents|]).kind)
    ensures ParseProgram(states[0]) ==
      Ok(Parsed(Program(Concat(contents), Line(states[|contents|])), states[|contents|]))
  {
    SectionsOfChain(states, contents);
  }

  /** The `while` of `libraries`: `-> name` entries. */
  function LibraryList(ps: PState): (r: Step<seq<Node>>)
    decreases Rank(ps)
    ensures r.Ok? ==> Follows(ps, r.value.ps) && Tok(r.value.ps).kind != ARROW
    ensures r.Ok? ==> forall n <- r.value.node :: n.Library?
    ensures Tok(ps).kind != ARROW ==> r == Ok(Parsed([], ps))
  {
    if Tok(ps).kind != ARROW then Ok(Parsed([], ps))
    else
      var lib :- IncludeLibrary(ps);
      var rest :- LibraryList(lib.ps);
      Ok(Parsed([lib.node] + rest.node, rest.ps))
  }

  /** `include_library`: `->` and the library's name. */
  function IncludeLibrary(ps: PState): (r: Step<Node>)
    ensures r.Ok? ==> Consumes(ps, r.value.ps)
    ensures r.Ok? ==> r.value.node.Library? && r.value.node.line == Line(r.value.ps)
  {
    var p1 :- Eat(ps, ARROW);
    var name :- Name(p1);
    Ok(Parsed(Library(name.node, Line(name.ps)), name.ps))
  }

  /** The `while` of `functions`: implementations until `}`. */
  function FunctionList(ps: PState): (r: Step<seq<Node>>)
    decreases Rank(ps)
    ensures r.Ok? ==> Follows(ps, r.value.ps) && Tok(r.value.ps).kind == RBRACKET
    ensures r.Ok? ==> forall n <- r.value.node :: n.FunImpl?
  {
    if Tok(ps).kind == RBRACKET then Ok(Parsed([], ps))
    else
      var f :- FunctionImplementation(ps);
      var rest :- FunctionList(f.ps);
      Ok(Parsed([f.node] + rest.node, rest.ps))
  }

  /** `function_implementation`: `@ name : ( parameters ) -> TYPE { body }`. */
  function FunctionImplementation(ps: PState): (r: Step<Node>)
    ensures r.Ok? ==> Consumes(ps, r.value.ps)
    ensures r.Ok? ==> r.value.node.FunImpl?
  {
    var p1 :- Eat(ps, MONKEY);
    var name :- Name(p1);
    var p2 :- Eat(name.ps, COLON);
    var p3 :- Eat(p2, LPAREN);
    Signature(name.node, p3)
  }

  /** The parameters, whose `Args` node takes the line after the last of
      them, `) ->` and the declared return type. */
  function Signature(name: string, ps: PState): (r: Step<Node>)
    ensures r.Ok? ==> Consumes(ps, r.value.ps)
    ensures r.Ok? ==> r.value.node.FunImpl? && r.value.node.funName == name
  {
    var params :- ArgumentList(ps);
    var args := Args(params.node, Line(params.ps));
    var p1 :- Eat(params.ps, RPAREN);
    var p2 :- Eat(p1, ARROW);
    var retType :- TypeNode(p2);
    FunctionBody(name, args, retType.node, retType.ps)
  }

  /** `{`, the statements, an optional `return name`, and `}`; the
      `FunImpl` and its `Stmts` take the line after the closing brace. */
  function FunctionBody(name: string, args: Node, retType: Node, ps: PState): (r: Step<Node>)
    requires args.Args? && retType.Type?
    ensures r.Ok? ==> Consumes(ps, r.value.ps)
    ensures r.Ok? ==> r.value.node.FunImpl? && r.value.node.funName == name && r.value.node.argsNode == args
    ensures r.Ok? ==> r.value.node.retNode.Return? && r.value.node.retNode.typeNode == retType && r.value.node.line == Line(r.value.ps)
  {
    var p1 :- Eat(ps, LBRACKET);
    var body :- BlockLoop(p1, {RETURN, RBRACKET});
    var ret :- ReturnStatement(body.ps);
    var p2 :- Eat(ret.ps, RBRACKET);
    var line := Line(p2);
    Ok(Parsed(FunImpl(name, args, Stmts(body.node, line), Return(retType, ret.node.0, ret.node.1), line), p2))
  }

  /** The optional `return name` of a function body: the returned `Var`
      and the line of the `Return` node, or `Var('')` and -1 without one. */
  function ReturnStatement(ps: PState): (r: Step<(Node, int)>)
    ensures r.Ok? ==> Follows(ps, r.value.ps) && r.value.node.0.Var?
    ensures Tok(ps).kind != RETURN ==> r == Ok(Parsed((Var(Str(""), Line(ps)), -1), ps))
    ensures r.Ok? && Tok(ps).kind == RETURN ==> r.value.node.1 == Line(ps) && Consumes(ps, r.value.ps)
  {
    if Tok(ps).kind != RETURN then Ok(Parsed((Var(Str(""), Line(ps)), -1), ps))
    else
      var p1 :- Eat(ps, RETURN);
      var v := Var(Tok(p1).value, Line(p1));
      var p2 :- Eat(p1, ID);
      Ok(Parsed((v, Line(ps)), p2))
  }

  /** `argument_list`: parameters up to `)`. */
  function ArgumentList(ps: PState): (r: Step<seq<Node>>)
    decreases Rank(ps)
    ensures r.Ok? ==> Follows(ps, r.value.ps) && Tok(r.value.ps).kind == RPAREN
    ensures r.Ok? ==> forall n <- r.value.node :: IsParameter(n)
  {
    if Tok(ps).kind == RPAREN then Ok(Parsed([], ps))
    else
      var param :- Parameter(ps);
      var rest :- ArgumentList(param.ps);
      Ok(Parsed([param.node] + rest.node, rest.ps))
  }

  /** One parameter of `argument_list`: `TYPE name` and an optional comma;
      its `VarDecl` takes the line after the name. */
  function Parameter(ps: PState): (r: Step<Node>)
    ensures r.Ok? ==> Consumes(ps, r.value.ps)
    ensures r.Ok? ==> IsParameter(r.value.node)
  {
    var t :- TypeNode(ps);
    var v := Var(Tok(t.ps).value, Line(t.ps));
    var p1 :- Eat(t.ps, ID);
    var p2 :- if Tok(p1).kind == COMMA then Eat(p1, COMMA) else Ok(p1);
    Ok(Parsed(VarDecl(t.node, v, Line(p1)), p2))
  }

  /** The shape of a declared parameter: a `VarDecl` of a `Type` and a `Var`. */
  predicate IsParameter(n: Node) {
    n.VarDecl? && n.typeNode.Type? && n.varNode.Var?
  }

  /** `Parser.parse` on a source text. */
  function Parse(text: string): (r: Outcome<Node>)
    ensures |text| == 0 ==> r == Err(Crashed(EmptySource))
    ensures r.Ok? ==> r.value.Program?
  {
    var ps :- Begin(text);
    var p :- ParseProgram(ps);
    Ok(p.node)
  }

  // ----- properties -----

  /** The kinds of the tokens from the current one on, ending with EOF
      when the stream does. */
  function Upcoming(ps: PState): (ks: seq<Kind>)
    ensures |ks| == Rank(ps) + (if ps.ts.end.AtEof? then 1 else 0)
  {
    seq(|ps.ts.lexemes| - ps.at, i requires 0 <= i < |ps.ts.lexemes| - ps.at => ps.ts.lexemes[ps.at + i].tok.kind)
    + (if ps.ts.end.AtEof? then [EOF] else [])
  }

  /** A boolean operator occurs in `ks` before any stop token. */
  predicate BoolBeforeStop(ks: seq<Kind>) {
    exists j :: 0 <= j < |ks| && BoolOperator(ks[j]) && forall m :: 0 <= m < j ==> !ScanStop(ks[m])
  }

  /** How `BoolBeforeStop` is decided by the first kind. */
  lemma BoolBeforeStopFirst(ks: seq<Kind>)
    requires |ks| > 0
    ensures ScanStop(ks[0]) ==> !BoolBeforeStop(ks)
    ensures BoolOperator(ks[0]) ==> BoolBeforeStop(ks)
    ensures !ScanStop(ks[0]) && !BoolOperator(ks[0]) ==> (BoolBeforeStop(ks) <==> BoolBeforeStop(ks[1..]))
  {
    if !ScanStop(ks[0]) && !BoolOperator(ks[0]) {
      var rest := ks[1..];
      if BoolBeforeStop(rest) {
        var j :| 0 <= j < |rest| && BoolOperator(rest[j]) && forall m :: 0 <= m < j ==> !ScanStop(rest[m]);
        assert BoolOperator(ks[j + 1]) && forall m :: 0 <= m < j + 1 ==> !ScanStop(ks[m]);
      }
      if BoolBeforeStop(ks) {
        var j :| 0 <= j < |ks| && BoolOperator(ks[j]) && forall m :: 0 <= m < j ==> !ScanStop(ks[m]);
        assert j > 0;
        assert BoolOperator(rest[j - 1]) && forall m :: 0 <= m < j - 1 ==> !ScanStop(rest[m]);
      }
    }
  }

  /** The upcoming kinds start with the current token's, and eating it
      drops exactly that one. */
  lemma UpcomingStep(ps: PState, k: Kind)
    ensures |Upcoming(ps)| > 0 && Upcoming(ps)[0] == Tok(ps).kind
    ensures Eat(ps, k).Ok? && ps.at < |ps.ts.lexemes| ==> Upcoming(Eat(ps, k).value) == Upcoming(ps)[1..]
  {
  }

  /** The look-ahead answers whether a boolean operator comes before the
      first stop token; it can fail only by running into a lexing error,
      so on input that lexes completely it always answers. */
  lemma {:induction false} IsBoolExprDecides(ps: PState)
    ensures IsBoolExpr(ps).Ok? ==> (IsBoolExpr(ps).value <==> BoolBeforeStop(Upcoming(ps)))
    ensures ps.ts.end.AtEof? ==> IsBoolExpr(ps).Ok?
    ensures IsBoolExpr(ps).Err? ==> ps.ts.end == Failed(IsBoolExpr(ps).error)
    decreases Rank(ps)
  {
    var k := Tok(ps).kind;
    UpcomingStep(ps, k);
    BoolBeforeStopFirst(Upcoming(ps));
    if !ScanStop(k) && !BoolOperator(k) {
      assert ps.at < |ps.ts.lexemes|;
      match Eat(ps, k)
      case Err(_) =>
      case Ok(p1) => IsBoolExprDecides(p1);
    }
  }

  const IdA: WfToken := Token(ID, Str("#a"))
  const IdB: WfToken := Token(ID, Str("#b"))
  const IdC: WfToken := Token(ID, Str("#c"))

  /** `t` is `base` under zero or more multiplicative operators, each
      taking the tree before it as its left operand. */
  predicate WrapsLeft(t: Option<Node>, base: Option<Node>)
    decreases t
  {
    t == base || (t.Some? && t.value.BinOp? && IsMultiplicative(t.value.op.kind) && WrapsLeft(t.value.left, base))
  }

  lemma {:induction false} WrapsLeftTrans(t: Option<Node>, mid: Option<Node>, base: Option<Node>)
    requires WrapsLeft(t, mid) && WrapsLeft(mid, base)
    ensures WrapsLeft(t, base)
    decreases t
  {
    if t != mid {
      WrapsLeftTrans(t.value.left, mid, base);
    }
  }

  /** The loop of `term` only ever wraps the operand built so far on the
      left: `(((left op f1) op f2) ...)`. */
  lemma {:induction false} TermLoopNestsLeft(left: Option<Node>, ps: PState)
    requires TermLoop(left, ps).Ok?
    ensures WrapsLeft(TermLoop(left, ps).value.node, left)
    decreases Rank(ps)
  {
    var op := Tok(ps);
    if IsMultiplicative(op.kind) {
      var p1 := Eat(ps, op.kind).value;
      var f := Factor(p1).value;
      var w := Some(BinOp(left, op, f.node, Line(f.ps)));
      assert TermLoop(left, ps) == TermLoop(w, f.ps);
      TermLoopNestsLeft(w, f.ps);
      WrapsLeftTrans(TermLoop(w, f.ps).value.node, w, left);
    }
  }

  /** A term is its first factor under left-nested multiplicative
      operators. */
  lemma TermNestsLeft(ps: PState)
    requires Term(ps).Ok?
    ensures Factor(ps).Ok? && WrapsLeft(Term(ps).value.node, Factor(ps).value.node)
  {
    var f := Factor(ps).value;
    TermLoopNestsLeft(f.node, f.ps);
  }

  /** The loop of `expr` runs at most once: an additive operator takes the
      operand built so far as its left and the whole following `expr` as its
      right, which leaves no additive operator behind. */
  lemma ExprLoopNestsRight(left: Option<Node>, ps: PState)
    requires !IsMultiplicative(Tok(ps).kind) && IsAdditive(Tok(ps).kind) && ExprLoop(left, ps).Ok?
    ensures Eat(ps, Tok(ps).kind).Ok? && Expr(Eat(ps, Tok(ps).kind).value).Ok?
    ensures var e := Expr(Eat(ps, Tok(ps).kind).value).value;
      ExprLoop(left, ps).value == Parsed(Some(BinOp(left, Tok(ps), e.node, Line(e.ps))), e.ps)
  {
    var e := Expr(Eat(ps, Tok(ps).kind).value).value;
    assert !IsAdditive(Tok(e.ps).kind) && !IsMultiplicative(Tok(e.ps).kind);
  }

  /** `#a - #b + #c`, one token per line: `+`/`-` nest to the right, and
      both operators take the line reached after the whole chain. */
  lemma AdditiveNestsRight()
    ensures var minus, plus := Token(MINUS, Str("-")), Token(PLUS, Str("+"));
      var ts := Stream([Lexeme(IdA, 1), Lexeme(minus, 2), Lexeme(IdB, 3), Lexeme(plus, 4), Lexeme(IdC, 5)], AtEof(6));
      Expr(PState(ts, 0)) == Ok(Parsed(
        Some(BinOp(Some(Var(IdA.value, 2)), minus,
                   Some(BinOp(Some(Var(IdB.value, 4)), plus, Some(Var(IdC.value, 6)), 6)), 6)),
        PState(ts, 5)))
  {
    var minus, plus := Token(MINUS, Str("-")), Token(PLUS, Str("+"));
    var ts := Stream([Lexeme(IdA, 1), Lexeme(minus, 2), Lexeme(IdB, 3), Lexeme(plus, 4), Lexeme(IdC, 5)], AtEof(6));
    var p0, p1, p2, p3, p4, p5 := PState(ts, 0), PState(ts, 1), PState(ts, 2), PState(ts, 3), PState(ts, 4), PState(ts, 5);
    var c := Some(Var(IdC.value, 6));
    assert Term(p4) == Ok(Parsed(c, p5)) by {
      assert Factor(p4) == Ok(Parsed(c, p5));
    }
    var bc := Some(BinOp(Some(Var(IdB.value, 4)), plus, c, 6));
    assert Expr(p2) == Ok(Parsed(bc, p5)) by {
      assert Factor(p2) == Ok(Parsed(Some(Var(IdB.value, 4)), p3));
      assert Eat(p3, PLUS) == Ok(p4);
      assert Expr(p4) == Ok(Parsed(c, p5));
    }
    assert Factor(p0) == Ok(Parsed(Some(Var(IdA.value, 2)), p1));
    assert Eat(p1, MINUS) == Ok(p2);
  }

  /** `#a * #b / #c`, one token per line: multiplicative operators nest to
      the left, each taking the line reached after its right operand. */
  lemma MultiplicativeNestsLeft()
    ensures var mul, div := Token(MUL, Str("*")), Token(NDIV, Str("/"));
      var ts := Stream([Lexeme(IdA, 1), Lexeme(mul, 2), Lexeme(IdB, 3), Lexeme(div, 4), Lexeme(IdC, 5)], AtEof(6));
      Term(PState(ts, 0)) == Ok(Parsed(
        Some(BinOp(Some(BinOp(Some(Var(IdA.value, 2)), mul, Some(Var(IdB.value, 4)), 4)), div,
                   Some(Var(IdC.value, 6)), 6)),
        PState(ts, 5)))
  {
    var mul, div := Token(MUL, Str("*")), Token(NDIV, Str("/"));
    var ts := Stream([Lexeme(IdA, 1), Lexeme(mul, 2), Lexeme(IdB, 3), Lexeme(div, 4), Lexeme(IdC, 5)], AtEof(6));
    var p0, p1, p2, p3, p4, p5 := PState(ts, 0), PState(ts, 1), PState(ts, 2), PState(ts, 3), PState(ts, 4), PState(ts, 5);
    var ab := Some(BinOp(Some(Var(IdA.value, 2)), mul, Some(Var(IdB.value, 4)), 4));
    assert TermLoop(ab, p3) == Ok(Parsed(Some(BinOp(ab, div, Some(Var(IdC.value, 6)), 6)), p5)) by {
      assert Eat(p3, NDIV) == Ok(p4);
      assert Factor(p4) == Ok(Parsed(Some(Var(IdC.value, 6)), p5));
    }
    assert TermLoop(Some(Var(IdA.value, 2)), p1) == TermLoop(ab, p3) by {
      assert Eat(p1, MUL) == Ok(p2);
      assert Factor(p2) == Ok(Parsed(Some(Var(IdB.value, 4)), p3));
    }
    assert Factor(p0) == Ok(Parsed(Some(Var(IdA.value, 2)), p1));
  }

  /** A block whose first token is its closing brace is rejected with the
      line reached after lexing that brace. */
  lemma EmptyBlockRejected(block: Block, ps: PState)
    requires Tok(ps).kind == LBRACKET && ps.at + 1 < |ps.ts.lexemes|
    requires ps.ts.lexemes[ps.at + 1].tok.kind == RBRACKET
    ensures Block(block, ps) == Err(ExpectedBlock(block, ps.ts.lexemes[ps.at + 1].line))
  {
    var p1 := PState(ps.ts, ps.at + 1);
    assert Eat(ps, LBRACKET) == Ok(p1);
    assert BlockLoop(p1, {RBRACKET}) == Ok(Parsed([], p1));
  }

  /** A block holding only a name, `{ #x }`, is rejected too: the name is
      consumed but, with no `=` after it, yields no statement. */
  lemma BareNameBlockRejected(block: Block, ps: PState)
    requires Tok(ps).kind == LBRACKET && ps.at + 2 < |ps.ts.lexemes|
    requires ps.ts.lexemes[ps.at + 1].tok.kind == ID && ps.ts.lexemes[ps.at + 2].tok.kind == RBRACKET
    ensures Block(block, ps) == Err(ExpectedBlock(block, ps.ts.lexemes[ps.at + 2].line))
  {
    var p1, p2 := PState(ps.ts, ps.at + 1), PState(ps.ts, ps.at + 2);
    assert Eat(ps, LBRACKET) == Ok(p1);
    assert Eat(p1, ID) == Ok(p2);
    assert StatementList(p1) == Ok(Parsed([], p2));
    assert BlockLoop(p2, {RBRACKET}) == Ok(Parsed([], p2));
  }

  /** A declaration's initialiser is only ever an arithmetic `expr`: a
      string after `=` gives an `Assign` with no expression and is left
      for the next statement. */
  lemma DeclarationTakesOnlyExpr(typ: Node, v: Node, ps: PState)
    requires typ.Type? && v.Var?
    requires Tok(ps).kind == ASSIGN && ps.at + 1 < |ps.ts.lexemes|
    requires ps.ts.lexemes[ps.at + 1].tok.kind == STRING
    ensures var p1 := PState(ps.ts, ps.at + 1);
      VarDeclaration(typ, v, ps) == Ok(Parsed([VarDecl(typ, v, Line(ps)), Assign(v, None, Line(p1))], p1))
  {
    var p1 := PState(ps.ts, ps.at + 1);
    assert Eat(ps, ASSIGN) == Ok(p1);
    assert Term(p1) == Ok(Parsed(None, p1)) by {
      assert Factor(p1) == Ok(Parsed(None, p1));
    }
  }

  /** The tokens of `@Stdio.out('hi' 3, #x)`, one per line. */
  const SampleCall := Stream([Lexeme(Token(MONKEY, Str("@")), 1), Lexeme(Token(ID, Str("Stdio")), 2),
                              Lexeme(Token(DOT, Str(".")), 3), Lexeme(Token(ID, Str("out")), 4),
                              Lexeme(Token(LPAREN, Str("(")), 5), Lexeme(Token(STRING, Str("hi")), 6),
                              Lexeme(Token(INTEGER, Int(3)), 7), Lexeme(Token(COMMA, Str(",")), 8),
                              Lexeme(Token(ID, Str("#x")), 9), Lexeme(Token(RPAREN, Str(")")), 10)], AtEof(11))

  /** The arguments of the sample call come out in source order, each with its own line. */
  lemma SampleArguments()
    ensures CallArgs(PState(SampleCall, 5)) == Ok(Parsed([Var(Str("hi"), 6), Var(Int(3), 7), Var(Str("#x"), 9)], PState(SampleCall, 9)))
  {
    var ts := SampleCall;
    var tail := [Var(Int(3), 7), Var(Str("#x"), 9)];
    SampleTail();
    assert Eat(PState(ts, 5), STRING) == Ok(PState(ts, 6));
    assert Tok(PState(ts, 6)).kind == INTEGER;
    assert [Var(Str("hi"), 6), Var(Int(3), 7), Var(Str("#x"), 9)] == [Var(Str("hi"), 6)] + tail;
  }

  /** The integer argument and the comma after it. */
  lemma SampleTail()
    ensures CallArgs(PState(SampleCall, 6)) == Ok(Parsed([Var(Int(3), 7), Var(Str("#x"), 9)], PState(SampleCall, 9)))
  {
    var ts := SampleCall;
    var x := Var(Str("#x"), 9);
    SampleLast();
    assert Eat(PState(ts, 6), INTEGER) == Ok(PState(ts, 7));
    assert Eat(PState(ts, 7), COMMA) == Ok(PState(ts, 8));
    assert [Var(Int(3), 7), x] == [Var(Int(3), 7)] + [x];
  }

  /** The name argument, right before `)`. */
  lemma SampleLast()
    ensures CallArgs(PState(SampleCall, 8)) == Ok(Parsed([Var(Str("#x"), 9)], PState(SampleCall, 9)))
  {
    var ts := SampleCall;
    var x := Var(Str("#x"), 9);
    assert Eat(PState(ts, 8), ID) == Ok(PState(ts, 9));
    assert Tok(PState(ts, 9)).kind == RPAREN;
    assert [x] + [] == [x];
  }

  /** The arguments of `@Stdio.out('hi' 3, #x)`: a string, an integer and
      a name become `Var`s in order, with or without commas, and the call
      takes the line reached when `)` is current. */
  lemma CallArgumentsInOrder()
    ensures FunctionCall(PState(SampleCall, 0)) == Ok(Parsed(
      FunCall("Stdio", "out", [Var(Str("hi"), 6), Var(Int(3), 7), Var(Str("#x"), 9)], 10),
      PState(SampleCall, 10)))
  {
    var ts := SampleCall;
    var args := [Var(Str("hi"), 6), Var(Int(3), 7), Var(Str("#x"), 9)];
    SampleArguments();
    assert CallTail("Stdio", "out", PState(ts, 4)) == Ok(Parsed(FunCall("Stdio", "out", args, 10), PState(ts, 10))) by {
      assert Eat(PState(ts, 4), LPAREN) == Ok(PState(ts, 5));
      assert Eat(PState(ts, 9), RPAREN) == Ok(PState(ts, 10));
    }
    assert Name(PState(ts, 1)) == Ok(Parsed("Stdio", PState(ts, 2)));
    assert Name(PState(ts, 3)) == Ok(Parsed("out", PState(ts, 4)));
  }
}
