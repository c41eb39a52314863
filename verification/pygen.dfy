/** The validating Python code generator (`getastpython.py`): a single
    pre-order pass over the syntax tree that appends Python text to an output
    buffer while keeping the tables it checks calls, declarations and returns
    against. The visitor's mutable fields become the `Gen` record, and each
    `visit_<Class>` becomes a function from one record to the next. */
module PyGen {
  import opened Wrappers
  import opened Tokens
  import opened Diagnostics
  import opened Ast
  import Parsing

  /** What is recorded for a user function (`add_to_fun_details`). */
  datatype FunDetail = FunDetail(argTypes: seq<string>, argNames: seq<Value>, argCount: int, retType: string)

  const FreshDetail: FunDetail := FunDetail([], [], 0, "")

  /** The scope of statements outside any function. */
  const MainScope: string := "main"

  /** The library name that denotes the program's own functions. */
  const ThisLib: string := "This"

  /** `tokenType.INT`, assumed to be the text of the `INT` type keyword. */
  const IntType: string := "INT"

  /** The generator's state: `num_tabs`, `dot_body` (joined), `memory`,
      `current_scope`, `libs`, `funcs`, `fun_details` and `scope_details`. */
  datatype Gen = Gen(
    tabs: nat,
    out: string,
    memory: map<string, seq<Value>>,
    scope: string,
    libs: seq<string>,
    funcs: seq<string>,
    details: map<string, FunDetail>,
    scopes: map<string, map<Value, string>>)

  /** The state `__init__` builds. */
  const Init: Gen := Gen(0, "", map[MainScope := []], MainScope, [], [], map[], map[MainScope := map[]])

  /** The dedented program header emitted before the body. */
  const Header: string := "\n### nonek ###\n\nimport random\nimport math\n\n"

  /** `tabs()`: one tab character per indentation level. */
  function Indent(n: nat): (s: string)
    ensures |s| == n && forall i :: 0 <= i < |s| ==> s[i] == '\t'
  {
    if n == 0 then "" else Indent(n - 1) + "\t"
  }

  function Emit(g: Gen, s: string): Gen {
    g.(out := g.out + s)
  }

  /** The tables agree with each other: the current and the top-level scope
      have a memory list and a type table, every defined function has a
      record, and every record counts exactly its parameter types. */
  predicate Consistent(g: Gen) {
    && g.scope in g.memory && g.scope in g.scopes
    && MainScope in g.memory && MainScope in g.scopes
    && (forall f :: f in g.funcs ==> f in g.details)
    && (forall f :: f in g.details ==> g.details[f].argCount == |g.details[f].argTypes|)
  }

  /** What every successful visit keeps: the indentation it started with,
      everything already emitted, every import and every defined function,
      and the consistency of the tables. */
  predicate Grows(g: Gen, h: Gen) {
    && h.tabs == g.tabs
    && g.out <= h.out
    && g.libs <= h.libs
    && g.funcs <= h.funcs
    && (Consistent(g) ==> Consistent(h))
  }

  // Lookups that raise `KeyError`, `AttributeError` or `TypeError` in the source.

  function MemoryOf(g: Gen): Outcome<seq<Value>> {
    if g.scope in g.memory then Ok(g.memory[g.scope]) else Err(Crashed(MissingKey(Str(g.scope))))
  }

  function TypesOf(g: Gen): Outcome<map<Value, string>> {
    if g.scope in g.scopes then Ok(g.scopes[g.scope]) else Err(Crashed(MissingKey(Str(g.scope))))
  }

  /** `scope_details[current_scope][key]`. */
  function DeclaredType(g: Gen, key: string): Outcome<string> {
    var table :- TypesOf(g);
    if Str(key) in table then Ok(table[Str(key)]) else Err(Crashed(MissingKey(Str(key))))
  }

  function DetailOf(g: Gen, f: string): Outcome<FunDetail> {
    if f in g.details then Ok(g.details[f]) else Err(Crashed(MissingKey(Str(f))))
  }

  /** `node.var`. */
  function VarOf(n: Node): Outcome<Value> {
    if n.Var? then Ok(n.name) else Err(Crashed(NoAttribute(ClassName(Some(n)), "var")))
  }

  /** `node.type`. */
  function TypeOf(n: Node): Outcome<string> {
    if n.Type? then Ok(n.typ) else Err(Crashed(NoAttribute(ClassName(Some(n)), "type")))
  }

  /** `v[1:]`: the name without its first character; only text can be sliced. */
  function Unsigil(v: Value): Outcome<string> {
    match v
    case Str(s) => Ok(if |s| == 0 then "" else s[1..])
    case _ => Err(Crashed(NotSubscriptable))
  }

  /** A `Var` that names a variable rather than a literal: text starting
      with `#` and longer than the sigil. */
  predicate IsSigilName(v: Value) {
    v.Str? && |v.s| > 1 && v.s[0] == '#'
  }

  /** One piece of a library call's template. */
  datatype Piece = Text(s: string) | Tabs | Arg(index: nat)

  /** The fixed Python text of each recognised (library, function) pair
      around its arguments; `None` for every other pair. */
  function Template(lib: string, fun: string): Option<seq<Piece>> {
    if lib == "Stdio" then
      if fun == "inINT" then Some([Text("int(input())")])
      else if fun == "inSTRING" then Some([Text("input()")])
      else if fun == "out" then Some([Text("\n"), Tabs, Text("print("), Arg(0), Text(")")])
      else None
    else if lib == "String" then
      if fun == "equals" then Some([Arg(0), Text(" == "), Arg(1)])
      else if fun == "append" then Some([Text("\n"), Tabs, Arg(0), Text(" = "), Arg(0), Text(" + "), Arg(1)])
      else if fun == "size" then Some([Text("len("), Arg(0), Text(")")])
      else if fun == "get" then Some([Arg(0), Text("[int("), Arg(1), Text(")]")])
      else if fun == "notEqual" then Some([Arg(0), Text(" != "), Arg(1)])
      else if fun == "isDigit" then Some([Text("int("), Arg(0), Text(".isdigit())")])
      else if fun == "isLetter" then Some([Text("int("), Arg(0), Text(".isalpha())")])
      else if fun == "isSpace" then Some([Text("int("), Arg(0), Text(".isspace())")])
      else if fun == "isInterpunction" then Some([Text("int("), Arg(0), Text(" in [',', '.', ':', '?', '!', ';'])")])
      else if fun == "substring" then Some([Text(""), Arg(0), Text("["), Arg(1), Text(":"), Arg(2), Text("]")])
      else if fun == "toUpper" then Some([Arg(0), Text(".upper()")])
      else None
    else if lib == "Random" then
      if fun == "range" then Some([Text("random.randrange(int("), Arg(0), Text("), int("), Arg(1), Text("))")])
      else None
    else if lib == "Math" then
      if fun == "sqrt" then Some([Text("math.sqrt("), Arg(0), Text(")")])
      else None
    else if lib == "Arrays" then
      if fun == "init" then Some([Text("\n"), Tabs, Arg(0), Text(" = []")])
      else if fun == "append" then Some([Text("\n"), Tabs, Arg(0), Text(".append("), Arg(1), Text(")")])
      else if fun == "size" then Some([Text("len("), Arg(0), Text(")")])
      else if fun == "get" then Some([Arg(0), Text("[int("), Arg(1), Text(")]")])
      else None
    else if lib == "Number" then
      if fun == "isInteger" then Some([Text("float.is_integer("), Arg(0), Text(")")])
      else if fun == "toString" then Some([Text("str("), Arg(0), Text(")")])
      else None
    else if lib == "FileUtil" then
      if fun == "read" then Some([Text("open("), Arg(0), Text(", 'r').read()")])
      else None
    else None
  }

  // The visitor. Every function takes the node it handles, so the
  // recursion descends the tree; the second and third components of each
  // `decreases` order the helpers that work on the same node.

  /** `visit` on a child slot; an empty slot has no handler. */
  function Visit(g: Gen, o: Option<Node>): (r: Outcome<Gen>)
    ensures r.Ok? ==> Grows(g, r.value)
    ensures o.None? ==> r == Err(NoHandler("NoneType"))
    decreases o, 4, 0
  {
    match o
    case None => Err(NoHandler(ClassName(o)))
    case Some(n) => VisitNode(g, n)
  }

  /** The handlers the generator defines, one per node class. */
  const Handlers: set<string> := HandlersFor(NodeClasses)

  /** `visit` as the generator runs it: `Visit` fails exactly where the
      handler lookup does, with its error, and otherwise runs the handler of
      the node's own class. */
  lemma VisitDispatches(g: Gen, o: Option<Node>)
    ensures Dispatch(Handlers, o).Err? <==> o.None?
    ensures Dispatch(Handlers, o).Err? ==> Visit(g, o) == Err(Dispatch(Handlers, o).error)
    ensures Dispatch(Handlers, o).Ok? ==>
      Dispatch(Handlers, o).value == "visit_" + ClassName(o) && Visit(g, o) == VisitNode(g, o.value)
  {
    HandlersForNodeClasses(NodeClasses);
    DispatchRoutes(Handlers, o);
  }

  /** `visit` on a node: the handler of its class. */
  function VisitNode(g: Gen, n: Node): (r: Outcome<Gen>)
    ensures r.Ok? ==> Grows(g, r.value)
    decreases n, 3, 0
  {
    match n
    case Program(_, _) => VisitEach(g, n, 0)
    case Library(lib, _) => Ok(g.(libs := g.libs + [lib]))
    case FunImpl(_, _, _, _, _) => VisitFunImpl(g, n)
    case Return(_, _, _) => VisitReturn(g, n)
    case FunCall(_, _, _, _) => VisitFunCall(g, n)
    case Cond(_, _, _) => VisitGuarded(g, n)
    case Loop(_, _, _) => VisitGuarded(g, n)
    case Type(_, _) => Ok(g)
    case Var(name, line) => VisitVar(g, name, line)
    case String(value, _) => Ok(Emit(g, "'" + value + "'"))
    case VarDecl(_, _, _) => VisitVarDecl(g, n)
    case Assign(_, _, _) => VisitAssign(g, n)
    case Args(_, _) => VisitArgs(g, n, 0)
    case Stmts(_, _) => VisitStmts(g, n, 0)
    case BinOp(_, _, _, _) => VisitBinOp(g, n)
    case UnOp(token, operand, _) => VisitNode(Emit(g, if token.kind == NOT then "not" else "-"), operand)
    case Num(token, _) => Ok(Emit(g, Show(token.value)))
  }

  /** `visit_Program`: the sections' children in order. */
  function VisitEach(g: Gen, n: Node, i: nat): (r: Outcome<Gen>)
    requires n.Program? && i <= |n.children|
    ensures r.Ok? ==> Grows(g, r.value)
    decreases n, 0, |n.children| - i
  {
    if i == |n.children| then Ok(g)
    else
      var g1 :- VisitNode(g, n.children[i]);
      VisitEach(g1, n, i + 1)
  }

  /** `visit_Stmts`: each statement after the current indentation. */
  function VisitStmts(g: Gen, n: Node, i: nat): (r: Outcome<Gen>)
    requires n.Stmts? && i <= |n.stmts|
    ensures r.Ok? ==> Grows(g, r.value)
    ensures r.Ok? && i < |n.stmts| ==> g.out + Indent(g.tabs) <= r.value.out
    decreases n, 0, |n.stmts| - i
  {
    if i == |n.stmts| then Ok(g)
    else
      var g1 :- VisitNode(Emit(g, Indent(g.tabs)), n.stmts[i]);
      VisitStmts(g1, n, i + 1)
  }

  /** `visit_Cond` and `visit_Loop`: the header line, then the body one
      level deeper. */
  function VisitGuarded(g: Gen, n: Node): (r: Outcome<Gen>)
    requires n.Cond? || n.Loop?
    ensures r.Ok? ==> Grows(g, r.value)
    decreases n, 1, 0
  {
    var keyword := if n.Cond? then "if " else "while ";
    var g1 :- VisitNode(Emit(g, "\n" + Indent(g.tabs) + keyword), n.boolExpr);
    var g2 :- VisitNode(Emit(g1, ":").(tabs := g1.tabs + 1), n.stmtsNode);
    Ok(g2.(tabs := g2.tabs - 1))
  }

  /** `visit_Return`: records the declared return type for the current
      function. */
  function VisitReturn(g: Gen, n: Node): (r: Outcome<Gen>)
    requires n.Return?
    ensures r.Ok? ==> Grows(g, r.value)
    ensures r.Ok? ==> n.typeNode.Type? && r.value.scope in r.value.details && r.value.details[r.value.scope].retType == n.typeNode.typ
    decreases n, 1, 0
  {
    var g1 :- VisitNode(Emit(g, "\n" + Indent(g.tabs) + "return "), n.varNode);
    var typ :- TypeOf(n.typeNode);
    var d :- DetailOf(g1, g1.scope);
    Ok(Emit(g1.(details := g1.details[g1.scope := d.(retType := typ)]), "\n"))
  }

  /** `visit_FunImpl`, up to the body: the `def` line, the switch to the
      function's scope, the duplicate check, the registration and the
      parameters. */
  function VisitFunImpl(g: Gen, n: Node): (r: Outcome<Gen>)
    requires n.FunImpl?
    ensures r.Ok? ==> Grows(g, r.value)
    ensures n.funName in g.funcs ==> r == Err(DuplicateFunction(n.funName, n.line))
    ensures r.Ok? ==> r.value.scope == MainScope && n.funName in r.value.funcs
    decreases n, 2, 0
  {
    if n.funName in g.funcs then Err(DuplicateFunction(n.funName, n.line))
    else
      var g1 :- VisitNode(Entered(g, n), n.argsNode);
      FunImplBody(Emit(g1, "):"), n)
  }

  /** The state in which a new function's parameters and body are visited:
      the `def` line emitted, the scope switched to the function with an
      empty memory, and the function registered. */
  function Entered(g: Gen, n: Node): (h: Gen)
    requires n.FunImpl?
    ensures h.scope == n.funName && n.funName in h.funcs && g.funcs <= h.funcs
    ensures h.memory == g.memory[n.funName := []] && h.scopes == g.scopes[n.funName := map[]]
    ensures h.details == g.details[n.funName := FreshDetail] && h.tabs == g.tabs
    ensures h.out == g.out + Indent(g.tabs) + "def " + n.funName + "("
    ensures Consistent(g) ==> Consistent(h)
  {
    var g1 := Emit(g, Indent(g.tabs) + "def " + n.funName + "(");
    Registered(g1.(scope := n.funName, memory := g1.memory[n.funName := []]), n.funName)
  }

  /** The function is entered in `funcs`, `fun_details` and `scope_details`. */
  function Registered(g: Gen, f: string): (h: Gen)
    ensures f in h.funcs && f in h.details && h.details[f] == FreshDetail && f in h.scopes && h.scopes[f] == map[]
    ensures (g.scope == f && f in g.memory && MainScope in g.memory && MainScope in g.scopes
             && Consistent(g.(scope := MainScope))) ==> Consistent(h)
  {
    g.(funcs := g.funcs + [f], details := g.details[f := FreshDetail], scopes := g.scopes[f := map[]])
  }

  /** `visit_FunImpl` from the body on: statements and return one level
      deeper, then the declared return type against the returned
      variable's, then back to the top-level scope. */
  function FunImplBody(g: Gen, n: Node): (r: Outcome<Gen>)
    requires n.FunImpl?
    ensures r.Ok? ==> Grows(g, r.value) && r.value.scope == MainScope
    decreases n, 1, 0
  {
    var g1 :- VisitNode(g.(tabs := g.tabs + 1), n.stmtsNode);
    var g2 :- VisitNode(g1, n.retNode);
    ReturnCheck(g2.(tabs := g2.tabs - 1), n)
  }

  /** The check after a function body (`getastpython.py`, lines 245-251). */
  function ReturnCheck(g: Gen, n: Node): (r: Outcome<Gen>)
    requires n.FunImpl?
    ensures r.Ok? ==> r.value == g.(scope := MainScope)
    ensures r.Ok? <==> ReturnTypesAgree(g, n)
  {
    var d :- DetailOf(g, g.scope);
    var retVar :- if n.retNode.Return? then VarOf(n.retNode.varNode)
                  else Err(Crashed(NoAttribute(ClassName(Some(n.retNode)), "var_node")));
    var key :- Unsigil(retVar);
    var found :- DeclaredType(g, key);
    if d.retType != found then Err(ReturnTypeMismatch(n.funName, d.retType, found, n.retNode.line))
    else Ok(g.(scope := MainScope))
  }

  /** The declared return type recorded for the current function equals the
      type declared, in that function's scope, for the returned variable's
      name without its sigil. */
  predicate ReturnTypesAgree(g: Gen, n: Node)
    requires n.FunImpl?
  {
    && g.scope in g.details
    && n.retNode.Return? && n.retNode.varNode.Var? && n.retNode.varNode.name.Str?
    && g.scope in g.scopes
    && var s := n.retNode.varNode.name.s;
       var key := Str(if |s| == 0 then "" else s[1..]);
       key in g.scopes[g.scope] && g.scopes[g.scope][key] == g.details[g.scope].retType
  }

  /** `visit_Assign`: the target, then the value, wrapped in `int(...)` when
      the target is declared INT and the value is a number literal. */
  function VisitAssign(g: Gen, n: Node): (r: Outcome<Gen>)
    requires n.Assign?
    ensures r.Ok? ==> Grows(g, r.value)
    ensures n.expr.None? ==> r.Err?
    decreases n, 1, 0
  {
    var g1 :- VisitNode(Emit(g, "\n" + Indent(g.tabs)), n.varNode);
    var g2 := Emit(g1, " = ");
    var name :- VarOf(n.varNode);
    var key :- Unsigil(name);
    var typ :- DeclaredType(g2, key);
    if typ == IntType && n.expr.Some? && n.expr.value.Num? then
      var g3 :- Visit(Emit(g2, "int("), n.expr);
      Ok(Emit(g3, ")"))
    else Visit(g2, n.expr)
  }

  /** `visit_BinOp`: both operands in parentheses around the operator's value. */
  function VisitBinOp(g: Gen, n: Node): (r: Outcome<Gen>)
    requires n.BinOp?
    ensures r.Ok? ==> Grows(g, r.value)
    ensures n.left.None? || n.right.None? ==> r.Err?
    decreases n, 1, 0
  {
    var g1 :- Visit(Emit(g, "("), n.left);
    var g2 :- Visit(Emit(g1, " " + Show(n.op.value) + " "), n.right);
    Ok(Emit(g2, ")"))
  }

  /** `visit_FunCall`: the import check, then a library template or a call
      of one of the program's own functions. */
  function VisitFunCall(g: Gen, n: Node): (r: Outcome<Gen>)
    requires n.FunCall?
    ensures r.Ok? ==> Grows(g, r.value)
    ensures n.libName != ThisLib && n.libName !in g.libs ==> r == Err(UnimportedLibrary(n.libName, n.line))
    ensures n.libName != ThisLib && n.libName in g.libs && Template(n.libName, n.funName).None? ==> r == Ok(g)
    decreases n, 2, 0
  {
    if n.libName != ThisLib && n.libName !in g.libs then Err(UnimportedLibrary(n.libName, n.line))
    else if n.libName == ThisLib then VisitUserCall(g, n)
    else
      match Template(n.libName, n.funName)
      case None => Ok(g)
      case Some(pieces) => Fill(g, n, pieces, 0)
  }

  /** Emits a template from piece `i` on, visiting the arguments it names. */
  function Fill(g: Gen, n: Node, pieces: seq<Piece>, i: nat): (r: Outcome<Gen>)
    requires n.FunCall? && i <= |pieces|
    ensures r.Ok? ==> Grows(g, r.value)
    ensures (exists j :: i <= j < |pieces| && pieces[j].Arg? && pieces[j].index >= |n.argsNodes|) ==> r.Err?
    decreases n, 0, |pieces| - i
  {
    if i == |pieces| then Ok(g)
    else
      match pieces[i]
      case Text(s) => Fill(Emit(g, s), n, pieces, i + 1)
      case Tabs => Fill(Emit(g, Indent(g.tabs)), n, pieces, i + 1)
      case Arg(k) =>
        if k < |n.argsNodes| then
          var g1 :- VisitNode(g, n.argsNodes[k]);
          Fill(g1, n, pieces, i + 1)
        else Err(Crashed(MissingArgument(k)))
  }

  /** Every argument from `i` on is a `Var`, as the parser builds them. */
  predicate AllVarsFrom(args: seq<Node>, i: nat) {
    forall j :: i <= j < |args| ==> args[j].Var?
  }

  /** A call of one of the program's own functions (`lib_name == 'This'`). */
  function VisitUserCall(g: Gen, n: Node): (r: Outcome<Gen>)
    requires n.FunCall?
    ensures r.Ok? ==> Grows(g, r.value)
    ensures n.funName !in g.funcs ==> r == Err(UndefinedFunction(n.funName, n.line))
    ensures (n.funName in g.details && n.funName in g.funcs && |n.argsNodes| != g.details[n.funName].argCount)
              ==> r == Err(ArityMismatch(n.funName, g.details[n.funName].argCount, |n.argsNodes|, n.line))
    ensures n.funName in g.funcs && AllVarsFrom(n.argsNodes, 0) && r.Err? ==> !r.error.UndefinedFunction?
    ensures Consistent(g) && AllVarsFrom(n.argsNodes, 0) && r.Err? ==> !(r.error.Crashed? && r.error.crash.MissingParameterType?)
    decreases n, 1, 0
  {
    if n.funName !in g.funcs then Err(UndefinedFunction(n.funName, n.line))
    else
      var d :- DetailOf(g, n.funName);
      if |n.argsNodes| != d.argCount then Err(ArityMismatch(n.funName, d.argCount, |n.argsNodes|, n.line))
      else
        var g1 :- UserArgs(Emit(g, n.funName + "("), n, 0);
        Ok(Emit(g1, ")\n"))
  }

  /** The arguments of a user call from `i` on: each argument's declared
      type in the current scope must equal the parameter's type. */
  function UserArgs(g: Gen, n: Node, i: nat): (r: Outcome<Gen>)
    requires n.FunCall? && i <= |n.argsNodes|
    ensures r.Ok? ==> Grows(g, r.value)
    ensures AllVarsFrom(n.argsNodes, i) && r.Err? ==> !r.error.UndefinedFunction?
    ensures (AllVarsFrom(n.argsNodes, i) && n.funName in g.details && |g.details[n.funName].argTypes| == |n.argsNodes|
             && r.Err?) ==> !(r.error.Crashed? && r.error.crash.MissingParameterType?)
    decreases n, 0, |n.argsNodes| - i
  {
    if i == |n.argsNodes| then Ok(g)
    else
      var d :- DetailOf(g, n.funName);
      if i >= |d.argTypes| then Err(Crashed(MissingParameterType(i)))
      else
        var name :- VarOf(n.argsNodes[i]);
        var key :- Unsigil(name);
        var found :- DeclaredType(g, key);
        if d.argTypes[i] != found then Err(ArgTypeMismatch(n.funName, d.argTypes[i], found, n.line))
        else
          var g1 :- VisitNode(g, n.argsNodes[i]);
          UserArgs(if i + 1 < |n.argsNodes| then Emit(g1, ", ") else g1, n, i + 1)
  }

  /** `visit_Var`: a sigil name must be declared in the current scope and is
      printed without the sigil; any other value is printed single-quoted. */
  function VisitVar(g: Gen, v: Value, line: int): (r: Outcome<Gen>)
    ensures IsSigilName(v) && g.scope in g.memory ==>
              (r.Ok? <==> Str(v.s[1..]) in g.memory[g.scope])
    ensures IsSigilName(v) && r.Ok? ==> r.value == Emit(g, v.s[1..])
    ensures IsSigilName(v) && g.scope in g.memory && r.Err? ==> r.error == UndefinedVariable(v.s[1..], g.scope, line)
    ensures !IsSigilName(v) ==> r == Ok(Emit(g, "'" + Show(v) + "'"))
    ensures r.Ok? ==> Grows(g, r.value)
    ensures r.Err? ==> r.error.UndefinedVariable? || r.error.Crashed?
  {
    if IsSigilName(v) then
      var mem :- MemoryOf(g);
      if Str(v.s[1..]) !in mem then Err(UndefinedVariable(v.s[1..], g.scope, line))
      else Ok(Emit(g, v.s[1..]))
    else Ok(Emit(g, "'" + Show(v) + "'"))
  }

  /** `visit_VarDecl`: the verbatim name joins the current scope's memory
      and type table, unless that scope already holds it. */
  function VisitVarDecl(g: Gen, n: Node): (r: Outcome<Gen>)
    requires n.VarDecl?
    ensures n.varNode.Var? && g.scope in g.memory ==>
              (r == Err(DuplicateVariable(n.varNode.name, g.scope, n.varNode.line)) <==> n.varNode.name in g.memory[g.scope])
    ensures r.Ok? ==> n.varNode.Var? && n.typeNode.Type? && g.scope in g.memory && g.scope in g.scopes
    ensures r.Ok? ==> g.scope in r.value.memory && r.value.memory[g.scope] == g.memory[g.scope] + [n.varNode.name]
    ensures r.Ok? ==> g.scope in r.value.scopes && r.value.scopes[g.scope] == g.scopes[g.scope][n.varNode.name := n.typeNode.typ]
    ensures r.Ok? ==> Grows(g, r.value) && r.value.out == g.out
  {
    var name :- VarOf(n.varNode);
    var mem :- MemoryOf(g);
    if name in mem then Err(DuplicateVariable(name, g.scope, n.varNode.line))
    else
      var typ :- TypeOf(n.typeNode);
      var table :- TypesOf(g);
      Ok(g.(memory := g.memory[g.scope := mem + [name]], scopes := g.scopes[g.scope := table[name := typ]]))
  }

  /** `visit_Args` from parameter `i` on: each name is emitted and joins the
      current scope's memory, and its type and name join the current
      function's record. Parameters never enter the type table. */
  function VisitArgs(g: Gen, n: Node, i: nat): (r: Outcome<Gen>)
    requires n.Args? && i <= |n.args|
    ensures r.Ok? ==> Grows(g, r.value) && r.value.scopes == g.scopes
    ensures r.Ok? && g.scope in g.details ==>
              (g.scope in r.value.details && r.value.details[g.scope].argCount == g.details[g.scope].argCount + |n.args| - i)
    decreases |n.args| - i
  {
    if i == |n.args| then Ok(g)
    else
      var child := n.args[i];
      var name :- if child.VarDecl? then VarOf(child.varNode)
                  else Err(Crashed(NoAttribute(ClassName(Some(child)), "var_node")));
      var g1 := Emit(g, Show(name));
      var mem := if g1.scope in g1.memory then g1.memory[g1.scope] else [];
      var d :- DetailOf(g1, g1.scope);
      var typ :- TypeOf(child.typeNode);
      var d1 := d.(argTypes := d.argTypes + [typ], argNames := d.argNames + [name], argCount := d.argCount + 1);
      var g2 := g1.(memory := g1.memory[g1.scope := mem + [name]], details := g1.details[g1.scope := d1]);
      VisitArgs(if i + 1 < |n.args| then Emit(g2, ", ") else g2, n, i + 1)
  }

  /** The declared types of the parameters from `i` on, in order. */
  function ParamTypes(args: seq<Node>, i: nat): seq<string>
    decreases |args| - i
  {
    if i >= |args| then []
    else [if args[i].VarDecl? && args[i].typeNode.Type? then args[i].typeNode.typ else ""] + ParamTypes(args, i + 1)
  }

  /** The names of the parameters from `i` on, in order. */
  function ParamNames(args: seq<Node>, i: nat): seq<Value>
    decreases |args| - i
  {
    if i >= |args| then []
    else [if args[i].VarDecl? && args[i].varNode.Var? then args[i].varNode.name else Str("")] + ParamNames(args, i + 1)
  }

  /** The parameter list of a `def` line: the names from `i` on, with `, `
      between neighbours. */
  function ParamText(args: seq<Node>, i: nat): string
    decreases |args| - i
  {
    if i >= |args| then ""
    else Show(ParamNames(args, i)[0]) + (if i + 1 < |args| then ", " else "") + ParamText(args, i + 1)
  }

  /** What registering the parameters from `i` on leaves in `h`, starting
      from `g`: the names in the `def` line, each type and name appended to
      the current function's record in order, and each name appended to the
      current scope's memory. */
  predicate ArgsRecorded(g: Gen, h: Gen, args: seq<Node>, i: nat) {
    && h.scope == g.scope && h.tabs == g.tabs
    && h.out == g.out + ParamText(args, i)
    && (g.scope in g.details ==>
          && g.scope in h.details
          && h.details[g.scope].argTypes == g.details[g.scope].argTypes + ParamTypes(args, i)
          && h.details[g.scope].argNames == g.details[g.scope].argNames + ParamNames(args, i))
    && (g.scope in g.memory ==> g.scope in h.memory && h.memory[g.scope] == g.memory[g.scope] + ParamNames(args, i))
  }

  /** The state after registering parameter `i` and its separator. */
  function ParamStep(g: Gen, n: Node, i: nat): Gen
    requires n.Args? && i < |n.args| && n.args[i].VarDecl? && n.args[i].varNode.Var? && n.args[i].typeNode.Type?
    requires g.scope in g.details
  {
    var child := n.args[i];
    var g1 := Emit(g, Show(child.varNode.name) + (if i + 1 < |n.args| then ", " else ""));
    var mem := if g.scope in g.memory then g.memory[g.scope] else [];
    var d := g.details[g.scope];
    var d1 := d.(argTypes := d.argTypes + [child.typeNode.typ], argNames := d.argNames + [child.varNode.name],
                 argCount := d.argCount + 1);
    g1.(memory := g.memory[g.scope := mem + [child.varNode.name]], details := g.details[g.scope := d1])
  }

  /** A parameter that is registered is a `VarDecl` of a `Type` and a `Var`
      in a function that has a record, and registration goes on from the
      state after it. */
  lemma VisitArgsStep(g: Gen, n: Node, i: nat)
    requires n.Args? && i < |n.args| && VisitArgs(g, n, i).Ok?
    ensures n.args[i].VarDecl? && n.args[i].varNode.Var? && n.args[i].typeNode.Type? && g.scope in g.details
    ensures VisitArgs(g, n, i) == VisitArgs(ParamStep(g, n, i), n, i + 1)
  {
    var child := n.args[i];
    var g1 := Emit(g, Show(child.varNode.name));
    var sep := if i + 1 < |n.args| then ", " else "";
    if i + 1 < |n.args| {
      assert g1.out + sep == g.out + (Show(child.varNode.name) + sep);
    } else {
      assert Show(child.varNode.name) + sep == Show(child.varNode.name);
    }
  }

  /** Registering the parameters records exactly the signature: the names
      in the `def` line, separated by `, `, and each parameter's type and
      name appended, in order, to the function's record, the name also to
      the function's memory. */
  lemma {:induction false} VisitArgsRecords(g: Gen, n: Node, i: nat)
    requires n.Args? && i <= |n.args| && VisitArgs(g, n, i).Ok?
    ensures ArgsRecorded(g, VisitArgs(g, n, i).value, n.args, i)
    decreases |n.args| - i
  {
    if i == |n.args| {
      assert g.out + ParamText(n.args, i) == g.out;
      if g.scope in g.details {
        assert g.details[g.scope].argTypes + ParamTypes(n.args, i) == g.details[g.scope].argTypes;
        assert g.details[g.scope].argNames + ParamNames(n.args, i) == g.details[g.scope].argNames;
      }
      if g.scope in g.memory {
        assert g.memory[g.scope] + ParamNames(n.args, i) == g.memory[g.scope];
      }
    } else {
      VisitArgsStep(g, n, i);
      var next := ParamStep(g, n, i);
      VisitArgsRecords(next, n, i + 1);
      ArgsRecordedCons(g, next, VisitArgs(next, n, i + 1).value, n, i);
    }
  }

  /** The signature from `i` on is parameter `i` in front of the rest. */
  lemma ParamsCons(args: seq<Node>, i: nat)
    requires i < |args| && args[i].VarDecl? && args[i].varNode.Var? && args[i].typeNode.Type?
    ensures ParamNames(args, i) == [args[i].varNode.name] + ParamNames(args, i + 1)
    ensures ParamTypes(args, i) == [args[i].typeNode.typ] + ParamTypes(args, i + 1)
    ensures ParamText(args, i) == Show(args[i].varNode.name) + (if i + 1 < |args| then ", " else "") + ParamText(args, i + 1)
  {
  }

  /** One registered parameter in front of the rest. */
  lemma ArgsRecordedCons(g: Gen, next: Gen, h: Gen, n: Node, i: nat)
    requires n.Args? && i < |n.args| && n.args[i].VarDecl? && n.args[i].varNode.Var? && n.args[i].typeNode.Type?
    requires g.scope in g.details && next == ParamStep(g, n, i) && ArgsRecorded(next, h, n.args, i + 1)
    ensures ArgsRecorded(g, h, n.args, i)
  {
    ParamsCons(n.args, i);
    var name, typ := n.args[i].varNode.name, n.args[i].typeNode.typ;
    var sep := if i + 1 < |n.args| then ", " else "";
    AppendCons(g.out, Show(name) + sep, ParamText(n.args, i + 1), h.out);
    var d := g.details[g.scope];
    AppendCons(d.argTypes, [typ], ParamTypes(n.args, i + 1), h.details[g.scope].argTypes);
    AppendCons(d.argNames, [name], ParamNames(n.args, i + 1), h.details[g.scope].argNames);
    if g.scope in g.memory {
      AppendCons(g.memory[g.scope], [name], ParamNames(n.args, i + 1), h.memory[g.scope]);
    }
  }

  /** Appending `x` and then `rest` is appending `x + rest`. */
  lemma AppendCons<T>(a: seq<T>, x: seq<T>, rest: seq<T>, h: seq<T>)
    requires h == a + x + rest
    ensures h == a + (x + rest)
  {
  }

  /** The `def` line of a function up to its closing parenthesis, and the
      record and memory its parameters leave behind: the record holds the
      parameter types and names in order and counts them, and the
      function's memory, fresh at entry, holds exactly the parameter names.
      Calls of the function are later checked against this record. */
  lemma SignatureRecorded(g: Gen, n: Node)
    requires n.FunImpl? && n.argsNode.Args? && VisitNode(Entered(g, n), n.argsNode).Ok?
    ensures var h := VisitNode(Entered(g, n), n.argsNode).value;
      && h.scope == n.funName && h.tabs == g.tabs
      && h.out == g.out + Indent(g.tabs) + "def " + n.funName + "(" + ParamText(n.argsNode.args, 0)
      && n.funName in h.details
      && h.details[n.funName].argTypes == ParamTypes(n.argsNode.args, 0)
      && h.details[n.funName].argNames == ParamNames(n.argsNode.args, 0)
      && h.details[n.funName].argCount == |n.argsNode.args|
      && n.funName in h.memory && h.memory[n.funName] == ParamNames(n.argsNode.args, 0)
  {
    var e := Entered(g, n);
    VisitArgsRecords(e, n.argsNode, 0);
    assert e.details[n.funName] == FreshDetail;
    assert e.memory[n.funName] == [];
  }

  /** Entering a function starts an empty scope: a declaration in it is
      accepted whatever the enclosing or earlier scopes hold, so the same
      name may be declared again inside another function. */
  lemma FreshScopeAcceptsAnyName(g: Gen, n: Node, t: string, v: Value, l1: int, l2: int, l3: int)
    requires n.FunImpl?
    ensures var e := Entered(g, n);
      VisitNode(e, VarDecl(Type(t, l1), Var(v, l2), l3)).Ok?
      && VisitNode(e, VarDecl(Type(t, l1), Var(v, l2), l3)).value.memory[n.funName] == [v]
  {
    var e := Entered(g, n);
    assert v !in e.memory[n.funName];
  }

  /** A successful `return`: a new line at the current indentation, the
      keyword, the returned variable's text and a line break are emitted,
      the declared type becomes the current function's return type, and
      nothing else changes. */
  lemma ReturnEmits(g: Gen, n: Node)
    requires n.Return? && n.varNode.Var? && VisitReturn(g, n).Ok?
    ensures n.typeNode.Type? && g.scope in g.details
    ensures VisitReturn(g, n).value
              == Emit(g, "\n" + Indent(g.tabs) + "return " + VarText(n.varNode.name) + "\n")
                   .(details := g.details[g.scope := g.details[g.scope].(retType := n.typeNode.typ)])
  {
    var g0 := Emit(g, "\n" + Indent(g.tabs) + "return ");
    VisitVarNode(g0, n.varNode.name, n.varNode.line);
    var g1 := Emit(g0, VarText(n.varNode.name));
    EmitTwice(g, "\n" + Indent(g.tabs) + "return ", VarText(n.varNode.name));
    EmitTwice(g, "\n" + Indent(g.tabs) + "return " + VarText(n.varNode.name), "\n");
  }

  /** A successful function definition emits its `def` line, with the
      parameter names separated by `, ` and closed by `):`, before its
      body. */
  lemma FunImplHeader(g: Gen, n: Node)
    requires n.FunImpl? && n.argsNode.Args? && VisitFunImpl(g, n).Ok?
    ensures g.out + Indent(g.tabs) + "def " + n.funName + "(" + ParamText(n.argsNode.args, 0) + "):"
              <= VisitFunImpl(g, n).value.out
  {
    SignatureRecorded(g, n);
    var g1 := VisitNode(Entered(g, n), n.argsNode).value;
    assert VisitFunImpl(g, n) == FunImplBody(Emit(g1, "):"), n);
  }

  /** `genDot`: the header followed by everything the tree emits. */
  function Generate(root: Node): (r: Outcome<string>)
    ensures r.Ok? ==> |r.value| >= |Header| && r.value[..|Header|] == Header
  {
    var g :- VisitNode(Init, root);
    Ok(Header + g.out)
  }

  /** The whole front end: parse the text, then generate. */
  function Compile(text: string): (r: Outcome<string>)
    ensures |text| == 0 ==> r == Err(Crashed(EmptySource))
    ensures r.Ok? ==> |r.value| >= |Header| && r.value[..|Header|] == Header
  {
    var root :- Parsing.Parse(text);
    Generate(root)
  }

  // Properties of the generator.

  /** A visit's outcome with the import list replaced. */
  function WithLibs(r: Outcome<Gen>, libs: seq<string>): Outcome<Gen> {
    if r.Ok? then Ok(r.value.(libs := libs)) else r
  }

  /** Filling a template with `Var` arguments never reads the import list. */
  lemma {:induction false} FillIgnoresLibs(g: Gen, libs: seq<string>, n: Node, pieces: seq<Piece>, i: nat)
    requires n.FunCall? && i <= |pieces| && AllVarsFrom(n.argsNodes, 0)
    ensures Fill(g.(libs := libs), n, pieces, i) == WithLibs(Fill(g, n, pieces, i), libs)
    decreases |pieces| - i
  {
    if i < |pieces| {
      match pieces[i]
      case Text(t) => FillIgnoresLibs(Emit(g, t), libs, n, pieces, i + 1);
      case Tabs => FillIgnoresLibs(Emit(g, Indent(g.tabs)), libs, n, pieces, i + 1);
      case Arg(k) =>
        if k < |n.argsNodes| {
          var a := n.argsNodes[k];
          assert a.Var?;
          var r := VisitNode(g, a);
          if r.Ok? {
            assert VisitNode(g.(libs := libs), a) == Ok(r.value.(libs := libs));
            FillIgnoresLibs(r.value, libs, n, pieces, i + 1);
          }
        }
    }
  }

  /** Checking and visiting a user call's `Var` arguments never reads the
      import list. */
  lemma {:induction false} UserArgsIgnoreLibs(g: Gen, libs: seq<string>, n: Node, i: nat)
    requires n.FunCall? && i <= |n.argsNodes| && AllVarsFrom(n.argsNodes, 0)
    ensures UserArgs(g.(libs := libs), n, i) == WithLibs(UserArgs(g, n, i), libs)
    decreases |n.argsNodes| - i
  {
    if i < |n.argsNodes| {
      var a := n.argsNodes[i];
      assert a.Var?;
      var r := VisitNode(g, a);
      if r.Ok? {
        assert VisitNode(g.(libs := libs), a) == Ok(r.value.(libs := libs));
        var next := if i + 1 < |n.argsNodes| then Emit(r.value, ", ") else r.value;
        UserArgsIgnoreLibs(next, libs, n, i + 1);
      }
    }
  }

  /** What `visit_Var` emits for a `Var` it accepts. */
  function VarText(v: Value): string {
    if IsSigilName(v) then v.s[1..] else "'" + Show(v) + "'"
  }

  /** `visit_Var` accepts `v`: a literal, or a sigil name declared in the
      current scope. */
  predicate VarDeclared(g: Gen, v: Value) {
    !IsSigilName(v) || (g.scope in g.memory && Str(v.s[1..]) in g.memory[g.scope])
  }

  /** A `Var` node is accepted exactly when its value is declared, and then
      emits its text and changes nothing else. */
  lemma VisitVarNode(g: Gen, v: Value, line: int)
    ensures VisitNode(g, Var(v, line)).Ok? <==> VarDeclared(g, v)
    ensures VarDeclared(g, v) ==> VisitNode(g, Var(v, line)) == Ok(Emit(g, VarText(v)))
  {
  }

  /** The argument at `j` of the user call `n` has, in the current scope,
      the type the callee declares for its parameter `j`. */
  predicate ArgTypeAgrees(g: Gen, n: Node, j: nat) {
    && n.FunCall? && j < |n.argsNodes| && n.argsNodes[j].Var?
    && n.funName in g.details && j < |g.details[n.funName].argTypes|
    && Unsigil(n.argsNodes[j].name).Ok?
    && DeclaredType(g, Unsigil(n.argsNodes[j].name).value) == Ok(g.details[n.funName].argTypes[j])
  }

  /** Every argument from `i` on has its parameter's type and is declared. */
  predicate ArgsAccepted(g: Gen, n: Node, i: nat) {
    n.FunCall? && forall j :: i <= j < |n.argsNodes| ==> ArgTypeAgrees(g, n, j) && VarDeclared(g, n.argsNodes[j].name)
  }

  /** The text the `Var` arguments from `i` on emit, with `, ` between
      neighbours. */
  function ArgsText(args: seq<Node>, i: nat): string
    decreases |args| - i
  {
    if i >= |args| then ""
    else
      (if args[i].Var? then VarText(args[i].name) else "")
      + (if i + 1 < |args| then ", " else "") + ArgsText(args, i + 1)
  }

  /** Emitting text changes none of the tables the argument check reads. */
  lemma EmitKeepsArgsAccepted(g: Gen, s: string, n: Node, i: nat)
    requires n.FunCall?
    ensures ArgsAccepted(Emit(g, s), n, i) <==> ArgsAccepted(g, n, i)
  {
    forall j | i <= j < |n.argsNodes|
      ensures ArgTypeAgrees(Emit(g, s), n, j) <==> ArgTypeAgrees(g, n, j)
    {
      if n.argsNodes[j].Var? && Unsigil(n.argsNodes[j].name).Ok? {
        assert DeclaredType(Emit(g, s), Unsigil(n.argsNodes[j].name).value)
            == DeclaredType(g, Unsigil(n.argsNodes[j].name).value);
      }
    }
  }

  /** A successful argument check means that every argument from `i` on has
      the declared type of its parameter and is itself declared. */
  lemma {:induction false} UserArgsTypesAgree(g: Gen, n: Node, i: nat)
    requires n.FunCall? && i <= |n.argsNodes| && AllVarsFrom(n.argsNodes, i) && UserArgs(g, n, i).Ok?
    ensures ArgsAccepted(g, n, i)
    decreases |n.argsNodes| - i
  {
    if i < |n.argsNodes| {
      var a := n.argsNodes[i];
      UserArgsHead(g, n, i);
      UserArgsStep(g, n, i);
      UserArgsTypesAgree(NextArg(g, n, i), n, i + 1);
      EmitKeepsArgsAccepted(g, VarText(a.name) + (if i + 1 < |n.argsNodes| then ", " else ""), n, i + 1);
    }
  }

  /** A check that gets past argument `i` found it accepted. */
  lemma UserArgsHead(g: Gen, n: Node, i: nat)
    requires n.FunCall? && i < |n.argsNodes| && n.argsNodes[i].Var? && UserArgs(g, n, i).Ok?
    ensures ArgTypeAgrees(g, n, i) && VarDeclared(g, n.argsNodes[i].name)
  {
    VisitVarNode(g, n.argsNodes[i].name, n.argsNodes[i].line);
  }

  /** The state after an accepted argument `i` and its separator. */
  function NextArg(g: Gen, n: Node, i: nat): Gen
    requires n.FunCall? && i < |n.argsNodes| && n.argsNodes[i].Var?
  {
    Emit(g, VarText(n.argsNodes[i].name) + (if i + 1 < |n.argsNodes| then ", " else ""))
  }

  /** An accepted argument is emitted with its separator, and the check goes
      on with the next one. */
  lemma UserArgsStep(g: Gen, n: Node, i: nat)
    requires n.FunCall? && i < |n.argsNodes| && ArgTypeAgrees(g, n, i) && VarDeclared(g, n.argsNodes[i].name)
    ensures UserArgs(g, n, i) == UserArgs(NextArg(g, n, i), n, i + 1)
  {
    var a := n.argsNodes[i];
    VisitVarNode(g, a.name, a.line);
    var g1 := Emit(g, VarText(a.name));
    var sep := if i + 1 < |n.argsNodes| then ", " else "";
    var next := if i + 1 < |n.argsNodes| then Emit(g1, ", ") else g1;
    assert UserArgs(g, n, i) == UserArgs(next, n, i + 1);
    if i + 1 < |n.argsNodes| {
      assert (g.out + VarText(a.name)) + sep == g.out + (VarText(a.name) + sep);
    } else {
      assert VarText(a.name) + sep == VarText(a.name);
    }
    assert next == NextArg(g, n, i);
  }

  /** Conversely, when every argument from `i` on is accepted the check
      succeeds, emitting the arguments' texts separated by `, `. */
  lemma {:induction false} UserArgsAccepts(g: Gen, n: Node, i: nat)
    requires n.FunCall? && i <= |n.argsNodes| && ArgsAccepted(g, n, i)
    ensures UserArgs(g, n, i) == Ok(Emit(g, ArgsText(n.argsNodes, i)))
    decreases |n.argsNodes| - i
  {
    if i < |n.argsNodes| {
      var a := n.argsNodes[i];
      assert ArgTypeAgrees(g, n, i) && VarDeclared(g, a.name);
      var sep := if i + 1 < |n.argsNodes| then ", " else "";
      UserArgsStep(g, n, i);
      EmitKeepsArgsAccepted(g, VarText(a.name) + sep, n, i + 1);
      UserArgsAccepts(NextArg(g, n, i), n, i + 1);
      EmitTwice(g, VarText(a.name) + sep, ArgsText(n.argsNodes, i + 1));
    } else {
      assert Emit(g, "") == g;
    }
  }

  /** Emitting two texts in turn emits their concatenation. */
  lemma EmitTwice(g: Gen, s: string, t: string)
    ensures Emit(Emit(g, s), t) == Emit(g, s + t)
  {
    assert g.out + s + t == g.out + (s + t);
  }

  /** The first argument whose declared type differs from its parameter's
      stops the check with `ArgTypeMismatch`, naming both types. */
  lemma {:induction false} UserArgsFirstMismatch(g: Gen, n: Node, i: nat, m: nat)
    requires n.FunCall? && i <= m < |n.argsNodes| && n.argsNodes[m].Var?
    requires forall j :: i <= j < m ==> ArgTypeAgrees(g, n, j) && VarDeclared(g, n.argsNodes[j].name)
    requires n.funName in g.details && m < |g.details[n.funName].argTypes|
    requires Unsigil(n.argsNodes[m].name).Ok? && DeclaredType(g, Unsigil(n.argsNodes[m].name).value).Ok?
    requires DeclaredType(g, Unsigil(n.argsNodes[m].name).value).value != g.details[n.funName].argTypes[m]
    ensures UserArgs(g, n, i) == Err(ArgTypeMismatch(n.funName, g.details[n.funName].argTypes[m],
                                     DeclaredType(g, Unsigil(n.argsNodes[m].name).value).value, n.line))
    decreases m - i
  {
    if i < m {
      var a := n.argsNodes[i];
      assert ArgTypeAgrees(g, n, i) && VarDeclared(g, a.name);
      VisitVarNode(g, a.name, a.line);
      var next := NextArg(g, n, i);
      UserArgsStep(g, n, i);
      forall j | i + 1 <= j < m
        ensures ArgTypeAgrees(next, n, j) && VarDeclared(next, n.argsNodes[j].name)
      {
        assert ArgTypeAgrees(g, n, j) && VarDeclared(g, n.argsNodes[j].name);
        assert DeclaredType(next, Unsigil(n.argsNodes[j].name).value) == DeclaredType(g, Unsigil(n.argsNodes[j].name).value);
      }
      assert DeclaredType(next, Unsigil(n.argsNodes[m].name).value) == DeclaredType(g, Unsigil(n.argsNodes[m].name).value);
      UserArgsFirstMismatch(next, n, i + 1, m);
    }
  }

  /** A user call with `Var` arguments succeeds only if the function is
      defined, the count matches, and every argument has its parameter's
      type and is declared. */
  lemma VisitUserCallTypesAgree(g: Gen, n: Node)
    requires n.FunCall? && AllVarsFrom(n.argsNodes, 0) && VisitUserCall(g, n).Ok?
    ensures n.funName in g.funcs && n.funName in g.details
    ensures |n.argsNodes| == g.details[n.funName].argCount && ArgsAccepted(g, n, 0)
  {
    var g0 := Emit(g, n.funName + "(");
    assert UserArgs(g0, n, 0).Ok?;
    UserArgsTypesAgree(g0, n, 0);
    EmitKeepsArgsAccepted(g, n.funName + "(", n, 0);
  }

  /** Conversely, such a call succeeds and emits `f(a, b)` and a line
      break, the arguments' texts separated by `, `. */
  lemma VisitUserCallEmits(g: Gen, n: Node)
    requires n.FunCall? && n.funName in g.funcs && n.funName in g.details
    requires |n.argsNodes| == g.details[n.funName].argCount && ArgsAccepted(g, n, 0)
    ensures VisitUserCall(g, n) == Ok(Emit(g, n.funName + "(" + ArgsText(n.argsNodes, 0) + ")\n"))
  {
    var g0 := Emit(g, n.funName + "(");
    EmitKeepsArgsAccepted(g, n.funName + "(", n, 0);
    UserArgsAccepts(g0, n, 0);
    EmitTwice(g, n.funName + "(", ArgsText(n.argsNodes, 0));
    EmitTwice(g, n.funName + "(" + ArgsText(n.argsNodes, 0), ")\n");
  }

  /** A defined user call of the right arity fails at its first argument
      whose declared type differs from its parameter's, naming both. */
  lemma VisitUserCallMismatch(g: Gen, n: Node, m: nat)
    requires n.FunCall? && n.funName in g.funcs && n.funName in g.details
    requires |n.argsNodes| == g.details[n.funName].argCount
    requires m < |n.argsNodes| && n.argsNodes[m].Var?
    requires forall j :: 0 <= j < m ==> ArgTypeAgrees(g, n, j) && VarDeclared(g, n.argsNodes[j].name)
    requires m < |g.details[n.funName].argTypes|
    requires Unsigil(n.argsNodes[m].name).Ok? && DeclaredType(g, Unsigil(n.argsNodes[m].name).value).Ok?
    requires DeclaredType(g, Unsigil(n.argsNodes[m].name).value).value != g.details[n.funName].argTypes[m]
    ensures VisitUserCall(g, n) == Err(ArgTypeMismatch(n.funName, g.details[n.funName].argTypes[m],
                                       DeclaredType(g, Unsigil(n.argsNodes[m].name).value).value, n.line))
  {
    var g0 := Emit(g, n.funName + "(");
    forall j | 0 <= j < m
      ensures ArgTypeAgrees(g0, n, j) && VarDeclared(g0, n.argsNodes[j].name)
    {
      assert ArgTypeAgrees(g, n, j);
      assert DeclaredType(g0, Unsigil(n.argsNodes[j].name).value) == DeclaredType(g, Unsigil(n.argsNodes[j].name).value);
    }
    assert DeclaredType(g0, Unsigil(n.argsNodes[m].name).value) == DeclaredType(g, Unsigil(n.argsNodes[m].name).value);
    UserArgsFirstMismatch(g0, n, 0, m);
  }

  /** What one template piece emits, given the call's arguments and the
      indentation. */
  function PieceText(p: Piece, args: seq<Node>, tabs: nat): string {
    match p
    case Text(s) => s
    case Tabs => Indent(tabs)
    case Arg(k) => if k < |args| && args[k].Var? then VarText(args[k].name) else ""
  }

  /** The text of a template from piece `i` on, pieces in order. */
  function Rendered(pieces: seq<Piece>, i: nat, args: seq<Node>, tabs: nat): string
    decreases |pieces| - i
  {
    if i >= |pieces| then "" else PieceText(pieces[i], args, tabs) + Rendered(pieces, i + 1, args, tabs)
  }

  /** The argument a piece names, if any, exists, is a `Var`, and is
      accepted by `visit_Var`. */
  predicate PieceAccepted(g: Gen, n: Node, p: Piece) {
    n.FunCall? && (p.Arg? ==>
      p.index < |n.argsNodes| && n.argsNodes[p.index].Var? && VarDeclared(g, n.argsNodes[p.index].name))
  }

  /** Every piece from `i` on is accepted. */
  predicate TemplateArgsDeclared(g: Gen, n: Node, pieces: seq<Piece>, i: nat) {
    forall j :: i <= j < |pieces| ==> PieceAccepted(g, n, pieces[j])
  }

  /** Emitting text changes no declaration. */
  lemma EmitKeepsTemplateArgs(g: Gen, s: string, n: Node, pieces: seq<Piece>, i: nat)
    ensures TemplateArgsDeclared(Emit(g, s), n, pieces, i) <==> TemplateArgsDeclared(g, n, pieces, i)
  {
    forall j | i <= j < |pieces|
      ensures PieceAccepted(Emit(g, s), n, pieces[j]) <==> PieceAccepted(g, n, pieces[j])
    {
    }
  }

  /** One piece of an accepted template emits its text and filling goes on
      with the next. */
  lemma FillStep(g: Gen, n: Node, pieces: seq<Piece>, i: nat)
    requires n.FunCall? && i < |pieces| && PieceAccepted(g, n, pieces[i])
    ensures Fill(g, n, pieces, i) == Fill(Emit(g, PieceText(pieces[i], n.argsNodes, g.tabs)), n, pieces, i + 1)
  {
    if pieces[i].Arg? {
      var a := n.argsNodes[pieces[i].index];
      VisitVarNode(g, a.name, a.line);
    }
  }

  /** A template whose arguments are all accepted fills in as the pieces'
      texts in order: fixed text, the indentation, and each named argument
      as `visit_Var` prints it. */
  lemma {:induction false} FillRenders(g: Gen, n: Node, pieces: seq<Piece>, i: nat)
    requires n.FunCall? && i <= |pieces| && TemplateArgsDeclared(g, n, pieces, i)
    ensures Fill(g, n, pieces, i) == Ok(Emit(g, Rendered(pieces, i, n.argsNodes, g.tabs)))
    decreases |pieces| - i
  {
    if i < |pieces| {
      var t := PieceText(pieces[i], n.argsNodes, g.tabs);
      assert PieceAccepted(g, n, pieces[i]);
      FillStep(g, n, pieces, i);
      EmitKeepsTemplateArgs(g, t, n, pieces, i + 1);
      FillRenders(Emit(g, t), n, pieces, i + 1);
      EmitTwice(g, t, Rendered(pieces, i + 1, n.argsNodes, g.tabs));
    } else {
      assert Emit(g, "") == g;
    }
  }

  /** Conversely, with `Var` arguments a template fills in only when every
      argument it names exists and is accepted. */
  lemma {:induction false} FillAccepted(g: Gen, n: Node, pieces: seq<Piece>, i: nat)
    requires n.FunCall? && i <= |pieces| && AllVarsFrom(n.argsNodes, 0) && Fill(g, n, pieces, i).Ok?
    ensures TemplateArgsDeclared(g, n, pieces, i)
    decreases |pieces| - i
  {
    if i < |pieces| {
      if pieces[i].Arg? {
        var a := n.argsNodes[pieces[i].index];
        VisitVarNode(g, a.name, a.line);
      }
      var t := PieceText(pieces[i], n.argsNodes, g.tabs);
      assert PieceAccepted(g, n, pieces[i]);
      FillStep(g, n, pieces, i);
      FillAccepted(Emit(g, t), n, pieces, i + 1);
      EmitKeepsTemplateArgs(g, t, n, pieces, i + 1);
    }
  }

  /** An imported library call with a template emits the template's
      rendering, provided every argument it names is accepted. */
  lemma LibraryCallRenders(g: Gen, c: Node, pieces: seq<Piece>)
    requires c.FunCall? && c.libName != ThisLib && c.libName in g.libs
    requires Template(c.libName, c.funName) == Some(pieces) && TemplateArgsDeclared(g, c, pieces, 0)
    ensures VisitFunCall(g, c) == Ok(Emit(g, Rendered(pieces, 0, c.argsNodes, g.tabs)))
  {
    FillRenders(g, c, pieces, 0);
  }

  /** Importing a library that is already imported changes no check: every
      call with `Var` arguments gives the same outcome as before. */
  lemma RepeatedImportChangesNoCall(g: Gen, lib: string, line: int, c: Node)
    requires lib in g.libs && c.FunCall? && AllVarsFrom(c.argsNodes, 0)
    ensures VisitNode(g, Library(lib, line)).Ok?
    ensures VisitFunCall(VisitNode(g, Library(lib, line)).value, c) == WithLibs(VisitFunCall(g, c), g.libs + [lib])
  {
    var h := VisitNode(g, Library(lib, line)).value;
    assert h == g.(libs := g.libs + [lib]);
    if c.libName == ThisLib {
      if c.funName in g.funcs && c.funName in g.details && |c.argsNodes| == g.details[c.funName].argCount {
        UserArgsIgnoreLibs(Emit(g, c.funName + "("), h.libs, c, 0);
      }
    } else if c.libName in g.libs && Template(c.libName, c.funName).Some? {
      FillIgnoresLibs(g, h.libs, c, Template(c.libName, c.funName).value, 0);
    }
  }

  /** `Stdio.out` prints its first argument on a new line at the current
      indentation. */
  lemma StdioOutPrints(g: Gen, c: Node, h: Gen)
    requires c.FunCall? && c.libName == "Stdio" && c.funName == "out" && "Stdio" in g.libs && |c.argsNodes| >= 1
    requires VisitNode(Emit(g, "\n" + Indent(g.tabs) + "print("), c.argsNodes[0]) == Ok(h)
    ensures VisitFunCall(g, c) == Ok(Emit(h, ")"))
  {
    var pieces := [Text("\n"), Tabs, Text("print("), Arg(0), Text(")")];
    assert Template(c.libName, c.funName) == Some(pieces);
    var g3 := Emit(Emit(Emit(g, "\n"), Indent(g.tabs)), "print(");
    assert g3 == Emit(g, "\n" + Indent(g.tabs) + "print(");
    assert Fill(Emit(h, ")"), c, pieces, 5) == Ok(Emit(h, ")"));
    assert Fill(h, c, pieces, 4) == Ok(Emit(h, ")"));
    assert VisitNode(g3, c.argsNodes[0]) == Ok(h);
    assert Fill(g3, c, pieces, 3) == Ok(Emit(h, ")"));
    assert Fill(Emit(Emit(g, "\n"), Indent(g.tabs)), c, pieces, 2) == Ok(Emit(h, ")"));
    assert Fill(Emit(g, "\n"), c, pieces, 1) == Ok(Emit(h, ")"));
  }

  /** A function's name is registered before its parameters and body are
      visited, so a call of the function from its own body, or from any
      state reached from there, passes the "defined" check. */
  lemma SelfCallPassesDefinedCheck(g: Gen, n: Node, h: Gen, c: Node)
    requires n.FunImpl? && c.FunCall? && c.libName == ThisLib && c.funName == n.funName
    requires AllVarsFrom(c.argsNodes, 0)
    requires Grows(Entered(g, n), h)
    ensures VisitFunCall(h, c).Err? ==> !VisitFunCall(h, c).error.UndefinedFunction?
  {
    var e := Entered(g, n);
    assert e.funcs == h.funcs[..|e.funcs|];
    assert n.funName in h.funcs;
  }

  /** Parameters never enter the type table, so passing a name that has no
      declared type in the current scope (a parameter, say) to a user
      function crashes on the lookup. */
  lemma UndeclaredArgumentCrashes(g: Gen, c: Node, p: string)
    requires Consistent(g) && c.FunCall? && c.libName == ThisLib && c.funName in g.funcs
    requires |c.argsNodes| >= 1 && c.argsNodes[0].Var? && c.argsNodes[0].name == Str("#" + p)
    requires c.funName in g.details && |c.argsNodes| == g.details[c.funName].argCount
    requires Str(p) !in g.scopes[g.scope]
    ensures VisitFunCall(g, c) == Err(Crashed(MissingKey(Str(p))))
  {
    var d := g.details[c.funName];
    assert d.argCount == |d.argTypes|;
    var g1 := Emit(g, c.funName + "(");
    assert ("#" + p)[1..] == p;
    assert DeclaredType(g1, p) == Err(Crashed(MissingKey(Str(p))));
    assert UserArgs(g1, c, 0) == Err(Crashed(MissingKey(Str(p))));
  }

  /** A declaration followed by an assignment fails as the assignment does
      in the state the declaration leaves. */
  lemma DeclarationThenAssignment(g: Gen, n: Node, g1: Gen, err: Error)
    requires n.Stmts? && |n.stmts| == 2 && n.stmts[0].VarDecl? && n.stmts[1].Assign?
    requires VisitVarDecl(Emit(g, Indent(g.tabs)), n.stmts[0]) == Ok(g1)
    requires VisitAssign(Emit(g1, Indent(g1.tabs)), n.stmts[1]) == Err(err)
    ensures VisitNode(g, n) == Err(err)
  {
    assert VisitStmts(g1, n, 1) == Err(err);
    assert VisitNode(Emit(g, Indent(g.tabs)), n.stmts[0]) == Ok(g1);
  }

  /** An assignment to a name without the sigil quotes the name and looks
      up its type under the name minus its first character. */
  lemma PlainTargetLooksUpTail(g: Gen, s: string, e: Node, l2: int, l4: int)
    requires |s| >= 1 && !IsSigilName(Str(s)) && g.scope in g.scopes && Str(s[1..]) !in g.scopes[g.scope]
    ensures VisitAssign(g, Assign(Var(Str(s), l2), Some(e), l4)) == Err(Crashed(MissingKey(Str(s[1..]))))
  {
    var g1 := Emit(g, "\n" + Indent(g.tabs));
    assert VisitNode(g1, Var(Str(s), l2)) == Ok(Emit(g1, "'" + s + "'"));
  }

  /** A declaration with an initializer, `TYPE s = e` with no sigil on `s`,
      records `s` verbatim but then assigns to the quoted text `'s'` and
      looks up the type of `s` without its first character. */
  lemma InitializedDeclarationLooksUpTail(g: Gen, t: string, s: string, e: Node, l1: int, l2: int, l3: int, l4: int, l5: int)
    requires Consistent(g) && |s| >= 1 && !IsSigilName(Str(s))
    requires Str(s) !in g.memory[g.scope] && Str(s[1..]) !in g.scopes[g.scope]
    ensures VisitNode(g, Stmts([VarDecl(Type(t, l1), Var(Str(s), l2), l3), Assign(Var(Str(s), l2), Some(e), l4)], l5))
            == Err(Crashed(MissingKey(Str(s[1..]))))
  {
    var n := Stmts([VarDecl(Type(t, l1), Var(Str(s), l2), l3), Assign(Var(Str(s), l2), Some(e), l4)], l5);
    var g1 := VisitVarDecl(Emit(g, Indent(g.tabs)), n.stmts[0]).value;
    assert Str(s[1..]) != Str(s);
    PlainTargetLooksUpTail(Emit(g1, Indent(g1.tabs)), s, e, l2, l4);
    DeclarationThenAssignment(g, n, g1, Crashed(MissingKey(Str(s[1..]))));
  }

  /** An assignment to `#s` requires `s` in the current scope's memory. */
  lemma SigilTargetUndefined(g: Gen, s: string, e: Node, l2: int, l4: int)
    requires |s| >= 1 && g.scope in g.memory && Str(s) !in g.memory[g.scope]
    ensures VisitAssign(g, Assign(Var(Str("#" + s), l2), Some(e), l4)) == Err(UndefinedVariable(s, g.scope, l2))
  {
    assert ("#" + s)[1..] == s;
    var g1 := Emit(g, "\n" + Indent(g.tabs));
    assert VisitNode(g1, Var(Str("#" + s), l2)) == Err(UndefinedVariable(s, g.scope, l2));
  }

  /** With the sigil, `TYPE #s = e` records `#s` but the assignment's
      target reads `s`, which nothing declared. */
  lemma SigilDeclarationUndefined(g: Gen, t: string, s: string, e: Node, l1: int, l2: int, l3: int, l4: int, l5: int)
    requires Consistent(g) && |s| >= 1
    requires Str("#" + s) !in g.memory[g.scope] && Str(s) !in g.memory[g.scope]
    ensures VisitNode(g, Stmts([VarDecl(Type(t, l1), Var(Str("#" + s), l2), l3), Assign(Var(Str("#" + s), l2), Some(e), l4)], l5))
            == Err(UndefinedVariable(s, g.scope, l2))
  {
    var n := Stmts([VarDecl(Type(t, l1), Var(Str("#" + s), l2), l3), Assign(Var(Str("#" + s), l2), Some(e), l4)], l5);
    var g1 := VisitVarDecl(Emit(g, Indent(g.tabs)), n.stmts[0]).value;
    assert Str(s) != Str("#" + s);
    SigilTargetUndefined(Emit(g1, Indent(g1.tabs)), s, e, l2, l4);
    DeclarationThenAssignment(g, n, g1, UndefinedVariable(s, g.scope, l2));
  }

  /** A function without a return statement carries the parser's
      placeholder `Var('')`, whose lookup fails: such a function never
      passes the return check. */
  lemma MissingReturnFails(g: Gen, n: Node)
    requires n.FunImpl? && n.retNode.Return? && n.retNode.varNode == Var(Str(""), n.retNode.varNode.line)
    requires g.scope in g.scopes && Str("") !in g.scopes[g.scope]
    ensures ReturnCheck(g, n).Err?
  {
    assert !ReturnTypesAgree(g, n);
  }
}
