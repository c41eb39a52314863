/** The syntax tree (`interpreter/syntax_analysis/interpreter.py`): the
    seventeen node classes as one datatype, each carrying the line number it
    was built with, and `NodeVisitor.visit`'s dispatch on the class name.
    A child the parser may leave empty (Python's `None`) is an `Option`. */
module Ast {
  import opened Wrappers
  import opened Tokens
  import opened Diagnostics

  datatype Node =
    | Program(children: seq<Node>, line: int)
    | Library(lib: string, line: int)
    | FunImpl(funName: string, argsNode: Node, stmtsNode: Node, retNode: Node, line: int)
    | Return(typeNode: Node, varNode: Node, line: int)
    | FunCall(libName: string, funName: string, argsNodes: seq<Node>, line: int)
    | Cond(boolExpr: Node, stmtsNode: Node, line: int)
    | Loop(boolExpr: Node, stmtsNode: Node, line: int)
    | Type(typ: string, line: int)
    | Var(name: Value, line: int)
    | String(value: string, line: int)
    | VarDecl(typeNode: Node, varNode: Node, line: int)
    | Assign(varNode: Node, expr: Option<Node>, line: int)
    | Args(args: seq<Node>, line: int)
    | Stmts(stmts: seq<Node>, line: int)
    | BinOp(left: Option<Node>, op: Token, right: Option<Node>, line: int)
    | UnOp(token: Token, operand: Node, line: int)
    | Num(token: Token, line: int)
  {
    /** `Num.value` is its token's value. */
    function NumValue(): Value
      requires Num?
    {
      token.value
    }
  }

  /** `type(node).__name__`; an absent child is Python's `None`. */
  function ClassName(o: Option<Node>): string {
    match o
    case None => "NoneType"
    case Some(n) =>
      match n
      case Program(_, _) => "Program"
      case Library(_, _) => "Library"
      case FunImpl(_, _, _, _, _) => "FunImpl"
      case Return(_, _, _) => "Return"
      case FunCall(_, _, _, _) => "FunCall"
      case Cond(_, _, _) => "Cond"
      case Loop(_, _, _) => "Loop"
      case Type(_, _) => "Type"
      case Var(_, _) => "Var"
      case String(_, _) => "String"
      case VarDecl(_, _, _) => "VarDecl"
      case Assign(_, _, _) => "Assign"
      case Args(_, _) => "Args"
      case Stmts(_, _) => "Stmts"
      case BinOp(_, _, _, _) => "BinOp"
      case UnOp(_, _, _) => "UnOp"
      case Num(_, _) => "Num"
  }

  const NodeClasses: set<string> := {
    "Program", "Library", "FunImpl", "Return", "FunCall", "Cond", "Loop", "Type", "Var",
    "String", "VarDecl", "Assign", "Args", "Stmts", "BinOp", "UnOp", "Num"
  }

  /** The handler `visit` looks up for a node. */
  function HandlerName(o: Option<Node>): string {
    "visit_" + ClassName(o)
  }

  /** `NodeVisitor.visit`: the handler named after the node's class, or the
      "Not found" error when the visitor has none. */
  function Dispatch(handlers: set<string>, o: Option<Node>): (r: Outcome<string>)
    ensures r.Ok? <==> HandlerName(o) in handlers
    ensures r.Ok? ==> r.value == HandlerName(o)
    ensures r.Err? ==> r.error == NoHandler(ClassName(o))
  {
    if HandlerName(o) in handlers then Ok(HandlerName(o)) else Err(NoHandler(ClassName(o)))
  }

  /** A visitor that has a handler for each of the seventeen classes. */
  predicate HandlesAllClasses(handlers: set<string>) {
    forall c :: c in NodeClasses ==> "visit_" + c in handlers
  }

  /** The handler names of a visitor that defines one `visit_<class>` per
      class in `classes`. */
  function HandlersFor(classes: set<string>): set<string> {
    set c | c in classes :: "visit_" + c
  }

  /** A visitor with a handler for every node class, and possibly others,
      but none named after `NoneType`, handles all classes and not an empty
      slot. */
  lemma {:induction false} HandlersForNodeClasses(classes: set<string>)
    requires NodeClasses <= classes && "NoneType" !in classes
    ensures HandlesAllClasses(HandlersFor(classes))
    ensures "visit_NoneType" !in HandlersFor(classes)
  {
    forall c | "visit_" + c == "visit_NoneType"
      ensures c == "NoneType"
    {
      assert c == ("visit_" + c)[6..];
    }
  }

  /** Each node is routed to the handler of its own class; for a visitor
      with all seventeen handlers only an absent child is "Not found", unless
      the visitor also has a handler for `NoneType`. */
  lemma DispatchRoutes(handlers: set<string>, o: Option<Node>)
    requires HandlesAllClasses(handlers)
    ensures o.Some? ==> Dispatch(handlers, o) == Ok("visit_" + ClassName(o))
    ensures o.None? && "visit_NoneType" !in handlers ==> Dispatch(handlers, o) == Err(NoHandler("NoneType"))
  {
    if o.Some? {
      assert ClassName(o) in NodeClasses;
    } else {
      assert HandlerName(o) == "visit_NoneType";
    }
  }

  /** The child slots of a node, in the order both visitors walk them. */
  function Children(n: Node): seq<Option<Node>> {
    match n
    case Program(children, _) => Wrap(children)
    case FunImpl(_, a, s, r, _) => [Some(a), Some(s), Some(r)]
    case Return(t, v, _) => [Some(t), Some(v)]
    case FunCall(_, _, args, _) => Wrap(args)
    case Cond(b, s, _) => [Some(b), Some(s)]
    case Loop(b, s, _) => [Some(b), Some(s)]
    case VarDecl(t, v, _) => [Some(t), Some(v)]
    case Assign(v, e, _) => [Some(v), e]
    case Args(args, _) => Wrap(args)
    case Stmts(stmts, _) => Wrap(stmts)
    case BinOp(l, _, r, _) => [l, r]
    case UnOp(_, b, _) => [Some(b)]
    case _ => []
  }

  function Wrap(ns: seq<Node>): (r: seq<Option<Node>>)
    ensures |r| == |ns| && forall i {:trigger r[i]} :: 0 <= i < |ns| ==> r[i] == Some(ns[i])
  {
    if |ns| == 0 then [] else [Some(ns[0])] + Wrap(ns[1..])
  }

  /** The number of nodes in a tree; an empty slot counts as one. */
  function Size(n: Node): (r: nat)
    ensures r >= 1
    decreases n
  {
    match n
    case Program(children, _) => 1 + SizeAll(children)
    case FunImpl(_, a, s, r, _) => 1 + Size(a) + Size(s) + Size(r)
    case Return(t, v, _) => 1 + Size(t) + Size(v)
    case FunCall(_, _, args, _) => 1 + SizeAll(args)
    case Cond(b, s, _) => 1 + Size(b) + Size(s)
    case Loop(b, s, _) => 1 + Size(b) + Size(s)
    case VarDecl(t, v, _) => 1 + Size(t) + Size(v)
    case Assign(v, e, _) => 1 + Size(v) + SizeOpt(e)
    case Args(args, _) => 1 + SizeAll(args)
    case Stmts(stmts, _) => 1 + SizeAll(stmts)
    case BinOp(l, _, r, _) => 1 + SizeOpt(l) + SizeOpt(r)
    case UnOp(_, b, _) => 1 + Size(b)
    case _ => 1
  }

  function SizeOpt(o: Option<Node>): (r: nat)
    ensures r >= 1
    decreases o
  {
    match o
    case None => 1
    case Some(n) => Size(n)
  }

  function SizeAll(ns: seq<Node>): nat
    decreases ns
  {
    if |ns| == 0 then 0 else Size(ns[0]) + SizeAll(ns[1..])
  }

  function SlotsSize(cs: seq<Option<Node>>): nat {
    if |cs| == 0 then 0 else SizeOpt(cs[0]) + SlotsSize(cs[1..])
  }

  lemma {:induction false} SlotsSizeWrap(ns: seq<Node>)
    ensures SlotsSize(Wrap(ns)) == SizeAll(ns)
  {
    if |ns| > 0 {
      assert Wrap(ns)[1..] == Wrap(ns[1..]);
      SlotsSizeWrap(ns[1..]);
    }
  }

  /** A node is one more than its child slots. */
  lemma SizeOfChildren(n: Node)
    ensures Size(n) == 1 + SlotsSize(Children(n))
  {
    match n
    case Program(children, _) => SlotsSizeWrap(children);
    case FunCall(_, _, args, _) => SlotsSizeWrap(args);
    case Args(args, _) => SlotsSizeWrap(args);
    case Stmts(stmts, _) => SlotsSizeWrap(stmts);
    case FunImpl(_, a, s, r, _) =>
      TwoSlots(Some(s), Some(r));
      assert [Some(a), Some(s), Some(r)][1..] == [Some(s), Some(r)];
    case Return(t, v, _) => TwoSlots(Some(t), Some(v));
    case Cond(b, s, _) => TwoSlots(Some(b), Some(s));
    case Loop(b, s, _) => TwoSlots(Some(b), Some(s));
    case VarDecl(t, v, _) => TwoSlots(Some(t), Some(v));
    case Assign(v, e, _) => TwoSlots(Some(v), e);
    case BinOp(l, _, r, _) => TwoSlots(l, r);
    case UnOp(_, b, _) => assert [Some(b)][1..] == [];
    case _ =>
  }

  lemma TwoSlots(a: Option<Node>, b: Option<Node>)
    ensures SlotsSize([a, b]) == SizeOpt(a) + SizeOpt(b)
  {
    assert [a, b][1..] == [b];
    assert [b][1..] == [];
    assert SlotsSize([b]) == SizeOpt(b) + SlotsSize([]);
  }

  /** No child slot anywhere in the tree is empty. */
  predicate Complete(o: Option<Node>)
    decreases SizeOpt(o), 0
  {
    match o
    case None => false
    case Some(n) => SizeOfChildren(n); AllComplete(Children(n))
  }

  predicate AllComplete(cs: seq<Option<Node>>)
    decreases SlotsSize(cs), 1
  {
    |cs| == 0 || (Complete(cs[0]) && AllComplete(cs[1..]))
  }
}
