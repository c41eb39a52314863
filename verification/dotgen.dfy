/** The DOT exporter (`getastdot.py`): a pre-order walk that gives every
    node the next number of a counter starting at 1, emits one line
    declaring the node, and after each child's subtree one edge line from
    the node to that child. It checks nothing; the only failure is an empty
    child slot, which has no handler. */
module DotGen {
  import opened Wrappers
  import opened Tokens
  import opened Chars
  import opened Diagnostics
  import opened Ast
  import Parsing

  /** One line of the graph body: the declaration of a node, captioned by
      its `Label` when rendered, or an edge. */
  datatype DotLine = NodeLine(id: nat, node: Node) | EdgeLine(parent: nat, child: nat)

  /** The lines a walk emitted and the counter after it (`nodecount`). */
  datatype Drawing = Drawing(lines: seq<DotLine>, next: nat)

  /** The dedented graph header. */
  const DotHeader: string :=
    "\ndigraph astgraph {\n    node [shape=box, fontsize=12, fontname=\"Courier\", height=.1];\n    ranksep=.3;   \n    edge [arrowsize=.5]\n"

  /** The number the first visited node receives. */
  const FirstId: nat := 1

  /** The text inside a node's `label="..."`. */
  function Label(n: Node): string {
    match n
    case Program(_, _) => "Program"
    case Library(lib, _) => "Library: " + lib
    case FunImpl(name, _, _, _, _) => "FunImpl: " + name
    case Return(_, _, _) => "Return"
    case FunCall(lib, fun, _, _) => "FunCall: " + lib + " " + fun
    case Cond(_, _, _) => "Cond"
    case Loop(_, _, _) => "Loop"
    case Type(typ, _) => "Type: " + typ
    case Var(name, _) => "Var: " + Show(name)
    case String(value, _) => "String: " + value
    case VarDecl(_, _, _) => "VarDecl"
    case Assign(_, _, _) => "Assign"
    case Args(_, _) => "Args"
    case Stmts(_, _) => "Stmts"
    case BinOp(_, op, _, _) => TokenText(op)
    case UnOp(token, _, _) => KindName(token.kind)
    case Num(token, _) => Show(token.value)
  }

  function Render(l: DotLine): string {
    match l
    case NodeLine(id, node) => "node" + NatToString(id) + " [label=\"" + Label(node) + "\"]\n"
    case EdgeLine(p, c) => "node" + NatToString(p) + " -> node" + NatToString(c) + "\n"
  }

  /** The body lines joined in emission order. */
  function Body(lines: seq<DotLine>): string {
    if |lines| == 0 then "" else Render(lines[0]) + Body(lines[1..])
  }

  /** `visit` on a child slot: the node's own line numbered `next`, then its
      child slots. */
  function Walk(o: Option<Node>, next: nat): (r: Outcome<Drawing>)
    ensures r.Ok? <==> Complete(o)
    ensures r.Ok? ==> r.value.next == next + SizeOpt(o)
    ensures r.Ok? ==> |r.value.lines| > 0 && r.value.lines[0].NodeLine? && r.value.lines[0].id == next
    ensures r.Err? ==> r.error == NoHandler("NoneType")
    decreases SizeOpt(o), 0
  {
    match o
    case None => Err(NoHandler(ClassName(None)))
    case Some(n) =>
      SizeOfChildren(n);
      var rest :- WalkSlots(next, Children(n), next + 1);
      Ok(Drawing([NodeLine(next, n)] + rest.lines, rest.next))
  }

  /** The handlers the DOT exporter defines: one per node class, and one for
      `FunDecl`, a class the parser never builds. */
  const Handlers: set<string> := HandlersFor(NodeClasses + {"FunDecl"})

  /** `visit` as the exporter runs it: `Walk` fails at the root exactly where
      the handler lookup does, with its error; a present node reaches the
      handler of its class, which fails only on an empty slot below it. */
  lemma WalkDispatches(o: Option<Node>, next: nat)
    ensures Dispatch(Handlers, o).Err? <==> o.None?
    ensures Dispatch(Handlers, o).Err? ==> Walk(o, next) == Err(Dispatch(Handlers, o).error)
    ensures Dispatch(Handlers, o).Ok? ==>
      Dispatch(Handlers, o).value == "visit_" + ClassName(o) &&
      (Walk(o, next).Ok? <==> AllComplete(Children(o.value)))
  {
    HandlersForNodeClasses(NodeClasses + {"FunDecl"});
    DispatchRoutes(Handlers, o);
  }

  /** The child slots of node `parent` in order: each child's subtree,
      then the edge from the parent to the child's number. */
  function WalkSlots(parent: nat, cs: seq<Option<Node>>, next: nat): (r: Outcome<Drawing>)
    ensures r.Ok? <==> AllComplete(cs)
    ensures r.Ok? ==> r.value.next == next + SlotsSize(cs)
    ensures r.Err? ==> r.error == NoHandler("NoneType")
    decreases SlotsSize(cs), 1
  {
    if |cs| == 0 then Ok(Drawing([], next))
    else
      var first :- Walk(cs[0], next);
      var rest :- WalkSlots(parent, cs[1..], first.next);
      Ok(Drawing(first.lines + [EdgeLine(parent, next)] + rest.lines, rest.next))
  }

  /** `genDot`: header, body lines, closing brace. */
  function Export(root: Node): (r: Outcome<string>)
    ensures r.Ok? <==> Complete(Some(root))
    ensures r.Err? ==> r.error == NoHandler("NoneType")
    ensures r.Ok? ==> r.value == DotHeader + Body(Walk(Some(root), FirstId).value.lines) + "}"
  {
    var d :- Walk(Some(root), FirstId);
    Ok(DotHeader + Body(d.lines) + "}")
  }

  /** The whole front end: parse the text, then draw the tree. */
  function ExportText(text: string): (r: Outcome<string>)
    ensures |text| == 0 ==> r == Err(Crashed(EmptySource))
  {
    var root :- Parsing.Parse(text);
    Export(root)
  }

  // Numbering.

  /** The numbers `a`, `a + 1`, ..., `b - 1`. */
  function Range(a: nat, b: nat): (r: seq<nat>)
    requires a <= b
    ensures |r| == b - a
    decreases b - a
  {
    if a == b then [] else [a] + Range(a + 1, b)
  }

  /** The numbers of the node lines, in emission order. */
  function NodeIds(lines: seq<DotLine>): seq<nat> {
    if |lines| == 0 then []
    else (if lines[0].NodeLine? then [lines[0].id] else []) + NodeIds(lines[1..])
  }

  function EdgeCount(lines: seq<DotLine>): nat {
    if |lines| == 0 then 0 else (if lines[0].EdgeLine? then 1 else 0) + EdgeCount(lines[1..])
  }

  /** Every edge goes from a smaller number to a larger one, both in `[lo, hi)`. */
  predicate EdgesWithin(lines: seq<DotLine>, lo: nat, hi: nat) {
    forall i :: 0 <= i < |lines| && lines[i].EdgeLine? ==>
      lo <= lines[i].parent < lines[i].child < hi
  }

  lemma {:induction false} SplitLines(a: seq<DotLine>, b: seq<DotLine>)
    ensures NodeIds(a + b) == NodeIds(a) + NodeIds(b)
    ensures EdgeCount(a + b) == EdgeCount(a) + EdgeCount(b)
  {
    if |a| > 0 {
      assert (a + b)[1..] == a[1..] + b;
      SplitLines(a[1..], b);
    } else {
      assert a + b == b;
    }
  }

  /** A node's drawing: its own line, then its slots' drawing. */
  lemma WalkNode(o: Option<Node>, next: nat)
    requires Complete(o)
    ensures SizeOpt(o) == 1 + SlotsSize(Children(o.value))
    ensures WalkSlots(next, Children(o.value), next + 1).Ok?
    ensures Walk(o, next).value.lines[1..] == WalkSlots(next, Children(o.value), next + 1).value.lines
  {
    SizeOfChildren(o.value);
  }

  /** Non-empty slots: the first subtree, its edge, then the other slots. */
  lemma WalkSlotsCons(parent: nat, cs: seq<Option<Node>>, next: nat)
    requires AllComplete(cs) && |cs| > 0
    ensures Walk(cs[0], next).Ok?
    ensures var first := Walk(cs[0], next).value;
      && WalkSlots(parent, cs[1..], first.next).Ok?
      && WalkSlots(parent, cs, next).value.lines
         == first.lines + [EdgeLine(parent, next)] + WalkSlots(parent, cs[1..], first.next).value.lines
  {
  }

  /** A node's walk numbers its subtree consecutively in pre-order,
      starting with its own number. */
  lemma {:induction false} WalkIds(o: Option<Node>, next: nat)
    requires Complete(o)
    ensures NodeIds(Walk(o, next).value.lines) == Range(next, next + SizeOpt(o))
    decreases SizeOpt(o), 0
  {
    var n := o.value;
    WalkNode(o, next);
    SlotsIds(next, Children(n), next + 1);
    var lines := Walk(o, next).value.lines;
    assert NodeIds(lines) == [next] + NodeIds(lines[1..]);
    assert Range(next, next + SizeOpt(o)) == [next] + Range(next + 1, next + SizeOpt(o));
  }

  /** The slots' subtrees are numbered consecutively from `next`. */
  lemma {:induction false} SlotsIds(parent: nat, cs: seq<Option<Node>>, next: nat)
    requires AllComplete(cs)
    ensures NodeIds(WalkSlots(parent, cs, next).value.lines) == Range(next, next + SlotsSize(cs))
    decreases SlotsSize(cs), 1
  {
    if |cs| > 0 {
      var first := Walk(cs[0], next).value;
      var rest := WalkSlots(parent, cs[1..], first.next).value;
      WalkSlotsCons(parent, cs, next);
      WalkIds(cs[0], next);
      SlotsIds(parent, cs[1..], first.next);
      assert next + SlotsSize(cs) == first.next + SlotsSize(cs[1..]);
      JoinIds(first.lines, EdgeLine(parent, next), rest.lines, next, first.next, next + SlotsSize(cs));
    }
  }

  /** Two consecutive numberings joined by an edge line form one numbering. */
  lemma JoinIds(a: seq<DotLine>, edge: DotLine, b: seq<DotLine>, lo: nat, mid: nat, hi: nat)
    requires edge.EdgeLine? && lo <= mid <= hi
    requires NodeIds(a) == Range(lo, mid) && NodeIds(b) == Range(mid, hi)
    ensures NodeIds(a + [edge] + b) == Range(lo, hi)
  {
    SplitLines(a, [edge]);
    SplitLines(a + [edge], b);
    assert NodeIds([edge]) == [];
    RangeSplit(lo, mid, hi);
  }

  /** A node's walk draws one edge fewer than its subtree has nodes. */
  lemma {:induction false} WalkEdges(o: Option<Node>, next: nat)
    requires Complete(o)
    ensures EdgeCount(Walk(o, next).value.lines) == SizeOpt(o) - 1
    decreases SizeOpt(o), 0
  {
    var n := o.value;
    WalkNode(o, next);
    SlotsEdges(next, Children(n), next + 1);
    var lines := Walk(o, next).value.lines;
    assert EdgeCount(lines) == EdgeCount(lines[1..]);
  }

  /** The slots draw one edge per node they hold. */
  lemma {:induction false} SlotsEdges(parent: nat, cs: seq<Option<Node>>, next: nat)
    requires AllComplete(cs)
    ensures EdgeCount(WalkSlots(parent, cs, next).value.lines) == SlotsSize(cs)
    decreases SlotsSize(cs), 1
  {
    if |cs| > 0 {
      var first := Walk(cs[0], next).value;
      var rest := WalkSlots(parent, cs[1..], first.next).value;
      WalkSlotsCons(parent, cs, next);
      WalkEdges(cs[0], next);
      SlotsEdges(parent, cs[1..], first.next);
      var mid := first.lines + [EdgeLine(parent, next)];
      SplitLines(first.lines, [EdgeLine(parent, next)]);
      SplitLines(mid, rest.lines);
      assert EdgeCount([EdgeLine(parent, next)]) == 1;
    }
  }

  /** Every edge of a node's walk goes from a node of the subtree to a
      later-numbered node of the subtree. */
  lemma {:induction false} WalkEdgesForward(o: Option<Node>, next: nat)
    requires Complete(o)
    ensures EdgesWithin(Walk(o, next).value.lines, next, next + SizeOpt(o))
    decreases SizeOpt(o), 0
  {
    var n := o.value;
    WalkNode(o, next);
    SlotsEdgesForward(next, Children(n), next + 1);
    EdgesWithinTail(Walk(o, next).value.lines, next, next + SizeOpt(o));
  }

  /** Every edge of the slots leaves `parent` or a node inside the slots and
      enters a later-numbered node inside them. */
  lemma {:induction false} SlotsEdgesForward(parent: nat, cs: seq<Option<Node>>, next: nat)
    requires AllComplete(cs) && parent < next
    ensures EdgesWithin(WalkSlots(parent, cs, next).value.lines, parent, next + SlotsSize(cs))
    decreases SlotsSize(cs), 1
  {
    if |cs| > 0 {
      var first := Walk(cs[0], next).value;
      var rest := WalkSlots(parent, cs[1..], first.next).value;
      WalkSlotsCons(parent, cs, next);
      WalkEdgesForward(cs[0], next);
      SlotsEdgesForward(parent, cs[1..], first.next);
      assert next + SlotsSize(cs) == first.next + SlotsSize(cs[1..]);
      JoinEdgesWithin(first.lines, rest.lines, parent, next, first.next, next + SlotsSize(cs));
    }
  }

  /** A node line in front of lines keeps their edges within bounds. */
  lemma EdgesWithinTail(lines: seq<DotLine>, lo: nat, hi: nat)
    requires |lines| > 0 && lines[0].NodeLine? && EdgesWithin(lines[1..], lo, hi)
    ensures EdgesWithin(lines, lo, hi)
  {
    forall i | 0 <= i < |lines| && lines[i].EdgeLine?
      ensures lo <= lines[i].parent < lines[i].child < hi
    {
      assert lines[i] == lines[1..][i - 1];
    }
  }

  /** A subtree's lines, the edge from `parent` to the subtree's root, and
      the remaining slots' lines keep every edge within the slots' bounds. */
  lemma JoinEdgesWithin(a: seq<DotLine>, b: seq<DotLine>, parent: nat, lo: nat, mid: nat, hi: nat)
    requires parent < lo < mid <= hi
    requires EdgesWithin(a, lo, mid) && EdgesWithin(b, parent, hi)
    ensures EdgesWithin(a + [EdgeLine(parent, lo)] + b, parent, hi)
  {
    var lines := a + [EdgeLine(parent, lo)] + b;
    forall i | 0 <= i < |lines| && lines[i].EdgeLine?
      ensures parent <= lines[i].parent < lines[i].child < hi
    {
      if i < |a| {
        assert lines[i] == a[i];
      } else if i > |a| {
        assert lines[i] == b[i - |a| - 1];
      }
    }
  }

  lemma {:induction false} RangeSplit(a: nat, b: nat, c: nat)
    requires a <= b <= c
    ensures Range(a, b) + Range(b, c) == Range(a, c)
    decreases b - a
  {
    if a < b {
      RangeSplit(a + 1, b, c);
      assert Range(a, b) + Range(b, c) == [a] + (Range(a + 1, b) + Range(b, c));
    }
  }

  /** `Range` lists its numbers in increasing order, without gaps. */
  lemma {:induction false} RangeAt(a: nat, b: nat, i: nat)
    requires a <= b && i < b - a
    ensures Range(a, b)[i] == a + i
    decreases b - a
  {
    if i > 0 {
      RangeAt(a + 1, b, i - 1);
    }
  }

  /** Every number of a range sits at its offset from the start. */
  lemma RangeIndices(a: nat, b: nat)
    requires a <= b
    ensures forall i :: 0 <= i < b - a ==> Range(a, b)[i] == a + i
  {
    forall i | 0 <= i < b - a
      ensures Range(a, b)[i] == a + i
    {
      RangeAt(a, b, i);
    }
  }

  /** The exported graph declares the nodes in pre-order numbered `1`,
      `2`, ..., one per node (so the numbers are distinct and rise in
      emission order, see `RangeIndices`), draws one edge fewer than there
      are nodes, and every edge goes from a node to a later-numbered one. */
  lemma ExportNumbering(root: Node)
    requires Complete(Some(root))
    ensures var lines := Walk(Some(root), FirstId).value.lines;
      var count := SizeOpt(Some(root));
      && NodeIds(lines) == Range(FirstId, FirstId + count)
      && EdgeCount(lines) == count - 1
      && EdgesWithin(lines, FirstId, FirstId + count)
  {
    WalkIds(Some(root), FirstId);
    WalkEdges(Some(root), FirstId);
    WalkEdgesForward(Some(root), FirstId);
  }
}
