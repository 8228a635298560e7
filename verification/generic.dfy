/** The plain pre-order dump (ast-tests/ast_graph_generic.py): every AST
    node becomes a white, filled node of one graph as soon as it is reached,
    followed by its children in order, each hung from its parent by an edge
    labelled with its role. */
module GenericDump {
  import opened Util
  import opened Sinks
  import opened Ast
  import opened Traversal

  /** What parse_node(node, parent_id, edge_label) appends to the graph
      when entered with counter c: the node itself, then its children's
      subtrees. */
  function Walk(n: Node, parent: Option<nat>, role: string, c: nat): seq<Op>
  {
    NodeOps(Main, c + 1, TreeLabel(n), parent, role, "white", false, "", "", Filled) + WalkOf(n.children, c + 1, c + 1)
  }

  /** The loop over the children of node `id`, entered with counter c. */
  function WalkOf(ks: Children, id: nat, c: nat): seq<Op>
  {
    match ks
    case Nil => []
    case Cons(role, m, rest) => Walk(m, Some(id), role, c) + WalkOf(rest, id, c + Size(m))
  }

  /** The whole script: the walk from the root, with counter 0 and no parent. */
  function Dump(ast: Node): seq<Op>
  {
    Walk(ast, None, "", 0)
  }

  /** Every node went into the one graph, white, filled and of the default shape. */
  ghost predicate Plain(ns: seq<Placed>)
  {
    forall i :: 0 <= i < |ns| ==> ns[i].at == Main && ns[i].color == "white" && ns[i].shape == "" && ns[i].style == Filled
  }

  lemma PlainAppend(a: seq<Placed>, b: seq<Placed>)
    requires Plain(a) && Plain(b)
    ensures Plain(a + b)
  {
    forall i | 0 <= i < |a + b|
      ensures (a + b)[i].at == Main && (a + b)[i].color == "white" && (a + b)[i].shape == "" && (a + b)[i].style == Filled
    {
      if i < |a| { assert (a + b)[i] == a[i]; } else { assert (a + b)[i] == b[i - |a|]; }
    }
  }

  // ---- the walk against the reference orders ----

  /** Nodes are added in pre-order. */
  lemma {:induction false} WalkIds(n: Node, parent: Option<nat>, role: string, c: nat)
    ensures NodeIds(Walk(n, parent, role, c)) == PreOrder(n, c)
  {
    var own := NodeOps(Main, c + 1, TreeLabel(n), parent, role, "white", false, "", "", Filled);
    NodeOpsIds(Main, c + 1, TreeLabel(n), parent, role, "white", false, "", "", Filled);
    WalkOfIds(n.children, c + 1, c + 1);
    NodeIdsAppend(own, WalkOf(n.children, c + 1, c + 1));
  }

  lemma {:induction false} WalkOfIds(ks: Children, id: nat, c: nat)
    ensures NodeIds(WalkOf(ks, id, c)) == PreOrderOf(ks, c)
  {
    match ks
    case Nil =>
    case Cons(role, m, rest) =>
      WalkIds(m, Some(id), role, c);
      WalkOfIds(rest, id, c + Size(m));
      NodeIdsAppend(Walk(m, Some(id), role, c), WalkOf(rest, id, c + Size(m)));
  }

  /** Edges are drawn in pre-order, each from the parent to the child, labelled with the child's role. */
  lemma {:induction false} WalkArcs(n: Node, parent: Option<nat>, role: string, c: nat)
    ensures Arcs(Walk(n, parent, role, c)) == PreArcs(n, c, parent, role)
  {
    var own := NodeOps(Main, c + 1, TreeLabel(n), parent, role, "white", false, "", "", Filled);
    NodeOpsArcs(Main, c + 1, TreeLabel(n), parent, role, "white", false, "", "", Filled);
    WalkOfArcs(n.children, c + 1, c + 1);
    ArcsAppend(own, WalkOf(n.children, c + 1, c + 1));
  }

  lemma {:induction false} WalkOfArcs(ks: Children, id: nat, c: nat)
    ensures Arcs(WalkOf(ks, id, c)) == PreArcsOf(ks, c, id)
  {
    match ks
    case Nil =>
    case Cons(role, m, rest) =>
      WalkArcs(m, Some(id), role, c);
      WalkOfArcs(rest, id, c + Size(m));
      ArcsAppend(Walk(m, Some(id), role, c), WalkOf(rest, id, c + Size(m)));
  }

  /** Every node is white, filled, in the one graph, and labelled as the AST node its id names. */
  lemma {:induction false} WalkNodes(n: Node, parent: Option<nat>, role: string, c: nat)
    ensures var ns := Nodes(Walk(n, parent, role, c)); Plain(ns) && Labelled(ns, n, c)
  {
    var own := NodeOps(Main, c + 1, TreeLabel(n), parent, role, "white", false, "", "", Filled);
    var kids := WalkOf(n.children, c + 1, c + 1);
    NodeOpsNodes(Main, c + 1, TreeLabel(n), parent, role, "white", false, "", "", Filled);
    WalkOfNodes(n.children, c + 1, c + 1);
    NodesAppend(own, kids);
    LabelledUnder(Nodes(kids), n, c);
    assert Labelled(Nodes(own), n, c);
    PlainAppend(Nodes(own), Nodes(kids));
    LabelledAppend(Nodes(own), Nodes(kids), n, c);
  }

  lemma {:induction false} WalkOfNodes(ks: Children, id: nat, c: nat)
    ensures var ns := Nodes(WalkOf(ks, id, c)); Plain(ns) && LabelledOf(ns, ks, c)
  {
    match ks
    case Nil =>
    case Cons(role, m, rest) =>
      WalkNodes(m, Some(id), role, c);
      WalkOfNodes(rest, id, c + Size(m));
      WalkOfLabelled(role, m, rest, id, c);
  }

  /** The first child's walk and the later children's, seen from the whole list. */
  lemma WalkOfLabelled(role: string, m: Node, rest: Children, id: nat, c: nat)
    ensures var first, more := Nodes(Walk(m, Some(id), role, c)), Nodes(WalkOf(rest, id, c + Size(m)));
      var ns, ks := Nodes(WalkOf(Cons(role, m, rest), id, c)), Cons(role, m, rest);
      Plain(first) && Labelled(first, m, c) && Plain(more) && LabelledOf(more, rest, c + Size(m)) ==>
      Plain(ns) && LabelledOf(ns, ks, c)
  {
    var first, more := Walk(m, Some(id), role, c), WalkOf(rest, id, c + Size(m));
    var ks := Cons(role, m, rest);
    if Plain(Nodes(first)) && Labelled(Nodes(first), m, c) && Plain(Nodes(more)) && LabelledOf(Nodes(more), rest, c + Size(m)) {
      assert WalkOf(ks, id, c) == first + more;
      NodesAppend(first, more);
      LabelledFirst(Nodes(first), ks, c);
      LabelledRest(Nodes(more), ks, c);
      PlainAppend(Nodes(first), Nodes(more));
      LabelledOfAppend(Nodes(first), Nodes(more), ks, c);
    }
  }

  // ---- what the script draws ----

  /** The i-th node added has id i + 1: one node per AST node, numbered
      1, 2, 3, ... in the order they are added; each is white, filled, in
      the one graph, and labelled as the AST node that id names. */
  lemma DumpNodes(ast: Node)
    ensures var ns := Nodes(Dump(ast));
      NodeIds(Dump(ast)) == Iota(0, Size(ast)) && |ns| == Size(ast) &&
      (forall i :: 0 <= i < |ns| ==> ns[i].id == i + 1) && Plain(ns) && Labelled(ns, ast, 0)
  {
    WalkIds(ast, None, "", 0);
    PreOrderIsIota(ast, 0);
    NodesIds(Dump(ast));
    WalkNodes(ast, None, "", 0);
  }

  /** One edge into every node but the root, taken in the order the nodes
      are numbered; each runs from a smaller id to a larger one, carries no
      direction attribute, and the root has no edge. The edges are those of
      the post-order dumps, drawn in another order. */
  lemma DumpEdges(ast: Node)
    ensures var arcs := Arcs(Dump(ast));
      Heads(arcs) == Iota(1, Size(ast) - 1) && Downward(arcs, 0, Size(ast), None, "") &&
      multiset(arcs) == multiset(TreeArcs(ast, 0, None, ""))
  {
    WalkArcs(ast, None, "", 0);
    PreArcsIota(ast);
    PreArcsDownward(ast, 0, None, "");
    SameArcs(ast, 0, None, "");
  }

  /** From the root, the pre-order edges lead into 2, 3, ..., Size(ast) in turn. */
  lemma PreArcsIota(ast: Node)
    ensures Heads(PreArcs(ast, 0, None, "")) == Iota(1, Size(ast) - 1)
  {
    PreArcsHeads(ast, 0, None, "");
    PreOrderOfIsIota(ast.children, 1);
    assert Size(ast) - 1 == SizeOf(ast.children);
  }

  /** The pre-order and the post-order walks draw the same edges. */
  lemma {:induction false} SameArcs(n: Node, c: nat, parent: Option<nat>, role: string)
    ensures multiset(PreArcs(n, c, parent, role)) == multiset(TreeArcs(n, c, parent, role))
  {
    SameArcsOf(n.children, c + 1, c + 1);
  }

  lemma {:induction false} SameArcsOf(ks: Children, c: nat, id: nat)
    ensures multiset(PreArcsOf(ks, c, id)) == multiset(TreeArcsOf(ks, c, id))
  {
    match ks
    case Nil =>
    case Cons(role, m, rest) =>
      SameArcs(m, c, Some(id), role);
      SameArcsOf(rest, c + Size(m), id);
  }

  /** The script's state: the counter and the graph, as the log of the
      calls made on it. */
  class Script {
    var counter: nat
    var graph: seq<Op>

    constructor ()
      ensures counter == 0 && graph == []
    {
      counter := 0;
      graph := [];
    }

    /** add_node: a filled node, then the edge from its parent, if it has one. */
    method AddNode(id: nat, text: string, parent: Option<nat>, edgeLabel: string, color: string)
      modifies this
      ensures graph == old(graph) + NodeOps(Main, id, text, parent, edgeLabel, color, false, "", "", Filled)
      ensures counter == old(counter)
    {
      graph := graph + [Op.AddNode(Main, Id(id), text, color, "", Filled)];
      if parent.Some? {
        graph := graph + [AddEdge(Main, Id(parent.value), Id(id), edgeLabel, "", NoStyle)];
      }
    }

    /** parse_node: take the next counter value, add the node, then parse the
        children in order under it. */
    method ParseNode(n: Node, parent: Option<nat>, role: string)
      modifies this
      ensures counter == old(counter) + Size(n)
      ensures graph == old(graph) + Walk(n, parent, role, old(counter))
      decreases Size(n), 0
    {
      counter := counter + 1;
      var id := counter;
      var text := Label(n);
      AddNode(id, text, parent, role, "white");
      ghost var added := graph;
      var ks := n.children;
      while ks.Cons?
        invariant id <= counter && counter + SizeOf(ks) == id + SizeOf(n.children)
        invariant graph + WalkOf(ks, id, counter) == added + WalkOf(n.children, id, id)
        decreases ks
      {
        ghost var before, c := graph, counter;
        ParseNode(ks.node, Some(id), ks.role);
        Step(before, graph, Walk(ks.node, Some(id), ks.role, c), WalkOf(ks.rest, id, counter), WalkOf(ks, id, c));
        ks := ks.rest;
      }
      assert graph == added + WalkOf(n.children, id, id);
    }
  }

  /** The script body: parse the AST from the root with counter 0. */
  method Run(ast: Node) returns (log: seq<Op>)
    ensures log == Dump(ast)
  {
    var s := new Script();
    s.ParseNode(ast, None, "");
    log := s.graph;
  }
}
