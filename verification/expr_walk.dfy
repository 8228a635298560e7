/** The dual tree/expression traversal of expressions.py (and of its
    prototype ast-tests/ast_graph_expressions.py) as functions of the AST and
    of the traversal state it starts from, one per sink it writes to. The
    class in expr_script.dfy performs the single pass step by step and is
    proved to agree with both. */
module Transducer {
  import opened Util
  import opened Sinks
  import opened Ast
  import opened ExprClassify

  /** What parse_node(g, e, n, parent, role, color) appends to the tree
      graph when entered with counter c: `g` is the tree-graph object the
      node goes into and `active` says whether an expression is open. The
      node's children are numbered from c + 1 on and the node itself is
      added after them. */
  function TreeWalk(v: Variant, n: Node, g: Target, active: bool, parent: Option<nat>, role: string,
                    color: string, c: nat): seq<Op>
  {
    var id := c + 1;
    var cluster := TreeClusterStyle(v, n.kind);
    var sub := if cluster.Some? then Cluster(id) else g;
    (if cluster.Some? then [AddSubgraph(g, id, Caption(v, n.coord), cluster.value)] else []) +
    TreeWalkOf(v, n.children, sub, Joins(n.kind, active), id, Colour(n.kind, color), id) +
    NodeOps(g, id, TreeLabel(n), parent, role, Colour(n.kind, color), false, "", "", TreeStyle(v, n.kind, active))
  }

  /** What the loop over the children of node `id` appends to the tree
      graph, entered with counter c. */
  function TreeWalkOf(v: Variant, ks: Children, sub: Target, active: bool, id: nat, color: string,
                      c: nat): seq<Op>
  {
    match ks
    case Nil => []
    case Cons(role, m, rest) =>
      TreeWalk(v, m, sub, active, Some(id), role, color, c) + TreeWalkOf(v, rest, sub, active, id, color, c + Size(m))
  }

  /** What one parse_node call appends to the expression graph (and to its
      ordering subgraph), and where it leaves the ordering cursor order_id. */
  datatype Trace = Trace(ops: seq<Op>, cursor: Vertex)

  /** What parse_node(g, e, n, parent, role, color) appends to the
      expression graph when entered with counter c and order_id cur. `e` is
      the owner of the expression cluster that is active, None when no
      expression is open. */
  function ExprWalk(v: Variant, n: Node, e: Option<nat>, parent: Option<nat>, role: string, color: string,
                    c: nat, cur: Vertex): Trace
  {
    var id := c + 1;
    var k := n.kind;
    var opens := Opens(k, e.Some?);
    var inner := if !Joins(k, e.Some?) then None else if opens then Some(id) else e;
    var kids := ExprWalkOf(v, n.children, inner, id, Colour(k, color), id, if opens then Id(id) else cur);
    var open := if opens then [OrderEdge(cur, Id(id)), AddSubgraph(Main, id, Caption(v, n.coord), NoStyle)] else [];
    var own :=
      if inner.Some? then
        NodeOps(Cluster(inner.value), id, ExprLabel(k, TreeLabel(n), e.Some?), if opens then None else parent, "",
                Colour(k, color), Inverted(role), Shape(k), "back", ExprStyle(k, e.Some?))
      else [];
    Trace(open + own + kids.ops, kids.cursor)
  }

  /** The loop over the children of node `id`, entered with counter c and
      order_id cur. */
  function ExprWalkOf(v: Variant, ks: Children, e: Option<nat>, id: nat, color: string, c: nat, cur: Vertex): Trace
  {
    match ks
    case Nil => Trace([], cur)
    case Cons(role, m, rest) =>
      var first := ExprWalk(v, m, e, Some(id), role, color, c, cur);
      var more := ExprWalkOf(v, rest, e, id, color, c + Size(m), first.cursor);
      Trace(first.ops + more.ops, more.cursor)
  }

  function MarkerStyle(v: Variant): Style
  {
    if v.Tool? then Invis else Invisible
  }

  /** The expression graph before the walk: the two invisible markers that
      align the clusters vertically, the edge between them, and the ordering
      subgraph. */
  function Setup(v: Variant): seq<Op>
  {
    [AddNode(Main, Marker("rank1"), "", "", "", MarkerStyle(v)),
     AddNode(Main, Marker("rank2"), "", "", "", MarkerStyle(v)),
     AddEdge(Main, Marker("rank1"), Marker("rank2"), "", "", Invis),
     OpenOrdering]
  }

  /** After the walk: the 'end' marker and the last ordering edge into it. */
  function Teardown(v: Variant, cur: Vertex): seq<Op>
  {
    [AddNode(Main, Marker("end"), "", "", "", MarkerStyle(v)), OrderEdge(cur, Marker("end"))]
  }

  datatype Graphs = Graphs(tree: seq<Op>, expr: seq<Op>)

  /** The script body: set up both graphs, walk the AST from the root with
      counter 0 and cursor 'rank2', close the ordering chain. */
  function Transduce(v: Variant, ast: Node): Graphs
  {
    var x := ExprWalk(v, ast, None, None, "", "white", 0, Marker("rank2"));
    Graphs(TreeWalk(v, ast, Main, false, None, "", "white", 0), Setup(v) + x.ops + Teardown(v, x.cursor))
  }
}
