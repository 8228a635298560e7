/** The expression-extracting script step by step (expressions.py, and its
    prototype ast-tests/ast_graph_expressions.py): its module-level state
    (the counter, order_id and the two graphs), add_node, add_order and the
    recursive parse_node, each proved to append what the walk functions of
    the Transducer module describe. */
module ExprScript {
  import opened Util
  import opened Sinks
  import opened Ast
  import opened ExprClassify
  import opened Transducer

  /** A graph object add_node can be handed: the AST graph or one of its
      clusters, or the expression graph or one of its clusters. */
  datatype Canvas = TreeCanvas(at: Target) | ExprCanvas(at: Target)

  /** The script's globals: `counter`, `order_id`, and the AST graph and the
      expression graph as the logs of the calls made on them. */
  class Script {
    const variant: Variant
    var counter: nat
    var orderId: Vertex
    var tree: seq<Op>
    var expr: seq<Op>

    /** Create both graphs, add the two alignment markers and the edge
        between them, open the ordering subgraph, start order_id at 'rank2'
        and the counter at 0. */
    constructor (v: Variant)
      ensures variant == v && counter == 0 && orderId == Marker("rank2")
      ensures tree == [] && expr == Setup(v)
    {
      variant := v;
      tree := [];
      expr := [Op.AddNode(Main, Marker("rank1"), "", "", "", MarkerStyle(v))];
      expr := expr + [Op.AddNode(Main, Marker("rank2"), "", "", "", MarkerStyle(v))];
      expr := expr + [AddEdge(Main, Marker("rank1"), Marker("rank2"), "", "", Invis)];
      expr := expr + [OpenOrdering];
      orderId := Marker("rank2");
      counter := 0;
    }

    /** Append one call record to the graph the canvas belongs to. */
    method Emit(canvas: Canvas, op: Op)
      modifies this
      ensures canvas.TreeCanvas? ==> tree == old(tree) + [op] && expr == old(expr)
      ensures canvas.ExprCanvas? ==> expr == old(expr) + [op] && tree == old(tree)
      ensures counter == old(counter) && orderId == old(orderId)
    {
      if canvas.TreeCanvas? {
        tree := tree + [op];
      } else {
        expr := expr + [op];
      }
    }

    /** add_node: the node, then the edge to or from its parent, if it has one. */
    method AddNode(canvas: Canvas, id: nat, text: string, parent: Option<nat>, edgeLabel: string, color: string,
                   invert: bool, shape: string, dir: string, style: Style)
      modifies this
      ensures var ops := NodeOps(canvas.at, id, text, parent, edgeLabel, color, invert, shape, dir, style);
        (canvas.TreeCanvas? ==> tree == old(tree) + ops && expr == old(expr)) &&
        (canvas.ExprCanvas? ==> expr == old(expr) + ops && tree == old(tree))
      ensures counter == old(counter) && orderId == old(orderId)
    {
      Emit(canvas, Op.AddNode(canvas.at, Id(id), text, color, shape, style));
      if parent.Some? {
        if invert {
          Emit(canvas, AddEdge(canvas.at, Id(id), Id(parent.value), edgeLabel, dir, NoStyle));
        } else {
          Emit(canvas, AddEdge(canvas.at, Id(parent.value), Id(id), edgeLabel, dir, NoStyle));
        }
      }
    }

    /** add_order: an invisible ordering edge from order_id to the node, which becomes order_id. */
    method AddOrder(id: nat)
      modifies this
      ensures expr == old(expr) + [OrderEdge(old(orderId), Id(id))] && orderId == Id(id)
      ensures tree == old(tree) && counter == old(counter)
    {
      expr := expr + [OrderEdge(orderId, Id(id))];
      orderId := Id(id);
    }

    /** parse_node(graph, expression, node, parent_id, edge_label, color):
        `g` is the AST-graph object the node goes into and `e` the owner of
        the active expression cluster, None when no expression is open. The
        node takes the next counter value; its subtree's nodes take the
        following ones. */
    method ParseNode(g: Target, e: Option<nat>, n: Node, parent: Option<nat>, role: string, color: string)
      modifies this
      ensures counter == old(counter) + Size(n)
      ensures tree == old(tree) + TreeWalk(variant, n, g, e.Some?, parent, role, color, old(counter))
      ensures var x := ExprWalk(variant, n, e, parent, role, color, old(counter), old(orderId));
        expr == old(expr) + x.ops && orderId == x.cursor
      decreases Size(n), 0
    {
      counter := counter + 1;
      var id := counter;
      var text := Label(n);
      var d := Decide(variant, n.kind, text, role, e.Some?, color);
      var caption := Caption(variant, n.coord);
      ghost var framed :=
        old(expr) + if d.opens then [OrderEdge(old(orderId), Id(id)), AddSubgraph(Main, id, caption, NoStyle)] else [];
      var sub, inner := Enter(g, e, n.kind, parent, id, d, caption);
      ghost var tree1, expr1, start := tree, expr, orderId;
      assert inner.Some? == d.active;
      ParseChildren(sub, inner, n.children, id, d.color);
      ghost var tree2 := tree;
      assert tree2 == tree1 + TreeWalkOf(variant, n.children, sub, d.active, id, d.color, id);
      AddNode(TreeCanvas(g), id, text, parent, role, d.color, false, "", "", d.treeStyle);
      TreeAssembly(variant, n, g, e.Some?, parent, role, color, old(counter), id, d, sub, old(tree), tree1, tree2,
                   tree);
      ExprAssembly(variant, n, e, parent, role, color, old(counter), id, old(orderId), d, inner, start, old(expr), framed, expr1,
                   expr, orderId);
    }

    /** The part of parse_node between the chain of tests and the children
        loop, for node `id` of kind `k` and the decision `d` taken for it: the
        AST-graph cluster its children go into, then, if it opens an
        expression, the ordering edge and the expression's cluster, then the
        node itself in the expression it belongs to, if any. Returns the
        AST-graph object and the expression owner the children are parsed under. */
    method Enter(g: Target, e: Option<nat>, k: Kind, parent: Option<nat>, id: nat, d: Decision, caption: string)
      returns (sub: Target, inner: Option<nat>)
      modifies this
      requires d.opens == Opens(k, e.Some?) && d.active == Joins(k, e.Some?)
      ensures sub == if d.treeCluster.Some? then Cluster(id) else g
      ensures inner == if !d.active then None else if d.opens then Some(id) else e
      ensures tree == old(tree) + if d.treeCluster.Some? then [AddSubgraph(g, id, caption, d.treeCluster.value)] else []
      ensures var framed :=
          old(expr) + if d.opens then [OrderEdge(old(orderId), Id(id)), AddSubgraph(Main, id, caption, NoStyle)] else [];
        expr == framed +
          if inner.Some? then
            NodeOps(Cluster(inner.value), id, d.exprLabel, if d.opens then None else parent, "",
                    d.color, d.invert, d.shape, "back", d.exprStyle)
          else []
      ensures orderId == (if d.opens then Id(id) else old(orderId)) && counter == old(counter)
    {
      // the AST-graph cluster around the children
      sub := g;
      if d.treeCluster.Some? {
        tree := tree + [AddSubgraph(g, id, caption, d.treeCluster.value)];
        sub := Cluster(id);
      }
      // opening an expression: the ordering edge, then its cluster
      inner := e;
      var exprParent := parent;
      if d.opens {
        exprParent := None;
        AddOrder(id);
        expr := expr + [AddSubgraph(Main, id, caption, NoStyle)];
        assert expr == old(expr) + [OrderEdge(old(orderId), Id(id)), AddSubgraph(Main, id, caption, NoStyle)];
        inner := Some(id);
      }
      // type identifiers stay out of expressions
      if k.IdentifierType? {
        inner := None;
      }
      if inner.Some? {
        AddNode(ExprCanvas(Cluster(inner.value)), id, d.exprLabel, exprParent, "", d.color, d.invert, d.shape,
                "back", d.exprStyle);
      }
    }

    /** The loop over node `id`'s children, each parsed into `sub` under the
        expression owner `e` with the colour `color`. */
    method ParseChildren(sub: Target, e: Option<nat>, ks: Children, id: nat, color: string)
      modifies this
      ensures counter == old(counter) + SizeOf(ks)
      ensures tree == old(tree) + TreeWalkOf(variant, ks, sub, e.Some?, id, color, old(counter))
      ensures var x := ExprWalkOf(variant, ks, e, id, color, old(counter), old(orderId));
        expr == old(expr) + x.ops && orderId == x.cursor
      decreases SizeOf(ks), 1
    {
      ghost var c0, tree0, expr0 := counter, tree, expr;
      ghost var kids := TreeWalkOf(variant, ks, sub, e.Some?, id, color, counter);
      ghost var trace := ExprWalkOf(variant, ks, e, id, color, counter, orderId);
      var rest := ks;
      while rest.Cons?
        invariant c0 <= counter && counter + SizeOf(rest) == c0 + SizeOf(ks)
        invariant tree + TreeWalkOf(variant, rest, sub, e.Some?, id, color, counter) == tree0 + kids
        invariant var more := ExprWalkOf(variant, rest, e, id, color, counter, orderId);
          expr + more.ops == expr0 + trace.ops && more.cursor == trace.cursor
        decreases rest
      {
        ghost var before, beforeExpr, c, at := tree, expr, counter, orderId;
        ParseNode(sub, e, rest.node, Some(id), rest.role, color);
        TreeStep(variant, rest, sub, e.Some?, id, color, c, before, tree0 + kids);
        ExprStep(variant, rest, e, id, color, c, at, beforeExpr, Trace(expr0 + trace.ops, trace.cursor));
        rest := rest.rest;
      }
    }

    /** After the walk: the 'end' marker, and the ordering edge into it. */
    method Finish()
      modifies this
      ensures expr == old(expr) + Teardown(variant, old(orderId))
      ensures tree == old(tree) && counter == old(counter) && orderId == old(orderId)
    {
      expr := expr + [Op.AddNode(Main, Marker("end"), "", "", "", MarkerStyle(variant))];
      expr := expr + [OrderEdge(orderId, Marker("end"))];
    }
  }

  /** What one parse_node call leaves in the AST graph, put together from
      its three stages: the cluster it may open (`before` to `framed`), the
      children (`framed` to `walked`), the node and its edge (`walked` to `after`). */
  lemma TreeAssembly(v: Variant, n: Node, g: Target, active: bool, parent: Option<nat>, role: string,
                     color: string, c: nat, id: nat, d: Decision, sub: Target, before: seq<Op>, framed: seq<Op>,
                     walked: seq<Op>, after: seq<Op>)
    requires id == c + 1 && d == Table(v, n.kind, TreeLabel(n), role, active, color)
    requires sub == if d.treeCluster.Some? then Cluster(id) else g
    requires framed == before + if d.treeCluster.Some? then [AddSubgraph(g, id, Caption(v, n.coord), d.treeCluster.value)] else []
    requires walked == framed + TreeWalkOf(v, n.children, sub, d.active, id, d.color, id)
    requires after == walked + NodeOps(g, id, TreeLabel(n), parent, role, d.color, false, "", "", d.treeStyle)
    ensures after == before + TreeWalk(v, n, g, active, parent, role, color, c)
  {
    var open := if d.treeCluster.Some? then [AddSubgraph(g, id, Caption(v, n.coord), d.treeCluster.value)] else [];
    var kids := TreeWalkOf(v, n.children, sub, d.active, id, d.color, id);
    var own := NodeOps(g, id, TreeLabel(n), parent, role, d.color, false, "", "", d.treeStyle);
    assert TreeWalk(v, n, g, active, parent, role, color, c) == open + kids + own;
    Concat4(before, open, kids, own);
  }

  /** The same for the expression graph: the ordering edge and the cluster
      it may open (`before` to `framed`), the node's own records (`framed`
      to `placed`), the children (`placed` to `after`, leaving order_id at `cursor`). */
  lemma ExprAssembly(v: Variant, n: Node, e: Option<nat>, parent: Option<nat>, role: string, color: string,
                     c: nat, id: nat, cur: Vertex, d: Decision, inner: Option<nat>, start: Vertex, before: seq<Op>,
                     framed: seq<Op>, placed: seq<Op>, after: seq<Op>, cursor: Vertex)
    requires id == c + 1 && d == Table(v, n.kind, TreeLabel(n), role, e.Some?, color)
    requires inner == (if !d.active then None else if d.opens then Some(id) else e)
    requires start == if d.opens then Id(id) else cur
    requires framed == before +
      if d.opens then [OrderEdge(cur, Id(id)), AddSubgraph(Main, id, Caption(v, n.coord), NoStyle)] else []
    requires placed == framed +
      if inner.Some? then
        NodeOps(Cluster(inner.value), id, d.exprLabel, if d.opens then None else parent, "",
                d.color, d.invert, d.shape, "back", d.exprStyle)
      else []
    requires var kids := ExprWalkOf(v, n.children, inner, id, d.color, id, start);
      after == placed + kids.ops && cursor == kids.cursor
    ensures var x := ExprWalk(v, n, e, parent, role, color, c, cur); after == before + x.ops && cursor == x.cursor
  {
    var open := if d.opens then [OrderEdge(cur, Id(id)), AddSubgraph(Main, id, Caption(v, n.coord), NoStyle)] else [];
    var own :=
      if inner.Some? then
        NodeOps(Cluster(inner.value), id, d.exprLabel, if d.opens then None else parent, "",
                d.color, d.invert, d.shape, "back", d.exprStyle)
      else [];
    var kids := ExprWalkOf(v, n.children, inner, id, d.color, id, start);
    ExprWalkDecided(v, n, e, parent, role, color, c, cur, d, inner, start, open, own);
    Concat4(before, open, own, kids.ops);
  }

  /** ExprWalk in terms of the decision the chain of tests takes for the node. */
  lemma ExprWalkDecided(v: Variant, n: Node, e: Option<nat>, parent: Option<nat>, role: string, color: string,
                        c: nat, cur: Vertex, d: Decision, inner: Option<nat>, start: Vertex, open: seq<Op>, own: seq<Op>)
    requires d == Table(v, n.kind, TreeLabel(n), role, e.Some?, color)
    requires inner == (if !d.active then None else if d.opens then Some(c + 1) else e)
    requires start == if d.opens then Id(c + 1) else cur
    requires open == if d.opens then [OrderEdge(cur, Id(c + 1)), AddSubgraph(Main, c + 1, Caption(v, n.coord), NoStyle)] else []
    requires own ==
      if inner.Some? then
        NodeOps(Cluster(inner.value), c + 1, d.exprLabel, if d.opens then None else parent, "",
                d.color, d.invert, d.shape, "back", d.exprStyle)
      else []
    ensures var kids := ExprWalkOf(v, n.children, inner, c + 1, d.color, c + 1, start);
      ExprWalk(v, n, e, parent, role, color, c, cur) == Trace(open + own + kids.ops, kids.cursor)
  {
  }

  lemma Concat4(a: seq<Op>, b: seq<Op>, c: seq<Op>, d: seq<Op>)
    ensures a + b + c + d == a + (b + c + d)
  {
  }

  /** The chain of isinstance tests of parse_node, taken for one node: what
      it decides is the per-kind table. */
  method Decide(v: Variant, k: Kind, treeLabel: string, role: string, active: bool, inherited: string)
    returns (d: Decision)
    ensures d == Table(v, k, treeLabel, role, active, inherited)
  {
    d := Classify(v, k, treeLabel, role, active, inherited);
    ClassifyTable(v, k, treeLabel, role, active, inherited);
  }

  /** One turn of the children loop, for the AST graph: walking the first
      remaining child, then the others, is walking all the remaining children. */
  lemma TreeStep(v: Variant, ks: Children, sub: Target, active: bool, id: nat, color: string, c: nat,
                 done: seq<Op>, all: seq<Op>)
    requires ks.Cons? && done + TreeWalkOf(v, ks, sub, active, id, color, c) == all
    ensures (done + TreeWalk(v, ks.node, sub, active, Some(id), ks.role, color, c)) +
            TreeWalkOf(v, ks.rest, sub, active, id, color, c + Size(ks.node)) == all
  {
    var first := TreeWalk(v, ks.node, sub, active, Some(id), ks.role, color, c);
    var rest := TreeWalkOf(v, ks.rest, sub, active, id, color, c + Size(ks.node));
    assert TreeWalkOf(v, ks, sub, active, id, color, c) == first + rest;
    assert (done + first) + rest == done + (first + rest);
  }

  /** The same for the expression graph and order_id. */
  lemma ExprStep(v: Variant, ks: Children, e: Option<nat>, id: nat, color: string, c: nat, cur: Vertex,
                 done: seq<Op>, all: Trace)
    requires ks.Cons?
    requires var t := ExprWalkOf(v, ks, e, id, color, c, cur); done + t.ops == all.ops && t.cursor == all.cursor
    ensures var first := ExprWalk(v, ks.node, e, Some(id), ks.role, color, c, cur);
      var rest := ExprWalkOf(v, ks.rest, e, id, color, c + Size(ks.node), first.cursor);
      (done + first.ops) + rest.ops == all.ops && rest.cursor == all.cursor
  {
    var first := ExprWalk(v, ks.node, e, Some(id), ks.role, color, c, cur);
    var rest := ExprWalkOf(v, ks.rest, e, id, color, c + Size(ks.node), first.cursor);
    assert ExprWalkOf(v, ks, e, id, color, c, cur) == Trace(first.ops + rest.ops, rest.cursor);
    assert (done + first.ops) + rest.ops == done + (first.ops + rest.ops);
  }

  /** The whole script: set up, parse the AST from the root with no parent
      and colour white, close the ordering chain. Its two graphs are the
      ones Transduce describes. */
  method Run(v: Variant, ast: Node) returns (g: Graphs)
    ensures g == Transduce(v, ast)
  {
    var s := new Script(v);
    s.ParseNode(Main, None, ast, None, "", "white");
    s.Finish();
    g := Graphs(s.tree, s.expr);
  }
}
