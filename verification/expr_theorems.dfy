/** What the expression-extracting script as a whole produces from a parsed
    C file: the AST graph and the expression graph, described through what
    can be read off the two logs. */
module ExprTheorems {
  import opened Util
  import opened Sinks
  import opened Ast
  import opened Traversal
  import opened ExprClassify
  import opened ExprViews
  import opened Transducer
  import opened ExprTree
  import opened ExprGraph
  import opened ExprFacts
  import opened ExprNodes

  /** The markers and the ordering subgraph the script sets up are invisible to every view. */
  lemma SetupViews(v: Variant, style: Style)
    ensures var s := Setup(v);
      NodeIds(s) == [] && StyledIds(s, style) == [] && Arcs(s) == [] && Links(s) == [] && Clusters(s) == [] &&
      Nodes(s) == []
  {
    SilentViews(Setup(v), style);
  }

  /** Closing the script adds the last ordering edge, into 'end', and nothing else any view sees. */
  lemma TeardownViews(v: Variant, cur: Vertex, style: Style)
    ensures var t := Teardown(v, cur);
      NodeIds(t) == [] && StyledIds(t, style) == [] && Arcs(t) == [] && Clusters(t) == [] && Nodes(t) == [] &&
      Links(t) == [(cur, Marker("end"))]
  {
    var t := Teardown(v, cur);
    assert t == [t[0]] + [t[1]];
    SilentViews([t[0]], style);
    OneOpIds(t[1]);
    OneOpStyled(t[1], style);
    OneOpArcs(t[1]);
    OneOpClusters(t[1]);
    OneOpLinks(t[1]);
    OneOpNodes(t[1]);
    NodesAppend([t[0]], [t[1]]);
    NodeIdsAppend([t[0]], [t[1]]);
    StyledIdsAppend([t[0]], [t[1]], style);
    ArcsAppend([t[0]], [t[1]]);
    ClustersAppend([t[0]], [t[1]]);
    LinksAppend([t[0]], [t[1]]);
  }

  /** The AST graph of the script is the tree walk from the root: its views are the reference orders. */
  lemma TransduceTree(v: Variant, ast: Node)
    ensures var t := Transduce(v, ast).tree;
      NodeIds(t) == PostOrder(ast, 0) && Arcs(t) == TreeArcs(ast, 0, None, "") &&
      Clusters(t) == TreeClusters(ast, 0) && StyledIds(t, FilledDashed) == DashedNodes(v, ast, 0, false)
  {
    TreeIds(v, ast, Main, false, None, "", "white", 0);
    TreeEdges(v, ast, Main, false, None, "", "white", 0);
    TreeClustersMade(v, ast, Main, false, None, "", "white", 0);
    TreeDashed(v, ast, Main, false, None, "", "white", 0);
  }

  /** The expression graph of the script: the expression walk from the
      root between the set-up and the closing records. */
  lemma TransduceExpr(v: Variant, ast: Node)
    ensures var g := Transduce(v, ast).expr; var roots := Roots(ast, 0, false);
      NodeIds(g) == Members(ast, 0, false) && StyledIds(g, FilledBold) == roots &&
      StyledIds(g, Filled) == Inner(ast, 0, false) && Clusters(g) == roots &&
      Arcs(g) == ExprArcs(ast, 0, false, None, "") &&
      Links(g) == Chain(Marker("rank2"), roots) + [(LastOr(Marker("rank2"), roots), Marker("end"))]
  {
    var x := ExprWalk(v, ast, None, None, "", "white", 0, Marker("rank2"));
    var s, t := Setup(v), Teardown(v, x.cursor);
    ExprIds(v, ast, None, None, "", "white", 0, Marker("rank2"));
    ExprBold(v, ast, None, None, "", "white", 0, Marker("rank2"));
    ExprFilled(v, ast, None, None, "", "white", 0, Marker("rank2"));
    ExprClusters(v, ast, None, None, "", "white", 0, Marker("rank2"));
    ExprEdges(v, ast, None, None, "", "white", 0, Marker("rank2"));
    ExprChain(v, ast, None, None, "", "white", 0, Marker("rank2"));
    SetupViews(v, FilledBold);
    SetupViews(v, Filled);
    TeardownViews(v, x.cursor, FilledBold);
    TeardownViews(v, x.cursor, Filled);
    NodeIdsAppend(s, x.ops);
    NodeIdsAppend(s + x.ops, t);
    StyledIdsAppend(s, x.ops, FilledBold);
    StyledIdsAppend(s + x.ops, t, FilledBold);
    StyledIdsAppend(s, x.ops, Filled);
    StyledIdsAppend(s + x.ops, t, Filled);
    ClustersAppend(s, x.ops);
    ClustersAppend(s + x.ops, t);
    ArcsAppend(s, x.ops);
    ArcsAppend(s + x.ops, t);
    LinksAppend(s, x.ops);
    LinksAppend(s + x.ops, t);
    EmptyNeutral(NodeIds(x.ops));
    EmptyNeutral(StyledIds(x.ops, FilledBold));
    EmptyNeutral(StyledIds(x.ops, Filled));
    EmptyNeutral(Clusters(x.ops));
    EmptyNeutral(Arcs(x.ops));
    EmptyNeutral(Links(x.ops));
  }

  /** The AST graph: one node per AST node, numbered 1 .. Size(ast) without
      repeats, each added after its subtree so that the root, 1, comes last. */
  lemma TreeGraphNodes(v: Variant, ast: Node)
    ensures var ids := NodeIds(Transduce(v, ast).tree);
      |ids| == Size(ast) && Distinct(ids) && Within(ids, 0, Size(ast)) && ids[|ids| - 1] == 1
  {
    TransduceTree(v, ast);
    PostOrderFacts(ast, 0);
  }

  /** One AST-graph edge into every node but the root, each from a smaller
      id, without a direction attribute. */
  lemma TreeGraphEdges(v: Variant, ast: Node)
    ensures var t := Transduce(v, ast).tree;
      Heads(Arcs(t)) + [1] == NodeIds(t) && Downward(Arcs(t), 0, Size(ast), None, "")
  {
    TransduceTree(v, ast);
    TreeArcsHeads(ast, 0, None, "");
    TreeArcsDownward(ast, 0, None, "");
    EmptyNeutral(PostOrderOf(ast.children, 1));
  }

  /** The tool dashes exactly the AST nodes outside the expression graph;
      the prototype dashes none. */
  lemma TreeGraphDashes(v: Variant, ast: Node)
    ensures var g := Transduce(v, ast);
      (v.Tool? ==> Splits(NodeIds(g.expr), StyledIds(g.tree, FilledDashed), NodeIds(g.tree))) &&
      (v.Prototype? ==> StyledIds(g.tree, FilledDashed) == [])
  {
    TransduceTree(v, ast);
    TransduceExpr(v, ast);
    if v.Tool? { MembersDashedSplit(ast, 0, false); } else { PrototypeUndashed(ast, 0, false); }
  }

  /** The expression graph: its nodes are AST node ids in pre-order, each
      once; the bold ones are the roots, each owning the one cluster named
      after it, and the plain ones are the rest; every edge is unlabelled,
      has dir=back and hangs a plain member from a node of the graph, and
      there is one such edge per plain member (none above a root); the
      ordering chain runs from 'rank2' through the roots in order to 'end'. */
  lemma ExprGraphShape(v: Variant, ast: Node)
    ensures var g := Transduce(v, ast).expr; var ids := NodeIds(g);
      var bold, plain := StyledIds(g, FilledBold), StyledIds(g, Filled);
      Increasing(ids) && Within(ids, 0, Size(ast)) &&
      Splits(bold, plain, ids) && Clusters(g) == bold &&
      Lowers(Arcs(g)) == plain && Hooked(Arcs(g), Elems(ids)) &&
      Links(g) == Chain(Marker("rank2"), bold) + [(LastOr(Marker("rank2"), bold), Marker("end"))]
  {
    TransduceExpr(v, ast);
    MembersOrdered(ast, 0, false);
    RootsInnerSplit(ast, 0, false);
    ExprArcsLowers(ast, 0, false, None, "");
    ExprArcsHooked(ast, 0, false, None, "");
    assert Hooks(Members(ast, 0, false), false, None) == Elems(Members(ast, 0, false));
  }

  /** Every node of the AST graph shows the AST node its id names, as
      TreeShown says: label, shape, colour, style and the tree cluster it
      is drawn in; it is the node TreeSeat gives its id. */
  lemma TreeGraphNodeView(v: Variant, ast: Node)
    ensures var ns := Nodes(Transduce(v, ast).tree);
      forall i :: 0 <= i < |ns| ==>
        TreeSeat(v, ast, Main, false, "white", 0, ns[i].id) == Some(ns[i]) && TreeShown(v, ast, ns[i])
  {
    var ns := Nodes(Transduce(v, ast).tree);
    TreeWalkNodes(v, ast, Main, false, None, "", "white", 0);
    forall i | 0 <= i < |ns| ensures TreeShown(v, ast, ns[i]) {
      TreeSeatFacts(v, ast, Main, false, "white", 0, ns[i].id);
    }
  }

  /** Colours are handed down the AST graph: the head of every edge has the
      colour its kind gives when handed the colour of the edge's tail. */
  lemma TreeGraphInherits(v: Variant, ast: Node)
    ensures var arcs := Arcs(Transduce(v, ast).tree);
      forall i :: 0 <= i < |arcs| ==>
        var up, down := TreeSeat(v, ast, Main, false, "white", 0, arcs[i].src), TreeSeat(v, ast, Main, false, "white", 0, arcs[i].dst);
        up.Some? && down.Some? && Find(ast, 0, arcs[i].dst).Some? &&
        down.value.color == Colour(Find(ast, 0, arcs[i].dst).value.kind, up.value.color)
  {
    var arcs := Arcs(Transduce(v, ast).tree);
    TreeEdges(v, ast, Main, false, None, "", "white", 0);
    TreeArcsDownward(ast, 0, None, "");
    forall i | 0 <= i < |arcs|
      ensures var up, down := TreeSeat(v, ast, Main, false, "white", 0, arcs[i].src), TreeSeat(v, ast, Main, false, "white", 0, arcs[i].dst);
        up.Some? && down.Some? && Find(ast, 0, arcs[i].dst).Some? &&
        down.value.color == Colour(Find(ast, 0, arcs[i].dst).value.kind, up.value.color)
    {
      TreeInherits(v, ast, Main, false, None, "", "white", 0, i);
    }
  }

  /** Every node of the expression graph shows the AST node its id names,
      as ExprShown says: label, shape, colour, style and the expression
      cluster it is drawn in; it is the node ExprSeat gives its id, and it
      has the colour of the AST-graph node with the same id. */
  lemma ExprGraphNodeView(v: Variant, ast: Node)
    ensures var ns := Nodes(Transduce(v, ast).expr);
      forall i :: 0 <= i < |ns| ==>
        ExprSeat(ast, None, "white", 0, ns[i].id) == Some(ns[i]) && ExprShown(ast, ns[i]) &&
        TreeSeat(v, ast, Main, false, "white", 0, ns[i].id).Some? &&
        ns[i].color == TreeSeat(v, ast, Main, false, "white", 0, ns[i].id).value.color
  {
    var x := ExprWalk(v, ast, None, None, "", "white", 0, Marker("rank2"));
    var s, t := Setup(v), Teardown(v, x.cursor);
    SetupViews(v, Filled);
    TeardownViews(v, x.cursor, Filled);
    NodesAppend(s, x.ops);
    NodesAppend(s + x.ops, t);
    EmptyNeutral(Nodes(x.ops));
    var ns := Nodes(x.ops);
    assert Nodes(Transduce(v, ast).expr) == ns;
    ExprWalkNodes(v, ast, None, None, "", "white", 0, Marker("rank2"));
    forall i | 0 <= i < |ns|
      ensures ExprShown(ast, ns[i]) && TreeSeat(v, ast, Main, false, "white", 0, ns[i].id).Some? &&
              ns[i].color == TreeSeat(v, ast, Main, false, "white", 0, ns[i].id).value.color
    {
      ExprSeatFacts(ast, None, "white", 0, ns[i].id);
      SameColour(v, ast, Main, None, "white", 0, ns[i].id);
    }
  }
}
