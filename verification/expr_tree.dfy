/** What the expression-extracting walk puts into the tree graph, proved
    equal to the reference orders, one view of the graph at a time: every
    AST node once, after its subtree; one parent-to-child edge per child,
    labelled with its role; the clusters of the assignments, unary
    operations, declarations and returns; and the dashed style on exactly
    the nodes outside every expression. */
module ExprTree {
  import opened Util
  import opened Sinks
  import opened Ast
  import opened Traversal
  import opened ExprClassify
  import opened ExprViews
  import opened Transducer

  /** The tree graph gets its nodes in post-order: each node after its subtree. */
  lemma {:induction false} TreeIds(v: Variant, n: Node, g: Target, active: bool, parent: Option<nat>,
                                       role: string, color: string, c: nat)
    ensures var t := TreeWalk(v, n, g, active, parent, role, color, c); NodeIds(t) == PostOrder(n, c)
  {
    var id := c + 1;
    var cluster := TreeClusterStyle(v, n.kind);
    var sub := if cluster.Some? then Cluster(id) else g;
    var open := if cluster.Some? then [AddSubgraph(g, id, Caption(v, n.coord), cluster.value)] else [];
    var kids := TreeWalkOf(v, n.children, sub, Joins(n.kind, active), id, Colour(n.kind, color), id);
    var own := NodeOps(g, id, TreeLabel(n), parent, role, Colour(n.kind, color), false, "", "", TreeStyle(v, n.kind, active));
    TreeIdsOf(v, n.children, sub, Joins(n.kind, active), id, Colour(n.kind, color), id);
    NodeIdsAppend(open, kids);
    NodeIdsAppend(open + kids, own);
    NodeOpsIds(g, id, TreeLabel(n), parent, role, Colour(n.kind, color), false, "", "", TreeStyle(v, n.kind, active));
    if cluster.Some? { OneOpIds(open[0]); }
    EmptyNeutral(NodeIds(kids));
  }

  lemma {:induction false} TreeIdsOf(v: Variant, ks: Children, sub: Target, active: bool, id: nat,
                                         color: string, c: nat)
    ensures var t := TreeWalkOf(v, ks, sub, active, id, color, c); NodeIds(t) == PostOrderOf(ks, c)
  {
    match ks
    case Nil =>
    case Cons(role, m, rest) =>
      var first, more := TreeWalk(v, m, sub, active, Some(id), role, color, c), TreeWalkOf(v, rest, sub, active, id, color, c + Size(m));
      assert TreeWalkOf(v, ks, sub, active, id, color, c) == first + more;
      assert PostOrderOf(ks, c) == PostOrder(m, c) + PostOrderOf(rest, c + Size(m));
      TreeIds(v, m, sub, active, Some(id), role, color, c);
      TreeIdsOf(v, rest, sub, active, id, color, c + Size(m));
      NodeIdsAppend(first, more);
  }

  /** The tree graph gets the edges of a post-order walk: every one from parent to child, labelled with the role and never inverted. */
  lemma {:induction false} TreeEdges(v: Variant, n: Node, g: Target, active: bool, parent: Option<nat>,
                                       role: string, color: string, c: nat)
    ensures var t := TreeWalk(v, n, g, active, parent, role, color, c); Arcs(t) == TreeArcs(n, c, parent, role)
  {
    var id := c + 1;
    var cluster := TreeClusterStyle(v, n.kind);
    var sub := if cluster.Some? then Cluster(id) else g;
    var open := if cluster.Some? then [AddSubgraph(g, id, Caption(v, n.coord), cluster.value)] else [];
    var kids := TreeWalkOf(v, n.children, sub, Joins(n.kind, active), id, Colour(n.kind, color), id);
    var own := NodeOps(g, id, TreeLabel(n), parent, role, Colour(n.kind, color), false, "", "", TreeStyle(v, n.kind, active));
    TreeEdgesOf(v, n.children, sub, Joins(n.kind, active), id, Colour(n.kind, color), id);
    ArcsAppend(open, kids);
    ArcsAppend(open + kids, own);
    NodeOpsArcs(g, id, TreeLabel(n), parent, role, Colour(n.kind, color), false, "", "", TreeStyle(v, n.kind, active));
    if cluster.Some? { OneOpArcs(open[0]); }
    EmptyNeutral(Arcs(kids));
  }

  lemma {:induction false} TreeEdgesOf(v: Variant, ks: Children, sub: Target, active: bool, id: nat,
                                         color: string, c: nat)
    ensures var t := TreeWalkOf(v, ks, sub, active, id, color, c); Arcs(t) == TreeArcsOf(ks, c, id)
  {
    match ks
    case Nil =>
    case Cons(role, m, rest) =>
      var first, more := TreeWalk(v, m, sub, active, Some(id), role, color, c), TreeWalkOf(v, rest, sub, active, id, color, c + Size(m));
      assert TreeWalkOf(v, ks, sub, active, id, color, c) == first + more;
      assert TreeArcsOf(ks, c, id) == TreeArcs(m, c, Some(id), role) + TreeArcsOf(rest, c + Size(m), id);
      TreeEdges(v, m, sub, active, Some(id), role, color, c);
      TreeEdgesOf(v, rest, sub, active, id, color, c + Size(m));
      ArcsAppend(first, more);
  }

  /** The tree graph gets one cluster per assignment, unary operation, declaration and return, in pre-order. */
  lemma {:induction false} TreeClustersMade(v: Variant, n: Node, g: Target, active: bool, parent: Option<nat>,
                                       role: string, color: string, c: nat)
    ensures var t := TreeWalk(v, n, g, active, parent, role, color, c); Clusters(t) == TreeClusters(n, c)
  {
    var id := c + 1;
    var cluster := TreeClusterStyle(v, n.kind);
    var sub := if cluster.Some? then Cluster(id) else g;
    var open := if cluster.Some? then [AddSubgraph(g, id, Caption(v, n.coord), cluster.value)] else [];
    var kids := TreeWalkOf(v, n.children, sub, Joins(n.kind, active), id, Colour(n.kind, color), id);
    var own := NodeOps(g, id, TreeLabel(n), parent, role, Colour(n.kind, color), false, "", "", TreeStyle(v, n.kind, active));
    TreeClustersMadeOf(v, n.children, sub, Joins(n.kind, active), id, Colour(n.kind, color), id);
    ClustersAppend(open, kids);
    ClustersAppend(open + kids, own);
    NodeOpsQuiet(g, id, TreeLabel(n), parent, role, Colour(n.kind, color), false, "", "", TreeStyle(v, n.kind, active));
    if cluster.Some? { OneOpClusters(open[0]); }
    EmptyNeutral(Clusters(kids));
  }

  lemma {:induction false} TreeClustersMadeOf(v: Variant, ks: Children, sub: Target, active: bool, id: nat,
                                         color: string, c: nat)
    ensures var t := TreeWalkOf(v, ks, sub, active, id, color, c); Clusters(t) == TreeClustersOf(ks, c)
  {
    match ks
    case Nil =>
    case Cons(role, m, rest) =>
      var first, more := TreeWalk(v, m, sub, active, Some(id), role, color, c), TreeWalkOf(v, rest, sub, active, id, color, c + Size(m));
      assert TreeWalkOf(v, ks, sub, active, id, color, c) == first + more;
      assert TreeClustersOf(ks, c) == TreeClusters(m, c) + TreeClustersOf(rest, c + Size(m));
      TreeClustersMade(v, m, sub, active, Some(id), role, color, c);
      TreeClustersMadeOf(v, rest, sub, active, id, color, c + Size(m));
      ClustersAppend(first, more);
  }

  /** The tool dashes exactly the tree nodes outside every expression; the prototype dashes none. */
  lemma {:induction false} TreeDashed(v: Variant, n: Node, g: Target, active: bool, parent: Option<nat>,
                                       role: string, color: string, c: nat)
    ensures var t := TreeWalk(v, n, g, active, parent, role, color, c); StyledIds(t, FilledDashed) == DashedNodes(v, n, c, active)
  {
    var id := c + 1;
    var cluster := TreeClusterStyle(v, n.kind);
    var sub := if cluster.Some? then Cluster(id) else g;
    var open := if cluster.Some? then [AddSubgraph(g, id, Caption(v, n.coord), cluster.value)] else [];
    var kids := TreeWalkOf(v, n.children, sub, Joins(n.kind, active), id, Colour(n.kind, color), id);
    var own := NodeOps(g, id, TreeLabel(n), parent, role, Colour(n.kind, color), false, "", "", TreeStyle(v, n.kind, active));
    TreeDashedOf(v, n.children, sub, Joins(n.kind, active), id, Colour(n.kind, color), id);
    StyledIdsAppendDashed(open, kids);
    StyledIdsAppendDashed(open + kids, own);
    NodeOpsStyled(g, id, TreeLabel(n), parent, role, Colour(n.kind, color), false, "", "", TreeStyle(v, n.kind, active), FilledDashed);
    if cluster.Some? { OneOpStyled(open[0], FilledDashed); }
    EmptyNeutral(StyledIds(kids, FilledDashed));
  }

  lemma {:induction false} TreeDashedOf(v: Variant, ks: Children, sub: Target, active: bool, id: nat,
                                         color: string, c: nat)
    ensures var t := TreeWalkOf(v, ks, sub, active, id, color, c); StyledIds(t, FilledDashed) == DashedNodesOf(v, ks, c, active)
  {
    match ks
    case Nil =>
    case Cons(role, m, rest) =>
      var first, more := TreeWalk(v, m, sub, active, Some(id), role, color, c), TreeWalkOf(v, rest, sub, active, id, color, c + Size(m));
      assert TreeWalkOf(v, ks, sub, active, id, color, c) == first + more;
      assert DashedNodesOf(v, ks, c, active) == DashedNodes(v, m, c, active) + DashedNodesOf(v, rest, c + Size(m), active);
      TreeDashed(v, m, sub, active, Some(id), role, color, c);
      TreeDashedOf(v, rest, sub, active, id, color, c + Size(m));
      StyledIdsAppendDashed(first, more);
  }

  lemma StyledIdsAppendDashed(a: seq<Op>, b: seq<Op>)
    ensures StyledIds(a + b, FilledDashed) == StyledIds(a, FilledDashed) + StyledIds(b, FilledDashed)
  {
    StyledIdsAppend(a, b, FilledDashed);
  }
}
