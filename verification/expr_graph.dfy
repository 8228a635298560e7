/** What the expression-extracting walk puts into the expression graph and
    its ordering subgraph, proved equal to the reference definitions, one
    view at a time: the member nodes, the bold roots, the clusters, the
    expression edges, and the ordering chain with the cursor it leaves. */
module ExprGraph {
  import opened Util
  import opened Sinks
  import opened Ast
  import opened ExprClassify
  import opened ExprViews
  import opened Transducer

  // The two records that open an expression: the ordering edge from the
  // cursor to the root, then the root's cluster.

  lemma OpenIds(cur: Vertex, id: nat, caption: string)
    ensures NodeIds([OrderEdge(cur, Id(id)), AddSubgraph(Main, id, caption, NoStyle)]) == []
  {
    var ops := [OrderEdge(cur, Id(id)), AddSubgraph(Main, id, caption, NoStyle)];
    assert ops == [ops[0]] + [ops[1]];
    OneOpIds(ops[0]);
    OneOpIds(ops[1]);
    NodeIdsAppend([ops[0]], [ops[1]]);
  }

  lemma OpenStyled(cur: Vertex, id: nat, caption: string, style: Style)
    ensures StyledIds([OrderEdge(cur, Id(id)), AddSubgraph(Main, id, caption, NoStyle)], style) == []
  {
    var ops := [OrderEdge(cur, Id(id)), AddSubgraph(Main, id, caption, NoStyle)];
    assert ops == [ops[0]] + [ops[1]];
    OneOpStyled(ops[0], style);
    OneOpStyled(ops[1], style);
    StyledIdsAppend([ops[0]], [ops[1]], style);
  }

  lemma OpenArcs(cur: Vertex, id: nat, caption: string)
    ensures Arcs([OrderEdge(cur, Id(id)), AddSubgraph(Main, id, caption, NoStyle)]) == []
  {
    var ops := [OrderEdge(cur, Id(id)), AddSubgraph(Main, id, caption, NoStyle)];
    assert ops == [ops[0]] + [ops[1]];
    OneOpArcs(ops[0]);
    OneOpArcs(ops[1]);
    ArcsAppend([ops[0]], [ops[1]]);
  }

  lemma OpenLinks(cur: Vertex, id: nat, caption: string)
    ensures Links([OrderEdge(cur, Id(id)), AddSubgraph(Main, id, caption, NoStyle)]) == [(cur, Id(id))]
  {
    var ops := [OrderEdge(cur, Id(id)), AddSubgraph(Main, id, caption, NoStyle)];
    assert ops == [ops[0]] + [ops[1]];
    OneOpLinks(ops[0]);
    OneOpLinks(ops[1]);
    LinksAppend([ops[0]], [ops[1]]);
  }

  lemma OpenClusters(cur: Vertex, id: nat, caption: string)
    ensures Clusters([OrderEdge(cur, Id(id)), AddSubgraph(Main, id, caption, NoStyle)]) == [id]
  {
    var ops := [OrderEdge(cur, Id(id)), AddSubgraph(Main, id, caption, NoStyle)];
    assert ops == [ops[0]] + [ops[1]];
    OneOpClusters(ops[0]);
    OneOpClusters(ops[1]);
    ClustersAppend([ops[0]], [ops[1]]);
  }

  /** A node that joins an expression without opening one finds it active. */
  lemma JoinsWithout(k: Kind, active: bool)
    ensures Opens(k, active) ==> Joins(k, active)
    ensures Joins(k, active) && !Opens(k, active) ==> active
  {
  }

  /** The expression graph gets the members of the expressions, each once, in pre-order: a node is added before its children. */
  lemma {:induction false} ExprIds(v: Variant, n: Node, e: Option<nat>, parent: Option<nat>, role: string,
                                   color: string, c: nat, cur: Vertex)
    ensures var x := ExprWalk(v, n, e, parent, role, color, c, cur); NodeIds(x.ops) == Members(n, c, e.Some?)
  {
    var id := c + 1;
    var k := n.kind;
    var opens := Opens(k, e.Some?);
    var inner := if !Joins(k, e.Some?) then None else if opens then Some(id) else e;
    var start := if opens then Id(id) else cur;
    var kids := ExprWalkOf(v, n.children, inner, id, Colour(k, color), id, start);
    var open := if opens then [OrderEdge(cur, Id(id)), AddSubgraph(Main, id, Caption(v, n.coord), NoStyle)] else [];
    var own :=
      if inner.Some? then
        NodeOps(Cluster(inner.value), id, ExprLabel(k, TreeLabel(n), e.Some?), if opens then None else parent, "",
                Colour(k, color), Inverted(role), Shape(k), "back", ExprStyle(k, e.Some?))
      else [];
    JoinsWithout(k, e.Some?);
    ExprIdsOf(v, n.children, inner, id, Colour(k, color), id, start);
    NodeIdsAppend(open, own);
    NodeIdsAppend(open + own, kids.ops);
    if opens { OpenIds(cur, id, Caption(v, n.coord)); }
    if inner.Some? { NodeOpsIds(Cluster(inner.value), id, ExprLabel(k, TreeLabel(n), e.Some?), if opens then None else parent, "", Colour(k, color), Inverted(role), Shape(k), "back", ExprStyle(k, e.Some?)); }
    EmptyNeutral(NodeIds(own));
    EmptyNeutral(NodeIds(open));
  }

  lemma {:induction false} ExprIdsOf(v: Variant, ks: Children, e: Option<nat>, id: nat, color: string,
                                     c: nat, cur: Vertex)
    ensures var x := ExprWalkOf(v, ks, e, id, color, c, cur); NodeIds(x.ops) == MembersOf(ks, c, e.Some?)
  {
    match ks
    case Nil =>
    case Cons(role, m, rest) =>
      var first := ExprWalk(v, m, e, Some(id), role, color, c, cur);
      var more := ExprWalkOf(v, rest, e, id, color, c + Size(m), first.cursor);
      assert ExprWalkOf(v, ks, e, id, color, c, cur) == Trace(first.ops + more.ops, more.cursor);
      assert MembersOf(ks, c, e.Some?) == Members(m, c, e.Some?) + MembersOf(rest, c + Size(m), e.Some?);
      ExprIds(v, m, e, Some(id), role, color, c, cur);
      ExprIdsOf(v, rest, e, id, color, c + Size(m), first.cursor);
      NodeIdsAppend(first.ops, more.ops);
  }

  /** Exactly the expression roots are drawn bold, in pre-order. */
  lemma {:induction false} ExprBold(v: Variant, n: Node, e: Option<nat>, parent: Option<nat>, role: string,
                                   color: string, c: nat, cur: Vertex)
    ensures var x := ExprWalk(v, n, e, parent, role, color, c, cur); StyledIds(x.ops, FilledBold) == Roots(n, c, e.Some?)
  {
    var id := c + 1;
    var k := n.kind;
    var opens := Opens(k, e.Some?);
    var inner := if !Joins(k, e.Some?) then None else if opens then Some(id) else e;
    var start := if opens then Id(id) else cur;
    var kids := ExprWalkOf(v, n.children, inner, id, Colour(k, color), id, start);
    var open := if opens then [OrderEdge(cur, Id(id)), AddSubgraph(Main, id, Caption(v, n.coord), NoStyle)] else [];
    var own :=
      if inner.Some? then
        NodeOps(Cluster(inner.value), id, ExprLabel(k, TreeLabel(n), e.Some?), if opens then None else parent, "",
                Colour(k, color), Inverted(role), Shape(k), "back", ExprStyle(k, e.Some?))
      else [];
    JoinsWithout(k, e.Some?);
    ExprBoldOf(v, n.children, inner, id, Colour(k, color), id, start);
    StyledIdsAppend(open, own, FilledBold);
    StyledIdsAppend(open + own, kids.ops, FilledBold);
    if opens { OpenStyled(cur, id, Caption(v, n.coord), FilledBold); }
    if inner.Some? { NodeOpsStyled(Cluster(inner.value), id, ExprLabel(k, TreeLabel(n), e.Some?), if opens then None else parent, "", Colour(k, color), Inverted(role), Shape(k), "back", ExprStyle(k, e.Some?), FilledBold); }
    EmptyNeutral(StyledIds(own, FilledBold));
    EmptyNeutral(StyledIds(open, FilledBold));
  }

  lemma {:induction false} ExprBoldOf(v: Variant, ks: Children, e: Option<nat>, id: nat, color: string,
                                     c: nat, cur: Vertex)
    ensures var x := ExprWalkOf(v, ks, e, id, color, c, cur); StyledIds(x.ops, FilledBold) == RootsOf(ks, c, e.Some?)
  {
    match ks
    case Nil =>
    case Cons(role, m, rest) =>
      var first := ExprWalk(v, m, e, Some(id), role, color, c, cur);
      var more := ExprWalkOf(v, rest, e, id, color, c + Size(m), first.cursor);
      assert ExprWalkOf(v, ks, e, id, color, c, cur) == Trace(first.ops + more.ops, more.cursor);
      assert RootsOf(ks, c, e.Some?) == Roots(m, c, e.Some?) + RootsOf(rest, c + Size(m), e.Some?);
      ExprBold(v, m, e, Some(id), role, color, c, cur);
      ExprBoldOf(v, rest, e, id, color, c + Size(m), first.cursor);
      StyledIdsAppend(first.ops, more.ops, FilledBold);
  }

  /** The other members are drawn plain filled, in pre-order. */
  lemma {:induction false} ExprFilled(v: Variant, n: Node, e: Option<nat>, parent: Option<nat>, role: string,
                                   color: string, c: nat, cur: Vertex)
    ensures var x := ExprWalk(v, n, e, parent, role, color, c, cur); StyledIds(x.ops, Filled) == Inner(n, c, e.Some?)
  {
    var id := c + 1;
    var k := n.kind;
    var opens := Opens(k, e.Some?);
    var inner := if !Joins(k, e.Some?) then None else if opens then Some(id) else e;
    var start := if opens then Id(id) else cur;
    var kids := ExprWalkOf(v, n.children, inner, id, Colour(k, color), id, start);
    var open := if opens then [OrderEdge(cur, Id(id)), AddSubgraph(Main, id, Caption(v, n.coord), NoStyle)] else [];
    var own :=
      if inner.Some? then
        NodeOps(Cluster(inner.value), id, ExprLabel(k, TreeLabel(n), e.Some?), if opens then None else parent, "",
                Colour(k, color), Inverted(role), Shape(k), "back", ExprStyle(k, e.Some?))
      else [];
    JoinsWithout(k, e.Some?);
    ExprFilledOf(v, n.children, inner, id, Colour(k, color), id, start);
    StyledIdsAppend(open, own, Filled);
    StyledIdsAppend(open + own, kids.ops, Filled);
    if opens { OpenStyled(cur, id, Caption(v, n.coord), Filled); }
    if inner.Some? { NodeOpsStyled(Cluster(inner.value), id, ExprLabel(k, TreeLabel(n), e.Some?), if opens then None else parent, "", Colour(k, color), Inverted(role), Shape(k), "back", ExprStyle(k, e.Some?), Filled); }
    EmptyNeutral(StyledIds(own, Filled));
    EmptyNeutral(StyledIds(open, Filled));
  }

  lemma {:induction false} ExprFilledOf(v: Variant, ks: Children, e: Option<nat>, id: nat, color: string,
                                     c: nat, cur: Vertex)
    ensures var x := ExprWalkOf(v, ks, e, id, color, c, cur); StyledIds(x.ops, Filled) == InnerOf(ks, c, e.Some?)
  {
    match ks
    case Nil =>
    case Cons(role, m, rest) =>
      var first := ExprWalk(v, m, e, Some(id), role, color, c, cur);
      var more := ExprWalkOf(v, rest, e, id, color, c + Size(m), first.cursor);
      assert ExprWalkOf(v, ks, e, id, color, c, cur) == Trace(first.ops + more.ops, more.cursor);
      assert InnerOf(ks, c, e.Some?) == Inner(m, c, e.Some?) + InnerOf(rest, c + Size(m), e.Some?);
      ExprFilled(v, m, e, Some(id), role, color, c, cur);
      ExprFilledOf(v, rest, e, id, color, c + Size(m), first.cursor);
      StyledIdsAppend(first.ops, more.ops, Filled);
  }

  /** Every expression gets its own cluster, named after its root, and no other cluster is made. */
  lemma {:induction false} ExprClusters(v: Variant, n: Node, e: Option<nat>, parent: Option<nat>, role: string,
                                   color: string, c: nat, cur: Vertex)
    ensures var x := ExprWalk(v, n, e, parent, role, color, c, cur); Clusters(x.ops) == Roots(n, c, e.Some?)
  {
    var id := c + 1;
    var k := n.kind;
    var opens := Opens(k, e.Some?);
    var inner := if !Joins(k, e.Some?) then None else if opens then Some(id) else e;
    var start := if opens then Id(id) else cur;
    var kids := ExprWalkOf(v, n.children, inner, id, Colour(k, color), id, start);
    var open := if opens then [OrderEdge(cur, Id(id)), AddSubgraph(Main, id, Caption(v, n.coord), NoStyle)] else [];
    var own :=
      if inner.Some? then
        NodeOps(Cluster(inner.value), id, ExprLabel(k, TreeLabel(n), e.Some?), if opens then None else parent, "",
                Colour(k, color), Inverted(role), Shape(k), "back", ExprStyle(k, e.Some?))
      else [];
    JoinsWithout(k, e.Some?);
    ExprClustersOf(v, n.children, inner, id, Colour(k, color), id, start);
    ClustersAppend(open, own);
    ClustersAppend(open + own, kids.ops);
    if opens { OpenClusters(cur, id, Caption(v, n.coord)); }
    if inner.Some? { NodeOpsQuiet(Cluster(inner.value), id, ExprLabel(k, TreeLabel(n), e.Some?), if opens then None else parent, "", Colour(k, color), Inverted(role), Shape(k), "back", ExprStyle(k, e.Some?)); }
    EmptyNeutral(Clusters(own));
    EmptyNeutral(Clusters(open));
  }

  lemma {:induction false} ExprClustersOf(v: Variant, ks: Children, e: Option<nat>, id: nat, color: string,
                                     c: nat, cur: Vertex)
    ensures var x := ExprWalkOf(v, ks, e, id, color, c, cur); Clusters(x.ops) == RootsOf(ks, c, e.Some?)
  {
    match ks
    case Nil =>
    case Cons(role, m, rest) =>
      var first := ExprWalk(v, m, e, Some(id), role, color, c, cur);
      var more := ExprWalkOf(v, rest, e, id, color, c + Size(m), first.cursor);
      assert ExprWalkOf(v, ks, e, id, color, c, cur) == Trace(first.ops + more.ops, more.cursor);
      assert RootsOf(ks, c, e.Some?) == Roots(m, c, e.Some?) + RootsOf(rest, c + Size(m), e.Some?);
      ExprClusters(v, m, e, Some(id), role, color, c, cur);
      ExprClustersOf(v, rest, e, id, color, c + Size(m), first.cursor);
      ClustersAppend(first.ops, more.ops);
  }

  /** The expression graph gets one edge per non-root member, to or from its parent as the role says, with dir=back. */
  lemma {:induction false} ExprEdges(v: Variant, n: Node, e: Option<nat>, parent: Option<nat>, role: string,
                                   color: string, c: nat, cur: Vertex)
    ensures var x := ExprWalk(v, n, e, parent, role, color, c, cur); Arcs(x.ops) == ExprArcs(n, c, e.Some?, parent, role)
  {
    var id := c + 1;
    var k := n.kind;
    var opens := Opens(k, e.Some?);
    var inner := if !Joins(k, e.Some?) then None else if opens then Some(id) else e;
    var start := if opens then Id(id) else cur;
    var kids := ExprWalkOf(v, n.children, inner, id, Colour(k, color), id, start);
    var open := if opens then [OrderEdge(cur, Id(id)), AddSubgraph(Main, id, Caption(v, n.coord), NoStyle)] else [];
    var own :=
      if inner.Some? then
        NodeOps(Cluster(inner.value), id, ExprLabel(k, TreeLabel(n), e.Some?), if opens then None else parent, "",
                Colour(k, color), Inverted(role), Shape(k), "back", ExprStyle(k, e.Some?))
      else [];
    JoinsWithout(k, e.Some?);
    ExprEdgesOf(v, n.children, inner, id, Colour(k, color), id, start);
    ArcsAppend(open, own);
    ArcsAppend(open + own, kids.ops);
    if opens { OpenArcs(cur, id, Caption(v, n.coord)); }
    if inner.Some? { NodeOpsArcs(Cluster(inner.value), id, ExprLabel(k, TreeLabel(n), e.Some?), if opens then None else parent, "", Colour(k, color), Inverted(role), Shape(k), "back", ExprStyle(k, e.Some?)); }
    EmptyNeutral(Arcs(own));
    EmptyNeutral(Arcs(open));
  }

  lemma {:induction false} ExprEdgesOf(v: Variant, ks: Children, e: Option<nat>, id: nat, color: string,
                                     c: nat, cur: Vertex)
    ensures var x := ExprWalkOf(v, ks, e, id, color, c, cur); Arcs(x.ops) == ExprArcsOf(ks, c, e.Some?, id)
  {
    match ks
    case Nil =>
    case Cons(role, m, rest) =>
      var first := ExprWalk(v, m, e, Some(id), role, color, c, cur);
      var more := ExprWalkOf(v, rest, e, id, color, c + Size(m), first.cursor);
      assert ExprWalkOf(v, ks, e, id, color, c, cur) == Trace(first.ops + more.ops, more.cursor);
      assert ExprArcsOf(ks, c, e.Some?, id) == ExprArcs(m, c, e.Some?, Some(id), role) + ExprArcsOf(rest, c + Size(m), e.Some?, id);
      ExprEdges(v, m, e, Some(id), role, color, c, cur);
      ExprEdgesOf(v, rest, e, id, color, c + Size(m), first.cursor);
      ArcsAppend(first.ops, more.ops);
  }

  /** The ordering subgraph gets a chain of edges from the cursor through
      every expression root in pre-order, and the cursor ends on the last
      root (or stays put when there is none). */
  lemma {:induction false} ExprChain(v: Variant, n: Node, e: Option<nat>, parent: Option<nat>, role: string,
                                   color: string, c: nat, cur: Vertex)
    ensures var x := ExprWalk(v, n, e, parent, role, color, c, cur);
      Links(x.ops) == Chain(cur, Roots(n, c, e.Some?)) && x.cursor == LastOr(cur, Roots(n, c, e.Some?))
  {
    var id := c + 1;
    var k := n.kind;
    var opens := Opens(k, e.Some?);
    var inner := if !Joins(k, e.Some?) then None else if opens then Some(id) else e;
    var start := if opens then Id(id) else cur;
    var kids := ExprWalkOf(v, n.children, inner, id, Colour(k, color), id, start);
    var open := if opens then [OrderEdge(cur, Id(id)), AddSubgraph(Main, id, Caption(v, n.coord), NoStyle)] else [];
    var own :=
      if inner.Some? then
        NodeOps(Cluster(inner.value), id, ExprLabel(k, TreeLabel(n), e.Some?), if opens then None else parent, "",
                Colour(k, color), Inverted(role), Shape(k), "back", ExprStyle(k, e.Some?))
      else [];
    JoinsWithout(k, e.Some?);
    ExprChainOf(v, n.children, inner, id, Colour(k, color), id, start);
    ChainRoots(n, c, e.Some?, cur);
    LinksAppend(open, own);
    LinksAppend(open + own, kids.ops);
    if opens { OpenLinks(cur, id, Caption(v, n.coord)); }
    if inner.Some? { NodeOpsQuiet(Cluster(inner.value), id, ExprLabel(k, TreeLabel(n), e.Some?), if opens then None else parent, "", Colour(k, color), Inverted(role), Shape(k), "back", ExprStyle(k, e.Some?)); }
    EmptyNeutral(Links(own));
    EmptyNeutral(Links(open));
  }

  lemma {:induction false} ExprChainOf(v: Variant, ks: Children, e: Option<nat>, id: nat, color: string,
                                     c: nat, cur: Vertex)
    ensures var x := ExprWalkOf(v, ks, e, id, color, c, cur);
      Links(x.ops) == Chain(cur, RootsOf(ks, c, e.Some?)) && x.cursor == LastOr(cur, RootsOf(ks, c, e.Some?))
  {
    match ks
    case Nil =>
    case Cons(role, m, rest) =>
      var first := ExprWalk(v, m, e, Some(id), role, color, c, cur);
      var more := ExprWalkOf(v, rest, e, id, color, c + Size(m), first.cursor);
      var r1, r2 := Roots(m, c, e.Some?), RootsOf(rest, c + Size(m), e.Some?);
      ExprChain(v, m, e, Some(id), role, color, c, cur);
      ExprChainOf(v, rest, e, id, color, c + Size(m), first.cursor);
      LinksAppend(first.ops, more.ops);
      ChainAppend(cur, r1, r2);
      LastOrAppend(cur, r1, r2);
      assert ExprWalkOf(v, ks, e, id, color, c, cur) == Trace(first.ops + more.ops, more.cursor);
      assert RootsOf(ks, c, e.Some?) == r1 + r2;
  }
}
