/** The clustered post-order dump (ast-tests/ast_graph_subgraphs.py): every
    AST node becomes a filled node added after its children; the children of
    an assignment, a unary operation, a return and a compound statement go
    into a cluster subgraph named after that node, and a node's colour is
    fixed by its kind or handed down from its parent. */
module SubgraphDump {
  import opened Util
  import opened Sinks
  import opened Ast
  import opened Traversal

  /** The node types whose children are drawn inside a cluster of their own. */
  predicate Boxed(k: Kind)
  {
    k.Assignment? || k.UnaryOp? || k.Return? || k.Compound?
  }

  /** The fill colour of a node of kind k whose parent was coloured `inherited`. */
  function Paint(k: Kind, inherited: string): (r: string)
    ensures k.Assignment? || k.UnaryOp? ==> r == "green"
    ensures k.Return? ==> r == "red"
    ensures k.FuncDef? && k.declName == "main" ==> r == "yellow"
    ensures r == "green" || r == "red" || r == "yellow" || r == inherited
    ensures !(k.Assignment? || k.UnaryOp? || k.Return? || (k.FuncDef? && k.declName == "main")) ==> r == inherited
  {
    match k
    case Assignment(_) => "green"
    case UnaryOp(_) => "green"
    case Return => "red"
    case FuncDef(name) => if name == "main" then "yellow" else inherited
    case _ => inherited
  }

  /** Where the children of node `id`, entered in `g`, are drawn. */
  function Inside(k: Kind, g: Target, id: nat): Target
  {
    if Boxed(k) then Cluster(id) else g
  }

  /** What parse_node(g, node, parent_id, edge_label, color) appends when
      entered with counter c: the cluster, if the node opens one, then the
      children's subtrees, then the node itself in `g`. */
  function Walk(n: Node, g: Target, parent: Option<nat>, role: string, color: string, c: nat): seq<Op>
  {
    var id := c + 1;
    var paint := Paint(n.kind, color);
    (if Boxed(n.kind) then [AddSubgraph(g, id, "", NoStyle)] else []) +
    WalkOf(n.children, Inside(n.kind, g, id), id, paint, id) +
    NodeOps(g, id, TreeLabel(n), parent, role, paint, false, "", "", Filled)
  }

  /** The loop over the children of node `id`, drawn in `sub` and coloured
      `color`, entered with counter c. */
  function WalkOf(ks: Children, sub: Target, id: nat, color: string, c: nat): seq<Op>
  {
    match ks
    case Nil => []
    case Cons(role, m, rest) => Walk(m, sub, Some(id), role, color, c) + WalkOf(rest, sub, id, color, c + Size(m))
  }

  /** The whole script: the root, white, in the root graph, with counter 0. */
  function Draw(ast: Node): seq<Op>
  {
    Walk(ast, Main, None, "", "white", 0)
  }

  // ---- reference definitions ----

  /** The ids of the nodes that own a cluster, in pre-order. */
  function Boxes(n: Node, c: nat): seq<nat>
  {
    (if Boxed(n.kind) then [c + 1] else []) + BoxesOf(n.children, c + 1)
  }

  function BoxesOf(ks: Children, c: nat): seq<nat>
  {
    match ks
    case Nil => []
    case Cons(_, m, rest) => Boxes(m, c) + BoxesOf(rest, c + Size(m))
  }

  /** Where node x of the subtree entered with counter c in `g`, under a
      parent coloured `color`, is drawn: found top-down, passing each node's
      colour and children's sink to the subtree that holds x. */
  function Seat(n: Node, g: Target, color: string, c: nat, x: nat): Option<Placed>
  {
    var paint := Paint(n.kind, color);
    if x == c + 1 then Some(Placed(x, g, TreeLabel(n), paint, "", Filled))
    else SeatOf(n.children, Inside(n.kind, g, c + 1), paint, c + 1, x)
  }

  function SeatOf(ks: Children, sub: Target, color: string, c: nat, x: nat): Option<Placed>
  {
    match ks
    case Nil => None
    case Cons(_, m, rest) =>
      if x <= c + Size(m) then Seat(m, sub, color, c, x) else SeatOf(rest, sub, color, c + Size(m), x)
  }

  /** Every node in `ns` is drawn where Seat puts it. */
  ghost predicate Seated(ns: seq<Placed>, n: Node, g: Target, color: string, c: nat)
  {
    forall i :: 0 <= i < |ns| ==> Seat(n, g, color, c, ns[i].id) == Some(ns[i])
  }

  ghost predicate SeatedOf(ns: seq<Placed>, ks: Children, sub: Target, color: string, c: nat)
  {
    forall i :: 0 <= i < |ns| ==> SeatOf(ks, sub, color, c, ns[i].id) == Some(ns[i])
  }

  // ---- facts about the reference definitions ----

  /** The cluster owners are increasing ids of the subtree. */
  lemma {:induction false} BoxesRange(n: Node, c: nat)
    ensures Increasing(Boxes(n, c)) && Within(Boxes(n, c), c, c + Size(n))
  {
    BoxesOfRange(n.children, c + 1);
    var own: seq<nat> := if Boxed(n.kind) then [c + 1] else [];
    IncreasingAppend(own, BoxesOf(n.children, c + 1), c, c + 1, c + Size(n));
  }

  lemma {:induction false} BoxesOfRange(ks: Children, c: nat)
    ensures Increasing(BoxesOf(ks, c)) && Within(BoxesOf(ks, c), c, c + SizeOf(ks))
  {
    match ks
    case Nil =>
    case Cons(_, m, rest) =>
      BoxesRange(m, c);
      BoxesOfRange(rest, c + Size(m));
      IncreasingAppend(Boxes(m, c), BoxesOf(rest, c + Size(m)), c, c + Size(m), c + SizeOf(ks));
  }

  /** An id owns a cluster exactly when it names a node of a boxed kind. */
  lemma {:induction false} BoxesFind(n: Node, c: nat, x: nat)
    ensures x in Boxes(n, c) <==> Find(n, c, x).Some? && Boxed(Find(n, c, x).value.kind)
  {
    BoxesOfRange(n.children, c + 1);
    BoxesOfFind(n.children, c + 1, x);
    if x == c + 1 {
      assert x !in BoxesOf(n.children, c + 1);
    }
  }

  lemma {:induction false} BoxesOfFind(ks: Children, c: nat, x: nat)
    ensures x in BoxesOf(ks, c) <==> FindOf(ks, c, x).Some? && Boxed(FindOf(ks, c, x).value.kind)
  {
    match ks
    case Nil =>
    case Cons(_, m, rest) =>
      BoxesRange(m, c);
      BoxesOfRange(rest, c + Size(m));
      BoxesFind(m, c, x);
      BoxesOfFind(rest, c + Size(m), x);
      if x <= c + Size(m) {
        assert x !in BoxesOf(rest, c + Size(m));
      } else {
        assert x !in Boxes(m, c);
      }
  }

  /** Exactly the ids of the subtree have a seat. */
  lemma {:induction false} SeatRange(n: Node, g: Target, color: string, c: nat, x: nat)
    ensures Seat(n, g, color, c, x).Some? <==> c < x <= c + Size(n)
  {
    if x != c + 1 { SeatOfRange(n.children, Inside(n.kind, g, c + 1), Paint(n.kind, color), c + 1, x); }
  }

  lemma {:induction false} SeatOfRange(ks: Children, sub: Target, color: string, c: nat, x: nat)
    ensures SeatOf(ks, sub, color, c, x).Some? <==> c < x <= c + SizeOf(ks)
  {
    match ks
    case Nil =>
    case Cons(_, m, rest) =>
      SeatRange(m, sub, color, c, x);
      if x > c + Size(m) { SeatOfRange(rest, sub, color, c + Size(m), x); }
  }

  /** What a seat says about node x: its id and its label; its colour is the
      one its kind fixes, or else one of the fixed colours or the colour the
      subtree was entered with; and it is drawn either in the sink the
      subtree was entered in or in the cluster of a boxed node whose subtree
      holds x. */
  lemma {:induction false} SeatFacts(n: Node, g: Target, color: string, c: nat, x: nat)
    requires Seat(n, g, color, c, x).Some?
    ensures var p, m := Seat(n, g, color, c, x).value, Find(n, c, x);
      m.Some? && p.id == x && p.style == Filled && p.shape == "" && p.text == TreeLabel(m.value) &&
      (m.value.kind.Assignment? || m.value.kind.UnaryOp? ==> p.color == "green") &&
      (m.value.kind.Return? ==> p.color == "red") &&
      (m.value.kind.FuncDef? && m.value.kind.declName == "main" ==> p.color == "yellow") &&
      (p.color == "green" || p.color == "red" || p.color == "yellow" || p.color == color) &&
      (p.at == g || (p.at.Cluster? && c < p.at.owner < x && Find(n, c, p.at.owner).Some? &&
                     Boxed(Find(n, c, p.at.owner).value.kind) && x < p.at.owner + Size(Find(n, c, p.at.owner).value)))
  {
    if x != c + 1 {
      SeatOfFacts(n.children, Inside(n.kind, g, c + 1), Paint(n.kind, color), c + 1, x);
      var p := Seat(n, g, color, c, x).value;
      if p.at != Inside(n.kind, g, c + 1) {
        FindOfRange(n.children, c + 1, p.at.owner);
        assert Find(n, c, p.at.owner) == FindOf(n.children, c + 1, p.at.owner);
      } else if Boxed(n.kind) {
        SeatOfRange(n.children, Inside(n.kind, g, c + 1), Paint(n.kind, color), c + 1, x);
      }
    }
  }

  lemma {:induction false} SeatOfFacts(ks: Children, sub: Target, color: string, c: nat, x: nat)
    requires SeatOf(ks, sub, color, c, x).Some?
    ensures var p, m := SeatOf(ks, sub, color, c, x).value, FindOf(ks, c, x);
      m.Some? && p.id == x && p.style == Filled && p.shape == "" && p.text == TreeLabel(m.value) &&
      (m.value.kind.Assignment? || m.value.kind.UnaryOp? ==> p.color == "green") &&
      (m.value.kind.Return? ==> p.color == "red") &&
      (m.value.kind.FuncDef? && m.value.kind.declName == "main" ==> p.color == "yellow") &&
      (p.color == "green" || p.color == "red" || p.color == "yellow" || p.color == color) &&
      (p.at == sub || (p.at.Cluster? && c < p.at.owner < x && FindOf(ks, c, p.at.owner).Some? &&
                       Boxed(FindOf(ks, c, p.at.owner).value.kind) && x < p.at.owner + Size(FindOf(ks, c, p.at.owner).value)))
  {
    match ks
    case Nil =>
    case Cons(_, m, rest) =>
      if x <= c + Size(m) {
        SeatFacts(m, sub, color, c, x);
        var p := Seat(m, sub, color, c, x).value;
        if p.at != sub {
          FindRange(m, c, p.at.owner);
        }
      } else {
        SeatOfFacts(rest, sub, color, c + Size(m), x);
        var p := SeatOf(rest, sub, color, c + Size(m), x).value;
        if p.at != sub {
          FindOfRange(rest, c + Size(m), p.at.owner);
        }
      }
  }

  lemma SeatedAppend(a: seq<Placed>, b: seq<Placed>, n: Node, g: Target, color: string, c: nat)
    requires Seated(a, n, g, color, c) && Seated(b, n, g, color, c)
    ensures Seated(a + b, n, g, color, c)
  {
    forall i | 0 <= i < |a + b|
      ensures Seat(n, g, color, c, (a + b)[i].id) == Some((a + b)[i])
    {
      if i < |a| { assert (a + b)[i] == a[i]; } else { assert (a + b)[i] == b[i - |a|]; }
    }
  }

  /** The children's nodes, seen from the node above them. */
  lemma SeatedUnder(ns: seq<Placed>, n: Node, g: Target, color: string, c: nat)
    requires SeatedOf(ns, n.children, Inside(n.kind, g, c + 1), Paint(n.kind, color), c + 1)
    ensures Seated(ns, n, g, color, c)
  {
    forall i | 0 <= i < |ns|
      ensures Seat(n, g, color, c, ns[i].id) == Some(ns[i])
    {
      SeatOfRange(n.children, Inside(n.kind, g, c + 1), Paint(n.kind, color), c + 1, ns[i].id);
    }
  }

  /** The first child's nodes and the later children's, seen from the whole list. */
  lemma SeatedCons(a: seq<Placed>, b: seq<Placed>, role: string, m: Node, rest: Children, sub: Target, color: string, c: nat)
    ensures Seated(a, m, sub, color, c) && SeatedOf(b, rest, sub, color, c + Size(m)) ==>
            SeatedOf(a + b, Cons(role, m, rest), sub, color, c)
  {
    if Seated(a, m, sub, color, c) && SeatedOf(b, rest, sub, color, c + Size(m)) {
    forall i | 0 <= i < |a + b|
      ensures SeatOf(Cons(role, m, rest), sub, color, c, (a + b)[i].id) == Some((a + b)[i])
    {
      if i < |a| {
        assert (a + b)[i] == a[i];
        SeatRange(m, sub, color, c, a[i].id);
      } else {
        assert (a + b)[i] == b[i - |a|];
        SeatOfRange(rest, sub, color, c + Size(m), b[i - |a|].id);
      }
    }
    }
  }

  // ---- the walk against the reference definitions ----

  /** Nodes are added in post-order. */
  lemma {:induction false} WalkIds(n: Node, g: Target, parent: Option<nat>, role: string, color: string, c: nat)
    ensures NodeIds(Walk(n, g, parent, role, color, c)) == PostOrder(n, c)
  {
    var id, paint := c + 1, Paint(n.kind, color);
    var open := if Boxed(n.kind) then [AddSubgraph(g, id, "", NoStyle)] else [];
    var kids := WalkOf(n.children, Inside(n.kind, g, id), id, paint, id);
    var own := NodeOps(g, id, TreeLabel(n), parent, role, paint, false, "", "", Filled);
    assert Walk(n, g, parent, role, color, c) == open + kids + own;
    WalkOfIds(n.children, Inside(n.kind, g, id), id, paint, id);
    NodeOpsIds(g, id, TreeLabel(n), parent, role, paint, false, "", "", Filled);
    if Boxed(n.kind) { OneOpIds(open[0]); } else { assert open == []; }
    ThreeIds(open, kids, own, PostOrderOf(n.children, id), id);
  }

  lemma {:induction false} WalkOfIds(ks: Children, sub: Target, id: nat, color: string, c: nat)
    ensures NodeIds(WalkOf(ks, sub, id, color, c)) == PostOrderOf(ks, c)
  {
    match ks
    case Nil =>
    case Cons(role, m, rest) =>
      WalkIds(m, sub, Some(id), role, color, c);
      WalkOfIds(rest, sub, id, color, c + Size(m));
      NodeIdsAppend(Walk(m, sub, Some(id), role, color, c), WalkOf(rest, sub, id, color, c + Size(m)));
  }

  /** Edges are those of the post-order tree walk: parent to child, labelled with the role. */
  lemma {:induction false} WalkArcs(n: Node, g: Target, parent: Option<nat>, role: string, color: string, c: nat)
    ensures Arcs(Walk(n, g, parent, role, color, c)) == TreeArcs(n, c, parent, role)
  {
    var id, paint := c + 1, Paint(n.kind, color);
    var open := if Boxed(n.kind) then [AddSubgraph(g, id, "", NoStyle)] else [];
    var kids := WalkOf(n.children, Inside(n.kind, g, id), id, paint, id);
    var own := NodeOps(g, id, TreeLabel(n), parent, role, paint, false, "", "", Filled);
    assert Walk(n, g, parent, role, color, c) == open + kids + own;
    WalkOfArcs(n.children, Inside(n.kind, g, id), id, paint, id);
    NodeOpsArcs(g, id, TreeLabel(n), parent, role, paint, false, "", "", Filled);
    if Boxed(n.kind) { OneOpArcs(open[0]); } else { assert open == []; }
    ArcsAppend(open, kids);
    EmptyNeutral(Arcs(kids));
    assert Arcs(open + kids) == TreeArcsOf(n.children, id, id);
    ArcsAppend(open + kids, own);
  }

  lemma {:induction false} WalkOfArcs(ks: Children, sub: Target, id: nat, color: string, c: nat)
    ensures Arcs(WalkOf(ks, sub, id, color, c)) == TreeArcsOf(ks, c, id)
  {
    match ks
    case Nil =>
    case Cons(role, m, rest) =>
      WalkArcs(m, sub, Some(id), role, color, c);
      WalkOfArcs(rest, sub, id, color, c + Size(m));
      ArcsAppend(Walk(m, sub, Some(id), role, color, c), WalkOf(rest, sub, id, color, c + Size(m)));
  }

  /** A cluster is opened for each boxed node, in pre-order. */
  lemma {:induction false} WalkClusters(n: Node, g: Target, parent: Option<nat>, role: string, color: string, c: nat)
    ensures Clusters(Walk(n, g, parent, role, color, c)) == Boxes(n, c)
  {
    var id, paint := c + 1, Paint(n.kind, color);
    var open := if Boxed(n.kind) then [AddSubgraph(g, id, "", NoStyle)] else [];
    var kids := WalkOf(n.children, Inside(n.kind, g, id), id, paint, id);
    var own := NodeOps(g, id, TreeLabel(n), parent, role, paint, false, "", "", Filled);
    assert Walk(n, g, parent, role, color, c) == open + kids + own;
    WalkOfClusters(n.children, Inside(n.kind, g, id), id, paint, id);
    NodeOpsQuiet(g, id, TreeLabel(n), parent, role, paint, false, "", "", Filled);
    if Boxed(n.kind) { OneOpClusters(open[0]); } else { assert open == []; }
    ClustersAppend(open, kids);
    ClustersAppend(open + kids, own);
  }

  lemma {:induction false} WalkOfClusters(ks: Children, sub: Target, id: nat, color: string, c: nat)
    ensures Clusters(WalkOf(ks, sub, id, color, c)) == BoxesOf(ks, c)
  {
    match ks
    case Nil =>
    case Cons(role, m, rest) =>
      WalkClusters(m, sub, Some(id), role, color, c);
      WalkOfClusters(rest, sub, id, color, c + Size(m));
      ClustersAppend(Walk(m, sub, Some(id), role, color, c), WalkOf(rest, sub, id, color, c + Size(m)));
  }

  /** Every node is drawn where, and as, Seat says. */
  lemma {:induction false} WalkNodes(n: Node, g: Target, parent: Option<nat>, role: string, color: string, c: nat)
    ensures Seated(Nodes(Walk(n, g, parent, role, color, c)), n, g, color, c)
  {
    var id, paint := c + 1, Paint(n.kind, color);
    var open := if Boxed(n.kind) then [AddSubgraph(g, id, "", NoStyle)] else [];
    var kids := WalkOf(n.children, Inside(n.kind, g, id), id, paint, id);
    var own := NodeOps(g, id, TreeLabel(n), parent, role, paint, false, "", "", Filled);
    assert Walk(n, g, parent, role, color, c) == open + kids + own;
    WalkOfNodes(n.children, Inside(n.kind, g, id), id, paint, id);
    SeatedUnder(Nodes(kids), n, g, color, c);
    NodeOpsNodes(g, id, TreeLabel(n), parent, role, paint, false, "", "", Filled);
    assert Seated(Nodes(own), n, g, color, c);
    if Boxed(n.kind) { OneOpNodes(open[0]); } else { assert open == []; }
    NodesAppend(open, kids);
    NodesAppend(open + kids, own);
    SeatedAppend(Nodes(open + kids), Nodes(own), n, g, color, c);
  }

  lemma {:induction false} WalkOfNodes(ks: Children, sub: Target, id: nat, color: string, c: nat)
    ensures SeatedOf(Nodes(WalkOf(ks, sub, id, color, c)), ks, sub, color, c)
  {
    match ks
    case Nil =>
    case Cons(role, m, rest) =>
      WalkNodes(m, sub, Some(id), role, color, c);
      WalkOfNodes(rest, sub, id, color, c + Size(m));
      WalkOfSeated(role, m, rest, sub, id, color, c);
  }

  /** The first child's walk and the later children's, seen from the whole list. */
  lemma WalkOfSeated(role: string, m: Node, rest: Children, sub: Target, id: nat, color: string, c: nat)
    ensures Seated(Nodes(Walk(m, sub, Some(id), role, color, c)), m, sub, color, c) &&
            SeatedOf(Nodes(WalkOf(rest, sub, id, color, c + Size(m))), rest, sub, color, c + Size(m)) ==>
            SeatedOf(Nodes(WalkOf(Cons(role, m, rest), sub, id, color, c)), Cons(role, m, rest), sub, color, c)
  {
    var first, more := Walk(m, sub, Some(id), role, color, c), WalkOf(rest, sub, id, color, c + Size(m));
    assert WalkOf(Cons(role, m, rest), sub, id, color, c) == first + more;
    NodesAppend(first, more);
    SeatedCons(Nodes(first), Nodes(more), role, m, rest, sub, color, c);
  }

  // ---- what the script draws ----

  /** One node per AST node, ids 1 .. Size(ast) without repeats, the root,
      1, added last. */
  lemma DrawIds(ast: Node)
    ensures var ids := NodeIds(Draw(ast));
      ids == PostOrder(ast, 0) && |ids| == Size(ast) && Distinct(ids) && Within(ids, 0, Size(ast)) &&
      ids[|ids| - 1] == 1
  {
    WalkIds(ast, Main, None, "", "white", 0);
    PostOrderFacts(ast, 0);
  }

  /** One edge into every node but the root, in the order the nodes are
      added, each from a smaller id and labelled with the child's role. */
  lemma DrawEdges(ast: Node)
    ensures var log := Draw(ast);
      Heads(Arcs(log)) + [1] == NodeIds(log) && Downward(Arcs(log), 0, Size(ast), None, "")
  {
    var arcs := TreeArcs(ast, 0, None, "");
    WalkIds(ast, Main, None, "", "white", 0);
    WalkArcs(ast, Main, None, "", "white", 0);
    assert Arcs(Draw(ast)) == arcs;
    TreeArcsHeads(ast, 0, None, "");
    EmptyNeutral(PostOrderOf(ast.children, 1));
    TreeArcsDownward(ast, 0, None, "");
  }

  /** The clusters opened, each once and in increasing order, are named after
      exactly the nodes of the four boxed kinds. */
  lemma DrawClusters(ast: Node, x: nat)
    ensures var cs := Clusters(Draw(ast));
      Increasing(cs) && (x in cs <==> Find(ast, 0, x).Some? && Boxed(Find(ast, 0, x).value.kind))
  {
    WalkClusters(ast, Main, None, "", "white", 0);
    BoxesRange(ast, 0);
    BoxesFind(ast, 0, x);
  }

  /** Every node added is filled and labelled as the AST node its id names;
      it is green, red or yellow as its kind demands and otherwise one of
      those or white; it goes into the root graph or into the cluster of a
      boxed node above it. */
  lemma DrawNodes(ast: Node, i: nat)
    requires i < |Nodes(Draw(ast))|
    ensures var p, m := Nodes(Draw(ast))[i], Find(ast, 0, Nodes(Draw(ast))[i].id);
      Seat(ast, Main, "white", 0, p.id) == Some(p) &&
      m.Some? && p.style == Filled && p.text == TreeLabel(m.value) &&
      (m.value.kind.Assignment? || m.value.kind.UnaryOp? ==> p.color == "green") &&
      (m.value.kind.Return? ==> p.color == "red") &&
      (m.value.kind.FuncDef? && m.value.kind.declName == "main" ==> p.color == "yellow") &&
      (p.color == "green" || p.color == "red" || p.color == "yellow" || p.color == "white") &&
      (p.at == Main || (p.at.Cluster? && 0 < p.at.owner < p.id && Find(ast, 0, p.at.owner).Some? &&
                        Boxed(Find(ast, 0, p.at.owner).value.kind) &&
                        p.id < p.at.owner + Size(Find(ast, 0, p.at.owner).value)))
  {
    var p := Nodes(Draw(ast))[i];
    WalkNodes(ast, Main, None, "", "white", 0);
    assert Seat(ast, Main, "white", 0, p.id) == Some(p);
    SeatFacts(ast, Main, "white", 0, p.id);
  }

  /** The script's state: the counter and the calls made on the root graph
      and its subgraphs, in order. */
  class Script {
    var counter: nat
    var graph: seq<Op>

    constructor ()
      ensures counter == 0 && graph == []
    {
      counter := 0;
      graph := [];
    }

    /** add_node(graph, ...): a filled node in `g`, then the edge from its parent, if it has one. */
    method AddNode(g: Target, id: nat, text: string, parent: Option<nat>, edgeLabel: string, color: string)
      modifies this
      ensures graph == old(graph) + NodeOps(g, id, text, parent, edgeLabel, color, false, "", "", Filled)
      ensures counter == old(counter)
    {
      graph := graph + [Op.AddNode(g, Id(id), text, color, "", Filled)];
      if parent.Some? {
        graph := graph + [AddEdge(g, Id(parent.value), Id(id), edgeLabel, "", NoStyle)];
      }
    }

    /** parse_node: take the next counter value, pick the colour and open
        the cluster the kind calls for, parse the children in order into it,
        then add the node to `g`. */
    method ParseNode(g: Target, n: Node, parent: Option<nat>, role: string, color: string)
      modifies this
      ensures counter == old(counter) + Size(n)
      ensures graph == old(graph) + Walk(n, g, parent, role, color, old(counter))
      decreases Size(n), 0
    {
      counter := counter + 1;
      var id := counter;
      var text := Label(n);
      var paint := color;
      var sub := g;
      match n.kind {
        case Assignment(_) =>
          paint := "green";
          sub := OpenCluster(g, id);
        case UnaryOp(_) =>
          paint := "green";
          sub := OpenCluster(g, id);
        case Return =>
          paint := "red";
          sub := OpenCluster(g, id);
        case FuncDef(name) =>
          if name == "main" { paint := "yellow"; }
        case Compound =>
          sub := OpenCluster(g, id);
        case _ =>
      }
      assert paint == Paint(n.kind, color) && sub == Inside(n.kind, g, id);
      ghost var framed := graph;
      ParseChildren(sub, n.children, id, paint);
      AddNode(g, id, text, parent, role, paint);
      Assemble(n, g, parent, role, color, old(counter), old(graph), framed, graph);
    }

    /** graph.subgraph(name='cluster' + id): open the cluster named after node `id` in `g`. */
    method OpenCluster(g: Target, id: nat) returns (sub: Target)
      modifies this
      ensures sub == Cluster(id)
      ensures graph == old(graph) + [AddSubgraph(g, id, "", NoStyle)] && counter == old(counter)
    {
      graph := graph + [AddSubgraph(g, id, "", NoStyle)];
      sub := Cluster(id);
    }

    /** The loop over node.children(): each child parsed into `sub` under
        node `id`, coloured `color`. */
    method ParseChildren(sub: Target, ks: Children, id: nat, color: string)
      modifies this
      ensures counter == old(counter) + SizeOf(ks)
      ensures graph == old(graph) + WalkOf(ks, sub, id, color, old(counter))
      decreases SizeOf(ks), 1
    {
      var rest := ks;
      while rest.Cons?
        invariant old(counter) <= counter && counter + SizeOf(rest) == old(counter) + SizeOf(ks)
        invariant graph + WalkOf(rest, sub, id, color, counter) == old(graph) + WalkOf(ks, sub, id, color, old(counter))
        decreases rest
      {
        ghost var before, c := graph, counter;
        ParseNode(sub, rest.node, Some(id), rest.role, color);
        Step(before, graph, Walk(rest.node, sub, Some(id), rest.role, color, c),
             WalkOf(rest.rest, sub, id, color, counter), WalkOf(rest, sub, id, color, c));
        rest := rest.rest;
      }
    }
  }

  /** The pieces parse_node appends, in order, make up Walk: the cluster
      (`before` to `framed`), the children and the node (`framed` to `after`). */
  lemma Assemble(n: Node, g: Target, parent: Option<nat>, role: string, color: string, c: nat,
                 before: seq<Op>, framed: seq<Op>, after: seq<Op>)
    requires framed == before + if Boxed(n.kind) then [AddSubgraph(g, c + 1, "", NoStyle)] else []
    requires after == framed + WalkOf(n.children, Inside(n.kind, g, c + 1), c + 1, Paint(n.kind, color), c + 1) +
                      NodeOps(g, c + 1, TreeLabel(n), parent, role, Paint(n.kind, color), false, "", "", Filled)
    ensures after == before + Walk(n, g, parent, role, color, c)
  {
  }

  /** The script body: parse the AST from the root, in the root graph, white, with counter 0. */
  method Run(ast: Node) returns (log: seq<Op>)
    ensures log == Draw(ast)
  {
    var s := new Script();
    s.ParseNode(Main, ast, None, "", "white");
    log := s.graph;
  }
}
