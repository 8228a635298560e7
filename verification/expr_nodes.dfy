/** The nodes of the two graphs the expression-extracting walk draws, each
    with where it is drawn and how: a reference definition per graph,
    written top-down from the AST node an id names, the walks proved to
    draw every node as it says, and what the references say about each
    node's graph object, label, colour, shape and style. */
module ExprNodes {
  import opened Util
  import opened Sinks
  import opened Ast
  import opened Traversal
  import opened ExprClassify
  import opened ExprViews
  import opened Transducer

  /** A node of kind k drawn in colour `col`, in a subtree entered with
      colour `entry`: the kinds that fix a colour have it, and every other
      node has one of the fixed colours or the entry colour, handed down. */
  ghost predicate Tinted(k: Kind, col: string, entry: string)
  {
    (k.Assignment? || k.UnaryOp? || k.Decl? ==> col == "green") &&
    (k.Return? ==> col == "red") &&
    (k.BinaryOp? ==> col == "yellow") &&
    (k.Constant? ==> col == "pink") &&
    (k.ID? || k.TypeDecl? ==> col == "lightblue") &&
    (col == "green" || col == "red" || col == "yellow" || col == "pink" || col == "lightblue" || col == entry)
  }

  // ---- the tree graph ----

  /** Where the children of node `id` go in the tree graph: into the node's
      own cluster when it has one, else where the node went. */
  function TreeInside(v: Variant, k: Kind, g: Target, id: nat): Target
  {
    if TreeClusterStyle(v, k).Some? then Cluster(id) else g
  }

  /** The tree-graph node with id x, found top-down in the subtree entered
      with counter c, in graph object g, with `active` saying whether an
      expression is open and `color` the colour handed down. */
  function TreeSeat(v: Variant, n: Node, g: Target, active: bool, color: string, c: nat, x: nat): Option<Placed>
  {
    var paint := Colour(n.kind, color);
    if x == c + 1 then Some(Placed(x, g, TreeLabel(n), paint, "", TreeStyle(v, n.kind, active)))
    else TreeSeatOf(v, n.children, TreeInside(v, n.kind, g, c + 1), Joins(n.kind, active), paint, c + 1, x)
  }

  function TreeSeatOf(v: Variant, ks: Children, sub: Target, active: bool, color: string, c: nat, x: nat): Option<Placed>
  {
    match ks
    case Nil => None
    case Cons(_, m, rest) =>
      if x <= c + Size(m) then TreeSeat(v, m, sub, active, color, c, x)
      else TreeSeatOf(v, rest, sub, active, color, c + Size(m), x)
  }

  ghost predicate TreeSeated(ns: seq<Placed>, v: Variant, n: Node, g: Target, active: bool, color: string, c: nat)
  {
    forall i :: 0 <= i < |ns| ==> TreeSeat(v, n, g, active, color, c, ns[i].id) == Some(ns[i])
  }

  ghost predicate TreeSeatedOf(ns: seq<Placed>, v: Variant, ks: Children, sub: Target, active: bool, color: string, c: nat)
  {
    forall i :: 0 <= i < |ns| ==> TreeSeatOf(v, ks, sub, active, color, c, ns[i].id) == Some(ns[i])
  }

  /** Exactly the ids of the subtree have a tree-graph node. */
  lemma {:induction false} TreeSeatRange(v: Variant, n: Node, g: Target, active: bool, color: string, c: nat, x: nat)
    ensures TreeSeat(v, n, g, active, color, c, x).Some? <==> c < x <= c + Size(n)
  {
    if x != c + 1 {
      TreeSeatOfRange(v, n.children, TreeInside(v, n.kind, g, c + 1), Joins(n.kind, active), Colour(n.kind, color), c + 1, x);
    }
  }

  lemma {:induction false} TreeSeatOfRange(v: Variant, ks: Children, sub: Target, active: bool, color: string, c: nat, x: nat)
    ensures TreeSeatOf(v, ks, sub, active, color, c, x).Some? <==> c < x <= c + SizeOf(ks)
  {
    match ks
    case Nil =>
    case Cons(_, m, rest) =>
      TreeSeatRange(v, m, sub, active, color, c, x);
      if x > c + Size(m) { TreeSeatOfRange(v, rest, sub, active, color, c + Size(m), x); }
  }

  /** What the tree graph says about node x: its id, the tree label of the
      AST node x names, the default shape, a colour as Tinted says, filled
      or (by the tool only) filled and dashed; and it is drawn either in the
      graph object the subtree was entered in or in the cluster of an
      assignment, unary operation, declaration or return whose subtree
      holds x. */
  lemma {:induction false} TreeSeatFacts(v: Variant, n: Node, g: Target, active: bool, color: string, c: nat, x: nat)
    requires TreeSeat(v, n, g, active, color, c, x).Some?
    ensures var p, m := TreeSeat(v, n, g, active, color, c, x).value, Find(n, c, x);
      m.Some? && p.id == x && p.text == TreeLabel(m.value) && p.shape == "" && Tinted(m.value.kind, p.color, color) &&
      (p.style == Filled || (v.Tool? && p.style == FilledDashed)) &&
      (p.at == g || (p.at.Cluster? && c < p.at.owner < x && Find(n, c, p.at.owner).Some? &&
                     HasTreeCluster(Find(n, c, p.at.owner).value.kind) && x < p.at.owner + Size(Find(n, c, p.at.owner).value)))
  {
    var sub := TreeInside(v, n.kind, g, c + 1);
    if x != c + 1 {
      TreeSeatOfFacts(v, n.children, sub, Joins(n.kind, active), Colour(n.kind, color), c + 1, x);
      var p := TreeSeat(v, n, g, active, color, c, x).value;
      if p.at != sub {
        FindOfRange(n.children, c + 1, p.at.owner);
        assert Find(n, c, p.at.owner) == FindOf(n.children, c + 1, p.at.owner);
      } else if sub != g {
        TreeSeatOfRange(v, n.children, sub, Joins(n.kind, active), Colour(n.kind, color), c + 1, x);
      }
    }
  }

  lemma {:induction false} TreeSeatOfFacts(v: Variant, ks: Children, sub: Target, active: bool, color: string, c: nat, x: nat)
    requires TreeSeatOf(v, ks, sub, active, color, c, x).Some?
    ensures var p, m := TreeSeatOf(v, ks, sub, active, color, c, x).value, FindOf(ks, c, x);
      m.Some? && p.id == x && p.text == TreeLabel(m.value) && p.shape == "" && Tinted(m.value.kind, p.color, color) &&
      (p.style == Filled || (v.Tool? && p.style == FilledDashed)) &&
      (p.at == sub || (p.at.Cluster? && c < p.at.owner < x && FindOf(ks, c, p.at.owner).Some? &&
                       HasTreeCluster(FindOf(ks, c, p.at.owner).value.kind) && x < p.at.owner + Size(FindOf(ks, c, p.at.owner).value)))
  {
    match ks
    case Nil =>
    case Cons(_, m, rest) =>
      if x <= c + Size(m) {
        TreeSeatFacts(v, m, sub, active, color, c, x);
        var p := TreeSeat(v, m, sub, active, color, c, x).value;
        if p.at != sub { FindRange(m, c, p.at.owner); }
      } else {
        TreeSeatOfFacts(v, rest, sub, active, color, c + Size(m), x);
        var p := TreeSeatOf(v, rest, sub, active, color, c + Size(m), x).value;
        if p.at != sub { FindOfRange(rest, c + Size(m), p.at.owner); }
      }
  }

  lemma TreeSeatedAppend(a: seq<Placed>, b: seq<Placed>, v: Variant, n: Node, g: Target, active: bool, color: string, c: nat)
    requires TreeSeated(a, v, n, g, active, color, c) && TreeSeated(b, v, n, g, active, color, c)
    ensures TreeSeated(a + b, v, n, g, active, color, c)
  {
    forall i | 0 <= i < |a + b|
      ensures TreeSeat(v, n, g, active, color, c, (a + b)[i].id) == Some((a + b)[i])
    {
      if i < |a| { assert (a + b)[i] == a[i]; } else { assert (a + b)[i] == b[i - |a|]; }
    }
  }

  /** The children's nodes, seen from the node above them. */
  lemma TreeSeatedUnder(ns: seq<Placed>, v: Variant, n: Node, g: Target, active: bool, color: string, c: nat)
    requires TreeSeatedOf(ns, v, n.children, TreeInside(v, n.kind, g, c + 1), Joins(n.kind, active), Colour(n.kind, color), c + 1)
    ensures TreeSeated(ns, v, n, g, active, color, c)
  {
    forall i | 0 <= i < |ns|
      ensures TreeSeat(v, n, g, active, color, c, ns[i].id) == Some(ns[i])
    {
      TreeSeatOfRange(v, n.children, TreeInside(v, n.kind, g, c + 1), Joins(n.kind, active), Colour(n.kind, color), c + 1, ns[i].id);
    }
  }

  /** The first child's nodes and the later children's, seen from the whole list. */
  lemma TreeSeatedCons(a: seq<Placed>, b: seq<Placed>, v: Variant, role: string, m: Node, rest: Children,
                       sub: Target, active: bool, color: string, c: nat)
    ensures TreeSeated(a, v, m, sub, active, color, c) && TreeSeatedOf(b, v, rest, sub, active, color, c + Size(m)) ==>
            TreeSeatedOf(a + b, v, Cons(role, m, rest), sub, active, color, c)
  {
    if TreeSeated(a, v, m, sub, active, color, c) && TreeSeatedOf(b, v, rest, sub, active, color, c + Size(m)) {
      forall i | 0 <= i < |a + b|
        ensures TreeSeatOf(v, Cons(role, m, rest), sub, active, color, c, (a + b)[i].id) == Some((a + b)[i])
      {
        if i < |a| {
          assert (a + b)[i] == a[i];
          TreeSeatRange(v, m, sub, active, color, c, a[i].id);
        } else {
          assert (a + b)[i] == b[i - |a|];
          TreeSeatOfRange(v, rest, sub, active, color, c + Size(m), b[i - |a|].id);
        }
      }
    }
  }

  /** Every node of the tree graph is drawn where, and as, TreeSeat says. */
  lemma {:induction false} TreeWalkNodes(v: Variant, n: Node, g: Target, active: bool, parent: Option<nat>,
                                         role: string, color: string, c: nat)
    ensures TreeSeated(Nodes(TreeWalk(v, n, g, active, parent, role, color, c)), v, n, g, active, color, c)
  {
    var id := c + 1;
    var cluster := TreeClusterStyle(v, n.kind);
    var sub := if cluster.Some? then Cluster(id) else g;
    assert sub == TreeInside(v, n.kind, g, id);
    var open := if cluster.Some? then [AddSubgraph(g, id, Caption(v, n.coord), cluster.value)] else [];
    var kids := TreeWalkOf(v, n.children, sub, Joins(n.kind, active), id, Colour(n.kind, color), id);
    var own := NodeOps(g, id, TreeLabel(n), parent, role, Colour(n.kind, color), false, "", "", TreeStyle(v, n.kind, active));
    assert TreeWalk(v, n, g, active, parent, role, color, c) == open + kids + own;
    TreeWalkOfNodes(v, n.children, sub, Joins(n.kind, active), id, Colour(n.kind, color), id);
    TreeSeatedUnder(Nodes(kids), v, n, g, active, color, c);
    NodeOpsNodes(g, id, TreeLabel(n), parent, role, Colour(n.kind, color), false, "", "", TreeStyle(v, n.kind, active));
    assert TreeSeated(Nodes(own), v, n, g, active, color, c);
    if cluster.Some? { OneOpNodes(open[0]); } else { assert open == []; }
    NodesAppend(open, kids);
    NodesAppend(open + kids, own);
    TreeSeatedAppend(Nodes(open + kids), Nodes(own), v, n, g, active, color, c);
  }

  lemma {:induction false} TreeWalkOfNodes(v: Variant, ks: Children, sub: Target, active: bool, id: nat,
                                           color: string, c: nat)
    ensures TreeSeatedOf(Nodes(TreeWalkOf(v, ks, sub, active, id, color, c)), v, ks, sub, active, color, c)
  {
    match ks
    case Nil =>
    case Cons(role, m, rest) =>
      TreeWalkNodes(v, m, sub, active, Some(id), role, color, c);
      TreeWalkOfNodes(v, rest, sub, active, id, color, c + Size(m));
      TreeWalkOfSeated(v, role, m, rest, sub, active, id, color, c);
  }

  /** The first child's walk and the later children's, seen from the whole list. */
  lemma TreeWalkOfSeated(v: Variant, role: string, m: Node, rest: Children, sub: Target, active: bool, id: nat,
                         color: string, c: nat)
    ensures TreeSeated(Nodes(TreeWalk(v, m, sub, active, Some(id), role, color, c)), v, m, sub, active, color, c) &&
            TreeSeatedOf(Nodes(TreeWalkOf(v, rest, sub, active, id, color, c + Size(m))), v, rest, sub, active, color, c + Size(m)) ==>
            TreeSeatedOf(Nodes(TreeWalkOf(v, Cons(role, m, rest), sub, active, id, color, c)), v, Cons(role, m, rest), sub, active, color, c)
  {
    var first, more := TreeWalk(v, m, sub, active, Some(id), role, color, c), TreeWalkOf(v, rest, sub, active, id, color, c + Size(m));
    assert TreeWalkOf(v, Cons(role, m, rest), sub, active, id, color, c) == first + more;
    NodesAppend(first, more);
    TreeSeatedCons(Nodes(first), Nodes(more), v, role, m, rest, sub, active, color, c);
  }

  /** Colours are handed down the tree: the node at the head of every tree
      edge below the subtree's root has the colour its kind gives when
      handed the colour of the node at the edge's tail. */
  lemma {:induction false} TreeInherits(v: Variant, n: Node, g: Target, active: bool, parent: Option<nat>, role: string,
                                        color: string, c: nat, i: nat)
    requires i < |TreeArcs(n, c, parent, role)| && TreeArcs(n, c, parent, role)[i].dst != c + 1
    ensures var a := TreeArcs(n, c, parent, role)[i];
      var up, down := TreeSeat(v, n, g, active, color, c, a.src), TreeSeat(v, n, g, active, color, c, a.dst);
      up.Some? && down.Some? && Find(n, c, a.dst).Some? &&
      down.value.color == Colour(Find(n, c, a.dst).value.kind, up.value.color)
  {
    var kids := TreeArcsOf(n.children, c + 1, c + 1);
    var own := if parent.Some? then [Arc(parent.value, c + 1, role, "")] else [];
    assert TreeArcs(n, c, parent, role) == kids + own;
    assert i < |kids| && TreeArcs(n, c, parent, role)[i] == kids[i];
    var a := kids[i];
    TreeInheritsOf(v, n.children, TreeInside(v, n.kind, g, c + 1), Joins(n.kind, active), Colour(n.kind, color), c + 1, c + 1, i);
    assert Find(n, c, a.dst) == FindOf(n.children, c + 1, a.dst);
  }

  lemma {:induction false} TreeInheritsOf(v: Variant, ks: Children, sub: Target, active: bool, color: string,
                                          c: nat, id: nat, i: nat)
    requires id <= c && i < |TreeArcsOf(ks, c, id)|
    ensures var a := TreeArcsOf(ks, c, id)[i];
      var down := TreeSeatOf(v, ks, sub, active, color, c, a.dst);
      (a.src == id || c < a.src < a.dst) && c < a.dst <= c + SizeOf(ks) && down.Some? && FindOf(ks, c, a.dst).Some? &&
      (a.src == id ==> down.value.color == Colour(FindOf(ks, c, a.dst).value.kind, color)) &&
      (a.src != id ==> TreeSeatOf(v, ks, sub, active, color, c, a.src).Some? &&
                       down.value.color == Colour(FindOf(ks, c, a.dst).value.kind, TreeSeatOf(v, ks, sub, active, color, c, a.src).value.color))
  {
    match ks
    case Nil =>
    case Cons(role, m, rest) =>
      var mid := c + Size(m);
      var first, more := TreeArcs(m, c, Some(id), role), TreeArcsOf(rest, mid, id);
      assert TreeArcsOf(ks, c, id) == first + more;
      if i < |first| {
        var a := first[i];
        assert TreeArcsOf(ks, c, id)[i] == a;
        TreeArcsDownward(m, c, Some(id), role);
        if a.dst == c + 1 {
          assert Find(m, c, a.dst) == Some(m);
        } else {
          TreeInherits(v, m, sub, active, Some(id), role, color, c, i);
        }
      } else {
        var a := more[i - |first|];
        assert TreeArcsOf(ks, c, id)[i] == a;
        TreeInheritsOf(v, rest, sub, active, color, mid, id, i - |first|);
      }
  }

  /** The nodes of the subtree that the tree graph and the expression graph
      both draw are drawn in the same colour. */
  lemma {:induction false} SameColour(v: Variant, n: Node, g: Target, e: Option<nat>, color: string, c: nat, x: nat)
    requires ExprSeat(n, e, color, c, x).Some?
    ensures TreeSeat(v, n, g, e.Some?, color, c, x).Some? &&
            ExprSeat(n, e, color, c, x).value.color == TreeSeat(v, n, g, e.Some?, color, c, x).value.color
  {
    if x != c + 1 {
      var inner := if !Joins(n.kind, e.Some?) then None else if Opens(n.kind, e.Some?) then Some(c + 1) else e;
      assert inner.Some? == Joins(n.kind, e.Some?);
      SameColourOf(v, n.children, TreeInside(v, n.kind, g, c + 1), inner, Colour(n.kind, color), c + 1, x);
    }
  }

  lemma {:induction false} SameColourOf(v: Variant, ks: Children, sub: Target, e: Option<nat>, color: string, c: nat, x: nat)
    requires ExprSeatOf(ks, e, color, c, x).Some?
    ensures TreeSeatOf(v, ks, sub, e.Some?, color, c, x).Some? &&
            ExprSeatOf(ks, e, color, c, x).value.color == TreeSeatOf(v, ks, sub, e.Some?, color, c, x).value.color
  {
    match ks
    case Nil =>
    case Cons(_, m, rest) =>
      if x <= c + Size(m) { SameColour(v, m, sub, e, color, c, x); }
      else { SameColourOf(v, rest, sub, e, color, c + Size(m), x); }
  }

  // ---- the expression graph ----

  /** The expression-graph node with id x, found top-down in the subtree
      entered with counter c, where `e` is the owner of the active
      expression cluster and `color` the colour handed down: none for a
      node outside every expression; else a node in the cluster of the
      expression it opens or joins, with the expression label, the kind's
      colour and shape, bold exactly when it opens the expression. */
  function ExprSeat(n: Node, e: Option<nat>, color: string, c: nat, x: nat): Option<Placed>
  {
    var k := n.kind;
    var inner := if !Joins(k, e.Some?) then None else if Opens(k, e.Some?) then Some(c + 1) else e;
    if x == c + 1 then
      (if inner.Some? then
         Some(Placed(x, Cluster(inner.value), ExprLabel(k, TreeLabel(n), e.Some?), Colour(k, color), Shape(k), ExprStyle(k, e.Some?)))
       else None)
    else ExprSeatOf(n.children, inner, Colour(k, color), c + 1, x)
  }

  function ExprSeatOf(ks: Children, e: Option<nat>, color: string, c: nat, x: nat): Option<Placed>
  {
    match ks
    case Nil => None
    case Cons(_, m, rest) =>
      if x <= c + Size(m) then ExprSeat(m, e, color, c, x) else ExprSeatOf(rest, e, color, c + Size(m), x)
  }

  ghost predicate ExprSeated(ns: seq<Placed>, n: Node, e: Option<nat>, color: string, c: nat)
  {
    forall i :: 0 <= i < |ns| ==> ExprSeat(n, e, color, c, ns[i].id) == Some(ns[i])
  }

  ghost predicate ExprSeatedOf(ns: seq<Placed>, ks: Children, e: Option<nat>, color: string, c: nat)
  {
    forall i :: 0 <= i < |ns| ==> ExprSeatOf(ks, e, color, c, ns[i].id) == Some(ns[i])
  }

  /** Only ids of the subtree have an expression-graph node. */
  lemma {:induction false} ExprSeatRange(n: Node, e: Option<nat>, color: string, c: nat, x: nat)
    ensures ExprSeat(n, e, color, c, x).Some? ==> c < x <= c + Size(n)
  {
    if x != c + 1 {
      var inner := if !Joins(n.kind, e.Some?) then None else if Opens(n.kind, e.Some?) then Some(c + 1) else e;
      ExprSeatOfRange(n.children, inner, Colour(n.kind, color), c + 1, x);
    }
  }

  lemma {:induction false} ExprSeatOfRange(ks: Children, e: Option<nat>, color: string, c: nat, x: nat)
    ensures ExprSeatOf(ks, e, color, c, x).Some? ==> c < x <= c + SizeOf(ks)
  {
    match ks
    case Nil =>
    case Cons(_, m, rest) =>
      ExprSeatRange(m, e, color, c, x);
      if x > c + Size(m) { ExprSeatOfRange(rest, e, color, c + Size(m), x); }
  }

  /** What the expression graph says about node x, when the active
      expression (if any) was opened before the subtree: its id; its shape
      is the one its kind fixes and its colour is as Tinted says; it is bold
      or filled, and its label is the expression label of its kind, read
      with "an expression is active" exactly when it is not bold; and it is
      drawn in an expression cluster: its own when it is bold, else the
      active one or that of an expression root of the subtree at or above
      x, in pre-order among the subtree's roots. */
  lemma {:induction false} ExprSeatFacts(n: Node, e: Option<nat>, color: string, c: nat, x: nat)
    requires e.Some? ==> e.value <= c
    requires ExprSeat(n, e, color, c, x).Some?
    ensures var p, m := ExprSeat(n, e, color, c, x).value, Find(n, c, x);
      m.Some? && p.id == x && p.shape == Shape(m.value.kind) && Tinted(m.value.kind, p.color, color) &&
      (p.style == FilledBold || p.style == Filled) &&
      p.text == ExprLabel(m.value.kind, TreeLabel(m.value), p.style == Filled) &&
      p.at.Cluster? && (p.style == FilledBold <==> p.at.owner == x) &&
      ((e.Some? && p.at.owner == e.value) ||
       (p.at.owner in Roots(n, c, e.Some?) && Find(n, c, p.at.owner).Some? &&
        p.at.owner <= x < p.at.owner + Size(Find(n, c, p.at.owner).value)))
  {
    var k := n.kind;
    var inner := if !Joins(k, e.Some?) then None else if Opens(k, e.Some?) then Some(c + 1) else e;
    if x == c + 1 {
      LabelByStyle(k, TreeLabel(n), e.Some?);
    } else {
      ExprSeatOfFacts(n.children, inner, Colour(k, color), c + 1, x);
      var p := ExprSeat(n, e, color, c, x).value;
      ExprSeatOfRange(n.children, inner, Colour(k, color), c + 1, x);
      if !(inner.Some? && p.at.owner == inner.value) {
        FindOfRange(n.children, c + 1, p.at.owner);
        assert Find(n, c, p.at.owner) == FindOf(n.children, c + 1, p.at.owner);
      } else if inner != e {
        assert Find(n, c, c + 1) == Some(n);
      }
    }
  }

  lemma {:induction false} ExprSeatOfFacts(ks: Children, e: Option<nat>, color: string, c: nat, x: nat)
    requires e.Some? ==> e.value <= c
    requires ExprSeatOf(ks, e, color, c, x).Some?
    ensures var p, m := ExprSeatOf(ks, e, color, c, x).value, FindOf(ks, c, x);
      m.Some? && p.id == x && p.shape == Shape(m.value.kind) && Tinted(m.value.kind, p.color, color) &&
      (p.style == FilledBold || p.style == Filled) &&
      p.text == ExprLabel(m.value.kind, TreeLabel(m.value), p.style == Filled) &&
      p.at.Cluster? && (p.style == FilledBold <==> p.at.owner == x) &&
      ((e.Some? && p.at.owner == e.value) ||
       (p.at.owner in RootsOf(ks, c, e.Some?) && FindOf(ks, c, p.at.owner).Some? &&
        p.at.owner <= x < p.at.owner + Size(FindOf(ks, c, p.at.owner).value)))
  {
    match ks
    case Nil =>
    case Cons(_, m, rest) =>
      if x <= c + Size(m) {
        ExprSeatFacts(m, e, color, c, x);
        var p := ExprSeat(m, e, color, c, x).value;
        if !(e.Some? && p.at.owner == e.value) { FindRange(m, c, p.at.owner); }
      } else {
        ExprSeatOfFacts(rest, e, color, c + Size(m), x);
        var p := ExprSeatOf(rest, e, color, c + Size(m), x).value;
        if !(e.Some? && p.at.owner == e.value) { FindOfRange(rest, c + Size(m), p.at.owner); }
      }
  }

  /** The expression label depends on whether an expression is active only
      through whether the node opens one. */
  lemma LabelByStyle(k: Kind, treeLabel: string, active: bool)
    ensures ExprLabel(k, treeLabel, active) == ExprLabel(k, treeLabel, ExprStyle(k, active) == Filled)
  {
  }

  lemma ExprSeatedAppend(a: seq<Placed>, b: seq<Placed>, n: Node, e: Option<nat>, color: string, c: nat)
    requires ExprSeated(a, n, e, color, c) && ExprSeated(b, n, e, color, c)
    ensures ExprSeated(a + b, n, e, color, c)
  {
    forall i | 0 <= i < |a + b|
      ensures ExprSeat(n, e, color, c, (a + b)[i].id) == Some((a + b)[i])
    {
      if i < |a| { assert (a + b)[i] == a[i]; } else { assert (a + b)[i] == b[i - |a|]; }
    }
  }

  /** The children's nodes, seen from the node above them. */
  lemma ExprSeatedUnder(ns: seq<Placed>, n: Node, e: Option<nat>, inner: Option<nat>, color: string, c: nat)
    requires inner == if !Joins(n.kind, e.Some?) then None else if Opens(n.kind, e.Some?) then Some(c + 1) else e
    requires ExprSeatedOf(ns, n.children, inner, Colour(n.kind, color), c + 1)
    ensures ExprSeated(ns, n, e, color, c)
  {
    forall i | 0 <= i < |ns|
      ensures ExprSeat(n, e, color, c, ns[i].id) == Some(ns[i])
    {
      ExprSeatOfRange(n.children, inner, Colour(n.kind, color), c + 1, ns[i].id);
    }
  }

  /** The first child's nodes and the later children's, seen from the whole list. */
  lemma ExprSeatedCons(a: seq<Placed>, b: seq<Placed>, role: string, m: Node, rest: Children,
                       e: Option<nat>, color: string, c: nat)
    ensures ExprSeated(a, m, e, color, c) && ExprSeatedOf(b, rest, e, color, c + Size(m)) ==>
            ExprSeatedOf(a + b, Cons(role, m, rest), e, color, c)
  {
    if ExprSeated(a, m, e, color, c) && ExprSeatedOf(b, rest, e, color, c + Size(m)) {
      forall i | 0 <= i < |a + b|
        ensures ExprSeatOf(Cons(role, m, rest), e, color, c, (a + b)[i].id) == Some((a + b)[i])
      {
        if i < |a| {
          assert (a + b)[i] == a[i];
          ExprSeatRange(m, e, color, c, a[i].id);
        } else {
          assert (a + b)[i] == b[i - |a|];
          ExprSeatOfRange(rest, e, color, c + Size(m), b[i - |a|].id);
        }
      }
    }
  }

  /** The two records that open an expression draw no node. */
  lemma OpenNodes(cur: Vertex, id: nat, caption: string)
    ensures Nodes([OrderEdge(cur, Id(id)), AddSubgraph(Main, id, caption, NoStyle)]) == []
  {
    var ops := [OrderEdge(cur, Id(id)), AddSubgraph(Main, id, caption, NoStyle)];
    assert ops == [ops[0]] + [ops[1]];
    OneOpNodes(ops[0]);
    OneOpNodes(ops[1]);
    NodesAppend([ops[0]], [ops[1]]);
  }

  /** Every node of the expression graph is drawn where, and as, ExprSeat says. */
  lemma {:induction false} ExprWalkNodes(v: Variant, n: Node, e: Option<nat>, parent: Option<nat>, role: string,
                                         color: string, c: nat, cur: Vertex)
    ensures ExprSeated(Nodes(ExprWalk(v, n, e, parent, role, color, c, cur).ops), n, e, color, c)
  {
    var id := c + 1;
    var k := n.kind;
    var opens := Opens(k, e.Some?);
    var inner := if !Joins(k, e.Some?) then None else if opens then Some(id) else e;
    var start := if opens then Id(id) else cur;
    var kids := ExprWalkOf(v, n.children, inner, id, Colour(k, color), id, start);
    var open := if opens then [OrderEdge(cur, Id(id)), AddSubgraph(Main, id, Caption(v, n.coord), NoStyle)] else [];
    var own :=
      if inner.Some? then
        NodeOps(Cluster(inner.value), id, ExprLabel(k, TreeLabel(n), e.Some?), if opens then None else parent, "",
                Colour(k, color), Inverted(role), Shape(k), "back", ExprStyle(k, e.Some?))
      else [];
    assert ExprWalk(v, n, e, parent, role, color, c, cur).ops == open + own + kids.ops;
    ExprWalkOfNodes(v, n.children, inner, id, Colour(k, color), id, start);
    ExprSeatedUnder(Nodes(kids.ops), n, e, inner, color, c);
    ExprOwnSeated(n, e, parent, role, color, c, own);
    if opens { OpenNodes(cur, id, Caption(v, n.coord)); } else { assert open == []; }
    NodesAppend(open, own);
    NodesAppend(open + own, kids.ops);
    ExprSeatedAppend(Nodes(open + own), Nodes(kids.ops), n, e, color, c);
  }

  /** The node's own records draw the node ExprSeat gives its id, if any. */
  lemma ExprOwnSeated(n: Node, e: Option<nat>, parent: Option<nat>, role: string, color: string, c: nat, own: seq<Op>)
    requires var k := n.kind; var opens := Opens(k, e.Some?);
      var inner := if !Joins(k, e.Some?) then None else if opens then Some(c + 1) else e;
      own == if inner.Some? then
               NodeOps(Cluster(inner.value), c + 1, ExprLabel(k, TreeLabel(n), e.Some?), if opens then None else parent, "",
                       Colour(k, color), Inverted(role), Shape(k), "back", ExprStyle(k, e.Some?))
             else []
    ensures ExprSeated(Nodes(own), n, e, color, c)
  {
    var k := n.kind;
    var opens := Opens(k, e.Some?);
    var inner := if !Joins(k, e.Some?) then None else if opens then Some(c + 1) else e;
    if inner.Some? {
      NodeOpsNodes(Cluster(inner.value), c + 1, ExprLabel(k, TreeLabel(n), e.Some?), if opens then None else parent, "",
                   Colour(k, color), Inverted(role), Shape(k), "back", ExprStyle(k, e.Some?));
    }
  }

  lemma {:induction false} ExprWalkOfNodes(v: Variant, ks: Children, e: Option<nat>, id: nat, color: string,
                                           c: nat, cur: Vertex)
    ensures ExprSeatedOf(Nodes(ExprWalkOf(v, ks, e, id, color, c, cur).ops), ks, e, color, c)
  {
    match ks
    case Nil =>
    case Cons(role, m, rest) =>
      var first := ExprWalk(v, m, e, Some(id), role, color, c, cur);
      ExprWalkNodes(v, m, e, Some(id), role, color, c, cur);
      ExprWalkOfNodes(v, rest, e, id, color, c + Size(m), first.cursor);
      ExprWalkOfSeated(v, role, m, rest, e, id, color, c, cur);
  }

  /** The first child's walk and the later children's, seen from the whole list. */
  lemma ExprWalkOfSeated(v: Variant, role: string, m: Node, rest: Children, e: Option<nat>, id: nat,
                         color: string, c: nat, cur: Vertex)
    ensures var first := ExprWalk(v, m, e, Some(id), role, color, c, cur);
      ExprSeated(Nodes(first.ops), m, e, color, c) &&
      ExprSeatedOf(Nodes(ExprWalkOf(v, rest, e, id, color, c + Size(m), first.cursor).ops), rest, e, color, c + Size(m)) ==>
      ExprSeatedOf(Nodes(ExprWalkOf(v, Cons(role, m, rest), e, id, color, c, cur).ops), Cons(role, m, rest), e, color, c)
  {
    var first := ExprWalk(v, m, e, Some(id), role, color, c, cur);
    var more := ExprWalkOf(v, rest, e, id, color, c + Size(m), first.cursor);
    assert ExprWalkOf(v, Cons(role, m, rest), e, id, color, c, cur).ops == first.ops + more.ops;
    NodesAppend(first.ops, more.ops);
    ExprSeatedCons(Nodes(first.ops), Nodes(more.ops), role, m, rest, e, color, c);
  }

  // ---- the nodes of the whole script ----

  /** How the AST graph shows node p: with the tree label of the AST node
      its id names, the default shape, a colour as Tinted says for a walk
      that starts from white, filled or (by the tool only) filled and
      dashed, in the main graph or in the tree cluster of an assignment,
      unary operation, declaration or return whose subtree holds it. */
  ghost predicate TreeShown(v: Variant, ast: Node, p: Placed)
  {
    var m := Find(ast, 0, p.id);
    m.Some? && p.text == TreeLabel(m.value) && p.shape == "" && Tinted(m.value.kind, p.color, "white") &&
    (p.style == Filled || (v.Tool? && p.style == FilledDashed)) &&
    (p.at == Main || (p.at.Cluster? && 0 < p.at.owner < p.id && Find(ast, 0, p.at.owner).Some? &&
                      HasTreeCluster(Find(ast, 0, p.at.owner).value.kind) &&
                      p.id < p.at.owner + Size(Find(ast, 0, p.at.owner).value)))
  }

  /** How the expression graph shows node p: with the shape its kind fixes,
      a colour as Tinted says for a walk that starts from white, the
      expression label of its kind (read with "an expression is active"
      exactly when it is not bold), bold exactly when it owns the cluster it
      is drawn in, and that cluster is the one of an expression root whose
      subtree holds it. */
  ghost predicate ExprShown(ast: Node, p: Placed)
  {
    var m := Find(ast, 0, p.id);
    m.Some? && p.shape == Shape(m.value.kind) && Tinted(m.value.kind, p.color, "white") &&
    (p.style == FilledBold || p.style == Filled) &&
    p.text == ExprLabel(m.value.kind, TreeLabel(m.value), p.style == Filled) &&
    p.at.Cluster? && (p.style == FilledBold <==> p.at.owner == p.id) &&
    p.at.owner in Roots(ast, 0, false) && Find(ast, 0, p.at.owner).Some? &&
    p.at.owner <= p.id < p.at.owner + Size(Find(ast, 0, p.at.owner).value)
  }
}
