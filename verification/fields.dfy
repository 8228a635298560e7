/** The walk of the field-by-field dump (ast-tests/ast_graph_test.py), on
    the tree its dispatch table produces: every value the walk is handed
    becomes a node drawn after the nodes of its child fields, except a
    Python list, which draws nothing and hands each element on to the
    list's own parent. The dispatch itself (which fields, which label,
    which colour) is in FieldTable. */
module FieldDump {
  import opened Util
  import opened Sinks
  import Traversal

  /** What one parse_node call does, once the matching branch is chosen:
      draw a node with this label and fill colour after visiting `kids`
      under it, or, for a list, visit `kids` and draw nothing. */
  datatype Tree =
    | Node(text: string, color: string, kids: Kids)
    | Spread(kids: Kids)

  /** The visits of one call, in order: each with the edge label it adds
      (for a list element, the '[i]' appended to the list's own label). */
  datatype Kids = Nil | Cons(role: string, tree: Tree, rest: Kids)

  /** The parent the visits of t pass on: a list passes its own parent, a
      node the id it took. */
  function Up(t: Tree, parent: Option<nat>, id: nat): Option<nat>
  {
    if t.Spread? then parent else Some(id)
  }

  /** What each visit's role is appended to: a list's own edge label, or nothing. */
  function Prefix(t: Tree, role: string): string
  {
    if t.Spread? then role else ""
  }

  // ---- the walk ----

  /** How many counter values the call takes: one per call, lists included. */
  function Size(t: Tree): (r: nat)
    ensures r >= 1
  {
    1 + SizeOf(t.kids)
  }

  function SizeOf(ks: Kids): nat
  {
    match ks
    case Nil => 0
    case Cons(_, m, rest) => Size(m) + SizeOf(rest)
  }

  /** What parse_node(node, parent_id, edge_label) appends to the graph when
      entered with counter c: the nodes of its visits, then its own node,
      unless it is a list. */
  function Walk(t: Tree, parent: Option<nat>, role: string, c: nat): seq<Op>
  {
    WalkOf(t.kids, Up(t, parent, c + 1), Prefix(t, role), c + 1) + Own(t, parent, role, c + 1)
  }

  /** The final add_node of the call that took id, which a list skips. */
  function Own(t: Tree, parent: Option<nat>, role: string, id: nat): seq<Op>
  {
    if t.Spread? then [] else NodeOps(Main, id, t.text, parent, role, t.color, false, "", "", Filled)
  }

  /** The visits `ks`, hung from `up`, entered with counter c. */
  function WalkOf(ks: Kids, up: Option<nat>, prefix: string, c: nat): seq<Op>
  {
    match ks
    case Nil => []
    case Cons(r, m, rest) => Walk(m, up, prefix + r, c) + WalkOf(rest, up, prefix, c + Size(m))
  }

  // ---- reference definitions ----

  /** The subtree whose call takes counter value x, in the call entered
      with counter c: found top-down, by the counter ranges of the visits. */
  function Find(t: Tree, c: nat, x: nat): Option<Tree>
  {
    if x == c + 1 then Some(t) else FindOf(t.kids, c + 1, x)
  }

  function FindOf(ks: Kids, c: nat, x: nat): Option<Tree>
  {
    match ks
    case Nil => None
    case Cons(_, m, rest) => if x <= c + Size(m) then Find(m, c, x) else FindOf(rest, c + Size(m), x)
  }

  /** Counter value x went to a call that draws a node: anything but a list. */
  ghost predicate Drawn(t: Tree, c: nat, x: nat)
  {
    Find(t, c, x).Some? && Find(t, c, x).value.Node?
  }

  ghost predicate DrawnOf(ks: Kids, c: nat, x: nat)
  {
    FindOf(ks, c, x).Some? && FindOf(ks, c, x).value.Node?
  }

  /** The edge drawn into the node that takes counter value x, found
      top-down: from the nearest enclosing call that draws a node (or from
      `parent`), labelled with the field it was visited under, with '[i]'
      appended for each list it sits in. */
  function Link(t: Tree, parent: Option<nat>, role: string, c: nat, x: nat): Option<Arc>
  {
    if x == c + 1 then (if t.Spread? || parent.None? then None else Some(Arc(parent.value, x, role, "")))
    else LinkOf(t.kids, Up(t, parent, c + 1), Prefix(t, role), c + 1, x)
  }

  function LinkOf(ks: Kids, up: Option<nat>, prefix: string, c: nat, x: nat): Option<Arc>
  {
    match ks
    case Nil => None
    case Cons(r, m, rest) =>
      if x <= c + Size(m) then Link(m, up, prefix + r, c, x) else LinkOf(rest, up, prefix, c + Size(m), x)
  }

  // ---- facts about the reference definitions ----

  /** Exactly the counter values c+1 .. c+Size(t) name a subtree. */
  lemma {:induction false} FindRange(t: Tree, c: nat, x: nat)
    ensures Find(t, c, x).Some? <==> c < x <= c + Size(t)
  {
    if x != c + 1 {
      FindOfRange(t.kids, c + 1, x);
    }
  }

  lemma {:induction false} FindOfRange(ks: Kids, c: nat, x: nat)
    ensures FindOf(ks, c, x).Some? <==> c < x <= c + SizeOf(ks)
  {
    match ks
    case Nil =>
    case Cons(_, m, rest) =>
      FindRange(m, c, x);
      if x > c + Size(m) { FindOfRange(rest, c + Size(m), x); }
  }

  /** What an edge found by Link is: it points at x, which is drawn; it has
      no direction attribute; and its tail is `parent` or a drawn node of
      the subtree with a smaller id. */
  lemma {:induction false} LinkFacts(t: Tree, parent: Option<nat>, role: string, c: nat, x: nat)
    requires Link(t, parent, role, c, x).Some?
    ensures var a := Link(t, parent, role, c, x).value;
      a.dst == x && a.dir == "" && Drawn(t, c, x) &&
      ((parent.Some? && a.src == parent.value) || (c < a.src < x && Drawn(t, c, a.src)))
  {
    if x != c + 1 {
      var up := Up(t, parent, c + 1);
      LinkOfFacts(t.kids, up, Prefix(t, role), c + 1, x);
      FindOfRange(t.kids, c + 1, x);
      var a := Link(t, parent, role, c, x).value;
      if !(up.Some? && a.src == up.value) {
        FindOfRange(t.kids, c + 1, a.src);
        assert Find(t, c, a.src) == FindOf(t.kids, c + 1, a.src);
      } else if t.Node? {
        assert Find(t, c, a.src) == Some(t);
      }
    }
  }

  lemma {:induction false} LinkOfFacts(ks: Kids, up: Option<nat>, prefix: string, c: nat, x: nat)
    requires LinkOf(ks, up, prefix, c, x).Some?
    ensures var a := LinkOf(ks, up, prefix, c, x).value;
      a.dst == x && a.dir == "" && DrawnOf(ks, c, x) &&
      ((up.Some? && a.src == up.value) || (c < a.src < x && DrawnOf(ks, c, a.src)))
  {
    var mid := c + Size(ks.tree);
    if x <= mid {
      LinkFacts(ks.tree, up, prefix + ks.role, c, x);
      FindRange(ks.tree, c, x);
    } else {
      LinkOfFacts(ks.rest, up, prefix, mid, x);
      var a := LinkOf(ks, up, prefix, c, x).value;
      if !(up.Some? && a.src == up.value) { FindOfRange(ks.rest, mid, a.src); }
    }
  }

  /** An edge leads into every drawn node that has a drawn ancestor or a
      parent: into all of them when the call has a parent, and into all but
      the call's own node when it has none. */
  lemma {:induction false} LinkDrawn(t: Tree, parent: Option<nat>, role: string, c: nat, x: nat)
    requires parent.Some? || t.Node?
    ensures Link(t, parent, role, c, x).Some? <==> Drawn(t, c, x) && (parent.Some? || x != c + 1)
  {
    if x != c + 1 {
      LinkOfDrawn(t.kids, Up(t, parent, c + 1), Prefix(t, role), c + 1, x);
    }
  }

  lemma {:induction false} LinkOfDrawn(ks: Kids, up: Option<nat>, prefix: string, c: nat, x: nat)
    requires up.Some?
    ensures LinkOf(ks, up, prefix, c, x).Some? <==> DrawnOf(ks, c, x)
  {
    match ks
    case Nil =>
    case Cons(r, m, rest) =>
      if x <= c + Size(m) {
        LinkDrawn(m, up, prefix + r, c, x);
      } else {
        LinkOfDrawn(rest, up, prefix, c + Size(m), x);
      }
  }

  // ---- the final add_node ----

  /** The final add_node adds no node for a list, else node id. */
  lemma OwnIds(t: Tree, parent: Option<nat>, role: string, id: nat)
    ensures NodeIds(Own(t, parent, role, id)) == if t.Spread? then [] else [id]
  {
    if t.Node? {
      NodeOpsIds(Main, id, t.text, parent, role, t.color, false, "", "", Filled);
    }
  }

  /** The node the final add_node adds is node id, showing t. */
  lemma OwnNodes(t: Tree, parent: Option<nat>, role: string, id: nat)
    ensures var ns := Nodes(Own(t, parent, role, id));
      forall k :: 0 <= k < |ns| ==> ns[k].id == id && Shows(ns[k], t)
  {
    if t.Node? {
      NodeOpsNodes(Main, id, t.text, parent, role, t.color, false, "", "", Filled);
    }
  }

  /** The final add_node draws the edge from the parent, if there is one, unless t is a list. */
  lemma OwnArcs(t: Tree, parent: Option<nat>, role: string, id: nat)
    ensures Arcs(Own(t, parent, role, id)) == OwnEdge(t, parent, role, id)
  {
    if t.Node? {
      NodeOpsArcs(Main, id, t.text, parent, role, t.color, false, "", "", Filled);
    }
  }

  // ---- the ids drawn ----

  /** The ids drawn by the call entered with counter c, in drawing order:
      those of the visits, then the call's own unless it is a list. */
  function Order(t: Tree, c: nat): seq<nat>
  {
    OrderOf(t.kids, c + 1) + (if t.Spread? then [] else [c + 1])
  }

  function OrderOf(ks: Kids, c: nat): seq<nat>
  {
    match ks
    case Nil => []
    case Cons(_, m, rest) => Order(m, c) + OrderOf(rest, c + Size(m))
  }

  /** Nodes are added in the order Order gives. */
  lemma {:induction false} WalkIds(t: Tree, parent: Option<nat>, role: string, c: nat)
    ensures NodeIds(Walk(t, parent, role, c)) == Order(t, c)
  {
    var id := c + 1;
    OwnIds(t, parent, role, id);
    NodeIdsAppend(WalkOf(t.kids, Up(t, parent, id), Prefix(t, role), id), Own(t, parent, role, id));
    WalkOfIds(t.kids, Up(t, parent, id), Prefix(t, role), id);
  }

  lemma {:induction false} WalkOfIds(ks: Kids, up: Option<nat>, prefix: string, c: nat)
    ensures NodeIds(WalkOf(ks, up, prefix, c)) == OrderOf(ks, c)
  {
    match ks
    case Nil =>
    case Cons(r, m, rest) =>
      WalkIds(m, up, prefix + r, c);
      WalkOfIds(rest, up, prefix, c + Size(m));
      NodeIdsAppend(Walk(m, up, prefix + r, c), WalkOf(rest, up, prefix, c + Size(m)));
  }

  /** No id is drawn twice, every id drawn is one the call took, and a
      node is drawn after the nodes of its visits. */
  lemma {:induction false} OrderRange(t: Tree, c: nat)
    ensures var ids := Order(t, c);
      Distinct(ids) && Within(ids, c, c + Size(t)) && (t.Node? ==> ids != [] && ids[|ids| - 1] == c + 1)
  {
    var ks := OrderOf(t.kids, c + 1);
    OrderOfRange(t.kids, c + 1);
    if t.Spread? {
      EmptyNeutral(ks);
    } else {
      DistinctSnoc(ks, c + 1, c, c + Size(t));
    }
  }

  lemma {:induction false} OrderOfRange(ks: Kids, c: nat)
    ensures var ids := OrderOf(ks, c); Distinct(ids) && Within(ids, c, c + SizeOf(ks))
  {
    match ks
    case Nil =>
    case Cons(_, m, rest) =>
      var mid := c + Size(m);
      OrderRange(m, c);
      OrderOfRange(rest, mid);
      DistinctAppend(Order(m, c), OrderOf(rest, mid), c, mid, c + SizeOf(ks));
  }

  /** The ids drawn are exactly those of the calls that are not lists. */
  lemma {:induction false} OrderDrawn(t: Tree, c: nat, x: nat)
    ensures x in Order(t, c) <==> Drawn(t, c, x)
  {
    OrderOfDrawn(t.kids, c + 1, x);
    if x == c + 1 {
      OrderOfRange(t.kids, c + 1);
      assert x !in OrderOf(t.kids, c + 1);
    }
  }

  lemma {:induction false} OrderOfDrawn(ks: Kids, c: nat, x: nat)
    ensures x in OrderOf(ks, c) <==> DrawnOf(ks, c, x)
  {
    match ks
    case Nil =>
    case Cons(_, m, rest) =>
      var mid := c + Size(m);
      if x <= mid {
        OrderDrawn(m, c, x);
        OrderOfRange(rest, mid);
        assert x !in OrderOf(rest, mid);
      } else {
        OrderOfDrawn(rest, mid, x);
        OrderRange(m, c);
        assert x !in Order(m, c);
      }
  }

  // ---- the edges drawn ----

  /** The edges drawn by the call entered with counter c, in drawing order:
      those of the visits, then the one into the call's own node, if it
      draws one and has a parent. */
  function Edges(t: Tree, parent: Option<nat>, role: string, c: nat): seq<Arc>
  {
    EdgesOf(t.kids, Up(t, parent, c + 1), Prefix(t, role), c + 1) + OwnEdge(t, parent, role, c + 1)
  }

  /** The edge into the node that took id: none for a list or a call without a parent. */
  function OwnEdge(t: Tree, parent: Option<nat>, role: string, id: nat): seq<Arc>
  {
    if t.Spread? || parent.None? then [] else [Arc(parent.value, id, role, "")]
  }

  function EdgesOf(ks: Kids, up: Option<nat>, prefix: string, c: nat): seq<Arc>
  {
    match ks
    case Nil => []
    case Cons(r, m, rest) => Edges(m, up, prefix + r, c) + EdgesOf(rest, up, prefix, c + Size(m))
  }

  /** Edges are drawn in the order Edges gives. */
  lemma {:induction false} WalkArcs(t: Tree, parent: Option<nat>, role: string, c: nat)
    ensures Arcs(Walk(t, parent, role, c)) == Edges(t, parent, role, c)
  {
    var id := c + 1;
    OwnArcs(t, parent, role, id);
    ArcsAppend(WalkOf(t.kids, Up(t, parent, id), Prefix(t, role), id), Own(t, parent, role, id));
    WalkOfArcs(t.kids, Up(t, parent, id), Prefix(t, role), id);
  }

  lemma {:induction false} WalkOfArcs(ks: Kids, up: Option<nat>, prefix: string, c: nat)
    ensures Arcs(WalkOf(ks, up, prefix, c)) == EdgesOf(ks, up, prefix, c)
  {
    match ks
    case Nil =>
    case Cons(r, m, rest) =>
      WalkArcs(m, up, prefix + r, c);
      WalkOfArcs(rest, up, prefix, c + Size(m));
      ArcsAppend(Walk(m, up, prefix + r, c), WalkOf(rest, up, prefix, c + Size(m)));
  }

  /** No node gets two edges, and every edge leads into a node of the call's range. */
  lemma {:induction false} EdgesRange(t: Tree, parent: Option<nat>, role: string, c: nat)
    ensures var hs := Traversal.Heads(Edges(t, parent, role, c)); Distinct(hs) && Within(hs, c, c + Size(t))
  {
    var a: seq<Arc> := EdgesOf(t.kids, Up(t, parent, c + 1), Prefix(t, role), c + 1);
    var b: seq<Arc> := OwnEdge(t, parent, role, c + 1);
    EdgesOfRange(t.kids, Up(t, parent, c + 1), Prefix(t, role), c + 1);
    Traversal.HeadsAppend(a, b);
    if b == [] {
      EmptyNeutral(Traversal.Heads(a));
    } else {
      assert Traversal.Heads(b) == [c + 1];
      DistinctSnoc(Traversal.Heads(a), c + 1, c, c + Size(t));
    }
  }

  lemma {:induction false} EdgesOfRange(ks: Kids, up: Option<nat>, prefix: string, c: nat)
    ensures var hs := Traversal.Heads(EdgesOf(ks, up, prefix, c)); Distinct(hs) && Within(hs, c, c + SizeOf(ks))
  {
    match ks
    case Nil =>
    case Cons(r, m, rest) =>
      var mid := c + Size(m);
      var a: seq<Arc>, b: seq<Arc> := Edges(m, up, prefix + r, c), EdgesOf(rest, up, prefix, mid);
      assert EdgesOf(ks, up, prefix, c) == a + b;
      EdgesRange(m, up, prefix + r, c);
      EdgesOfRange(rest, up, prefix, mid);
      Traversal.HeadsAppend(a, b);
      DistinctAppend(Traversal.Heads(a), Traversal.Heads(b), c, mid, c + SizeOf(ks));
  }

  /** Every edge is the one Link names for its head. */
  ghost predicate Linked(arcs: seq<Arc>, t: Tree, parent: Option<nat>, role: string, c: nat)
  {
    forall i :: 0 <= i < |arcs| ==> Link(t, parent, role, c, arcs[i].dst) == Some(arcs[i])
  }

  ghost predicate LinkedOf(arcs: seq<Arc>, ks: Kids, up: Option<nat>, prefix: string, c: nat)
  {
    forall i :: 0 <= i < |arcs| ==> LinkOf(ks, up, prefix, c, arcs[i].dst) == Some(arcs[i])
  }

  /** The edges drawn are the ones Link names. */
  lemma {:induction false} EdgesLinked(t: Tree, parent: Option<nat>, role: string, c: nat)
    ensures Linked(Edges(t, parent, role, c), t, parent, role, c)
  {
    var a: seq<Arc> := EdgesOf(t.kids, Up(t, parent, c + 1), Prefix(t, role), c + 1);
    var b: seq<Arc> := OwnEdge(t, parent, role, c + 1);
    EdgesOfLinked(t.kids, Up(t, parent, c + 1), Prefix(t, role), c + 1);
    EdgesOfRange(t.kids, Up(t, parent, c + 1), Prefix(t, role), c + 1);
    forall i | 0 <= i < |a + b| ensures Link(t, parent, role, c, (a + b)[i].dst) == Some((a + b)[i]) {
      if i < |a| {
        assert (a + b)[i] == a[i];
        assert Traversal.Heads(a)[i] == a[i].dst;
      } else {
        assert (a + b)[i] == b[i - |a|];
      }
    }
  }

  lemma {:induction false} EdgesOfLinked(ks: Kids, up: Option<nat>, prefix: string, c: nat)
    ensures LinkedOf(EdgesOf(ks, up, prefix, c), ks, up, prefix, c)
  {
    match ks
    case Nil =>
    case Cons(r, m, rest) =>
      var mid := c + Size(m);
      var a: seq<Arc>, b: seq<Arc> := Edges(m, up, prefix + r, c), EdgesOf(rest, up, prefix, mid);
      assert EdgesOf(ks, up, prefix, c) == a + b;
      EdgesLinked(m, up, prefix + r, c);
      EdgesOfLinked(rest, up, prefix, mid);
      EdgesRange(m, up, prefix + r, c);
      EdgesOfRange(rest, up, prefix, mid);
      forall i | 0 <= i < |a + b| ensures LinkOf(ks, up, prefix, c, (a + b)[i].dst) == Some((a + b)[i]) {
        if i < |a| {
          assert (a + b)[i] == a[i];
          assert Traversal.Heads(a)[i] == a[i].dst;
        } else {
          assert (a + b)[i] == b[i - |a|];
          assert Traversal.Heads(b)[i - |a|] == b[i - |a|].dst;
        }
      }
  }

  /** A node gets an edge exactly when Link names one for it. */
  lemma {:induction false} EdgesCover(t: Tree, parent: Option<nat>, role: string, c: nat, x: nat)
    ensures x in Traversal.Heads(Edges(t, parent, role, c)) <==> Link(t, parent, role, c, x).Some?
  {
    var a: seq<Arc> := EdgesOf(t.kids, Up(t, parent, c + 1), Prefix(t, role), c + 1);
    var b: seq<Arc> := OwnEdge(t, parent, role, c + 1);
    Traversal.HeadsAppend(a, b);
    EdgesOfCover(t.kids, Up(t, parent, c + 1), Prefix(t, role), c + 1, x);
    if x == c + 1 {
      EdgesOfRange(t.kids, Up(t, parent, c + 1), Prefix(t, role), c + 1);
      assert x !in Traversal.Heads(a);
    } else {
      assert x !in Traversal.Heads(b);
    }
  }

  lemma {:induction false} EdgesOfCover(ks: Kids, up: Option<nat>, prefix: string, c: nat, x: nat)
    ensures x in Traversal.Heads(EdgesOf(ks, up, prefix, c)) <==> LinkOf(ks, up, prefix, c, x).Some?
  {
    match ks
    case Nil =>
    case Cons(r, m, rest) =>
      var mid := c + Size(m);
      var a: seq<Arc>, b: seq<Arc> := Edges(m, up, prefix + r, c), EdgesOf(rest, up, prefix, mid);
      assert EdgesOf(ks, up, prefix, c) == a + b;
      Traversal.HeadsAppend(a, b);
      if x <= mid {
        assert LinkOf(ks, up, prefix, c, x) == Link(m, up, prefix + r, c, x);
        EdgesCover(m, up, prefix + r, c, x);
        EdgesOfRange(rest, up, prefix, mid);
        assert x !in Traversal.Heads(b);
      } else {
        assert LinkOf(ks, up, prefix, c, x) == LinkOf(rest, up, prefix, mid, x);
        EdgesOfCover(rest, up, prefix, mid, x);
        EdgesRange(m, up, prefix + r, c);
        assert x !in Traversal.Heads(a);
      }
  }

  // ---- the nodes drawn ----

  /** A node shows a call's tree: the label and fill colour its branch
      chose, filled, of the default shape, in the one graph. */
  predicate Shows(p: Placed, t: Tree)
  {
    t.Node? && p.text == t.text && p.at == Main && p.color == t.color && p.shape == "" && p.style == Filled
  }

  /** Every node shows the subtree whose call took its id. */
  ghost predicate Described(ns: seq<Placed>, t: Tree, c: nat)
  {
    forall k :: 0 <= k < |ns| ==> Find(t, c, ns[k].id).Some? && Shows(ns[k], Find(t, c, ns[k].id).value)
  }

  ghost predicate DescribedOf(ns: seq<Placed>, ks: Kids, c: nat)
  {
    forall k :: 0 <= k < |ns| ==> FindOf(ks, c, ns[k].id).Some? && Shows(ns[k], FindOf(ks, c, ns[k].id).value)
  }

  /** Every node drawn shows the subtree whose call took its id. */
  lemma {:induction false} WalkNodes(t: Tree, parent: Option<nat>, role: string, c: nat)
    ensures Described(Nodes(Walk(t, parent, role, c)), t, c)
  {
    var id := c + 1;
    var kids, own := WalkOf(t.kids, Up(t, parent, id), Prefix(t, role), id), Own(t, parent, role, id);
    OwnNodes(t, parent, role, id);
    NodesAppend(kids, own);
    WalkOfNodes(t.kids, Up(t, parent, id), Prefix(t, role), id);
    var a: seq<Placed>, b: seq<Placed> := Nodes(kids), Nodes(own);
    forall k | 0 <= k < |a + b|
      ensures Find(t, c, (a + b)[k].id).Some? && Shows((a + b)[k], Find(t, c, (a + b)[k].id).value)
    {
      if k < |a| {
        assert (a + b)[k] == a[k];
        FindOfRange(t.kids, id, a[k].id);
      } else {
        assert (a + b)[k] == b[k - |a|];
      }
    }
  }

  lemma {:induction false} WalkOfNodes(ks: Kids, up: Option<nat>, prefix: string, c: nat)
    ensures DescribedOf(Nodes(WalkOf(ks, up, prefix, c)), ks, c)
  {
    match ks
    case Nil =>
    case Cons(r, m, rest) =>
      var mid := c + Size(m);
      var first, more := Walk(m, up, prefix + r, c), WalkOf(rest, up, prefix, mid);
      assert WalkOf(ks, up, prefix, c) == first + more;
      WalkNodes(m, up, prefix + r, c);
      WalkOfNodes(rest, up, prefix, mid);
      NodesAppend(first, more);
      var a: seq<Placed>, b: seq<Placed> := Nodes(first), Nodes(more);
      forall k | 0 <= k < |a + b|
        ensures FindOf(ks, c, (a + b)[k].id).Some? && Shows((a + b)[k], FindOf(ks, c, (a + b)[k].id).value)
      {
        if k < |a| {
          assert (a + b)[k] == a[k];
          FindRange(m, c, a[k].id);
          assert FindOf(ks, c, a[k].id) == Find(m, c, a[k].id);
        } else {
          assert (a + b)[k] == b[k - |a|];
          FindOfRange(rest, mid, b[k - |a|].id);
          assert FindOf(ks, c, b[k - |a|].id) == FindOf(rest, mid, b[k - |a|].id);
        }
      }
  }
}
