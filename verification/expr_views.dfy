/** Reference definitions of what the expression-extracting walk emits,
    written per node from the opening rule alone, without the walk's
    threading of counter, cursor and sinks: which nodes start an
    expression, which belong to one, which expression edges exist, which
    tree nodes lie outside every expression, and the ordering chain. */
module ExprViews {
  import opened Util
  import opened Sinks
  import opened Ast
  import opened ExprClassify

  /** The expression roots, in pre-order: the ids of the nodes that open an
      expression. `active` says whether one is open on entry. */
  function Roots(n: Node, c: nat, active: bool): seq<nat>
  {
    (if Opens(n.kind, active) then [c + 1] else []) + RootsOf(n.children, c + 1, Joins(n.kind, active))
  }

  function RootsOf(ks: Children, c: nat, active: bool): seq<nat>
  {
    match ks
    case Nil => []
    case Cons(_, m, rest) => Roots(m, c, active) + RootsOf(rest, c + Size(m), active)
  }

  /** The nodes of the expression graph, in pre-order. */
  function Members(n: Node, c: nat, active: bool): seq<nat>
  {
    (if Joins(n.kind, active) then [c + 1] else []) + MembersOf(n.children, c + 1, Joins(n.kind, active))
  }

  function MembersOf(ks: Children, c: nat, active: bool): seq<nat>
  {
    match ks
    case Nil => []
    case Cons(_, m, rest) => Members(m, c, active) + MembersOf(rest, c + Size(m), active)
  }

  /** The members that do not open their expression, in pre-order: the
      nodes drawn with the plain filled style, each hanging from its parent. */
  function Inner(n: Node, c: nat, active: bool): seq<nat>
  {
    (if Joins(n.kind, active) && !Opens(n.kind, active) then [c + 1] else []) + InnerOf(n.children, c + 1, Joins(n.kind, active))
  }

  function InnerOf(ks: Children, c: nat, active: bool): seq<nat>
  {
    match ks
    case Nil => []
    case Cons(_, m, rest) => Inner(m, c, active) + InnerOf(rest, c + Size(m), active)
  }

  /** The expression edge between node `id` and its parent `p`: unlabelled,
      with dir='back', and from the node to its parent exactly when the
      node's role is inverted. */
  function ExprArc(p: nat, id: nat, role: string): Arc
  {
    if Inverted(role) then Arc(id, p, "", "back") else Arc(p, id, "", "back")
  }

  /** The expression edges, in pre-order: one from every member that does
      not open its expression to its parent. */
  function ExprArcs(n: Node, c: nat, active: bool, parent: Option<nat>, role: string): seq<Arc>
  {
    (if Joins(n.kind, active) && !Opens(n.kind, active) && parent.Some? then [ExprArc(parent.value, c + 1, role)] else [])
    + ExprArcsOf(n.children, c + 1, Joins(n.kind, active), c + 1)
  }

  function ExprArcsOf(ks: Children, c: nat, active: bool, id: nat): seq<Arc>
  {
    match ks
    case Nil => []
    case Cons(role, m, rest) => ExprArcs(m, c, active, Some(id), role) + ExprArcsOf(rest, c + Size(m), active, id)
  }

  /** The tree nodes the variant dashes, in post-order (the order the tree
      graph receives them): for the tool, the nodes outside every
      expression; the prototype dashes none. */
  function DashedNodes(v: Variant, n: Node, c: nat, active: bool): seq<nat>
  {
    DashedNodesOf(v, n.children, c + 1, Joins(n.kind, active)) + (if v.Tool? && !Joins(n.kind, active) then [c + 1] else [])
  }

  function DashedNodesOf(v: Variant, ks: Children, c: nat, active: bool): seq<nat>
  {
    match ks
    case Nil => []
    case Cons(_, m, rest) => DashedNodes(v, m, c, active) + DashedNodesOf(v, rest, c + Size(m), active)
  }

  /** The owners of the tree-graph clusters, in pre-order. */
  function TreeClusters(n: Node, c: nat): seq<nat>
  {
    (if HasTreeCluster(n.kind) then [c + 1] else []) + TreeClustersOf(n.children, c + 1)
  }

  function TreeClustersOf(ks: Children, c: nat): seq<nat>
  {
    match ks
    case Nil => []
    case Cons(_, m, rest) => TreeClusters(m, c) + TreeClustersOf(rest, c + Size(m))
  }

  /** The ordering edges from `from` through every root in turn. */
  function Chain(from: Vertex, roots: seq<nat>): seq<(Vertex, Vertex)>
    decreases |roots|
  {
    if roots == [] then [] else [(from, Id(roots[0]))] + Chain(Id(roots[0]), roots[1..])
  }

  /** Where the cursor stands after visiting `roots` from `from`. */
  function LastOr(from: Vertex, roots: seq<nat>): Vertex
  {
    if roots == [] then from else Id(roots[|roots| - 1])
  }

  lemma LastOrAppend(from: Vertex, a: seq<nat>, b: seq<nat>)
    ensures LastOr(from, a + b) == LastOr(LastOr(from, a), b)
  {
    if b == [] { assert a + b == a; } else { assert (a + b)[|a + b| - 1] == b[|b| - 1]; }
  }

  lemma ChainCons(from: Vertex, x: nat, r: seq<nat>)
    ensures Chain(from, [x] + r) == [(from, Id(x))] + Chain(Id(x), r)
    ensures LastOr(from, [x] + r) == LastOr(Id(x), r)
  {
    assert ([x] + r)[1..] == r;
    if r != [] { assert ([x] + r)[|r|] == r[|r| - 1]; }
  }

  /** Walking two stretches of roots one after the other chains them: the
      second stretch starts where the first one left the cursor. */
  lemma {:induction false} ChainAppend(from: Vertex, a: seq<nat>, b: seq<nat>)
    ensures Chain(from, a + b) == Chain(from, a) + Chain(LastOr(from, a), b)
    decreases |a|
  {
    if a == [] {
      assert a + b == b;
    } else {
      var x, r := a[0], a[1..];
      assert a == [x] + r;
      assert a + b == [x] + (r + b);
      ChainCons(from, x, r);
      ChainCons(from, x, r + b);
      ChainAppend(Id(x), r, b);
    }
  }

  /** The chain through the roots below a node, split at the node. */
  lemma ChainRoots(n: Node, c: nat, active: bool, from: Vertex)
    ensures Chain(from, Roots(n, c, active)) ==
            (if Opens(n.kind, active) then [(from, Id(c + 1))] else []) +
            Chain(if Opens(n.kind, active) then Id(c + 1) else from, RootsOf(n.children, c + 1, Joins(n.kind, active)))
    ensures LastOr(from, Roots(n, c, active)) ==
            LastOr(if Opens(n.kind, active) then Id(c + 1) else from, RootsOf(n.children, c + 1, Joins(n.kind, active)))
  {
    var head: seq<nat> := if Opens(n.kind, active) then [c + 1] else [];
    var rest := RootsOf(n.children, c + 1, Joins(n.kind, active));
    ChainAppend(from, head, rest);
    LastOrAppend(from, head, rest);
    if head != [] { assert head[1..] == []; }
  }
}
