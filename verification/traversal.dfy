/** Reference orders of a depth-first walk that numbers nodes from a
    counter: the ids a walk hands out, in the order its nodes are emitted
    before (pre-order) or after (post-order) their children, and the
    parent-to-child edges it draws. Every walk of the repository is proved
    to emit one of these. */
module Traversal {
  import opened Util
  import opened Sinks
  import opened Ast

  /** Ids of the subtree entered with counter c, each node after its
      children: the root takes c + 1 before its children are numbered, and
      is emitted last. */
  function PostOrder(n: Node, c: nat): seq<nat>
  {
    PostOrderOf(n.children, c + 1) + [c + 1]
  }

  /** Ids of the subtrees of a list of children, entered with counter c. */
  function PostOrderOf(ks: Children, c: nat): seq<nat>
  {
    match ks
    case Nil => []
    case Cons(_, m, rest) => PostOrder(m, c) + PostOrderOf(rest, c + Size(m))
  }

  /** Ids of the subtree entered with counter c, each node before its children. */
  function PreOrder(n: Node, c: nat): seq<nat>
  {
    [c + 1] + PreOrderOf(n.children, c + 1)
  }

  function PreOrderOf(ks: Children, c: nat): seq<nat>
  {
    match ks
    case Nil => []
    case Cons(_, m, rest) => PreOrder(m, c) + PreOrderOf(rest, c + Size(m))
  }

  /** The tree edges of a post-order walk: the edges of the children's
      subtrees, then the edge from `parent` to the node, labelled with the
      node's role. Tree edges carry no direction attribute. */
  function TreeArcs(n: Node, c: nat, parent: Option<nat>, role: string): seq<Arc>
  {
    TreeArcsOf(n.children, c + 1, c + 1) + (if parent.Some? then [Arc(parent.value, c + 1, role, "")] else [])
  }

  /** The tree edges under the children of node `id`, entered with counter c. */
  function TreeArcsOf(ks: Children, c: nat, id: nat): seq<Arc>
  {
    match ks
    case Nil => []
    case Cons(role, m, rest) => TreeArcs(m, c, Some(id), role) + TreeArcsOf(rest, c + Size(m), id)
  }

  /** The tree edges of a pre-order walk: the edge into the node first. */
  function PreArcs(n: Node, c: nat, parent: Option<nat>, role: string): seq<Arc>
  {
    (if parent.Some? then [Arc(parent.value, c + 1, role, "")] else []) + PreArcsOf(n.children, c + 1, c + 1)
  }

  function PreArcsOf(ks: Children, c: nat, id: nat): seq<Arc>
  {
    match ks
    case Nil => []
    case Cons(role, m, rest) => PreArcs(m, c, Some(id), role) + PreArcsOf(rest, c + Size(m), id)
  }

  /** The node each edge points at. */
  function Heads(arcs: seq<Arc>): (r: seq<nat>)
    ensures |r| == |arcs|
    ensures forall i :: 0 <= i < |arcs| ==> r[i] == arcs[i].dst
  {
    if arcs == [] then [] else Heads(arcs[..|arcs| - 1]) + [arcs[|arcs| - 1].dst]
  }

  /** Every edge is an undirected-attribute edge from a smaller id to a
      larger one, both in (lo, hi], except the edge into lo + 1, which comes
      from `parent` and carries `role`. */
  ghost predicate Downward(arcs: seq<Arc>, lo: nat, hi: nat, parent: Option<nat>, role: string)
  {
    forall i :: 0 <= i < |arcs| ==>
      arcs[i].dir == "" && lo < arcs[i].dst <= hi &&
      if arcs[i].dst == lo + 1 then parent == Some(arcs[i].src) && arcs[i].text == role
      else lo < arcs[i].src < arcs[i].dst
  }

  // ---- the reference orders ----

  /** A walk that numbers in pre-order hands out c+1, ..., c+Size(n) in order. */
  lemma {:induction false} PreOrderIsIota(n: Node, c: nat)
    ensures PreOrder(n, c) == Iota(c, Size(n))
  {
    PreOrderOfIsIota(n.children, c + 1);
    IotaSplit(c, 1, SizeOf(n.children));
  }

  lemma {:induction false} PreOrderOfIsIota(ks: Children, c: nat)
    ensures PreOrderOf(ks, c) == Iota(c, SizeOf(ks))
  {
    match ks
    case Nil =>
    case Cons(_, m, rest) =>
      PreOrderIsIota(m, c);
      PreOrderOfIsIota(rest, c + Size(m));
      IotaSplit(c, Size(m), SizeOf(rest));
  }

  /** The post-order ids are the ids c+1 .. c+Size(n), each exactly once,
      and the root, c + 1, comes last, after its whole subtree. */
  lemma {:induction false} PostOrderFacts(n: Node, c: nat)
    ensures var ids := PostOrder(n, c);
      |ids| == Size(n) && Distinct(ids) && Within(ids, c, c + Size(n)) && ids[|ids| - 1] == c + 1
    ensures Within(PostOrder(n, c)[..Size(n) - 1], c + 1, c + Size(n))
  {
    var kids := PostOrderOf(n.children, c + 1);
    PostOrderOfFacts(n.children, c + 1);
    DistinctSnoc(kids, c + 1, c, c + Size(n));
    assert PostOrder(n, c)[..Size(n) - 1] == kids;
  }

  lemma {:induction false} PostOrderOfFacts(ks: Children, c: nat)
    ensures var ids := PostOrderOf(ks, c);
      |ids| == SizeOf(ks) && Distinct(ids) && Within(ids, c, c + SizeOf(ks))
  {
    match ks
    case Nil =>
    case Cons(_, m, rest) =>
      PostOrderFacts(m, c);
      PostOrderOfFacts(rest, c + Size(m));
      DistinctAppend(PostOrder(m, c), PostOrderOf(rest, c + Size(m)), c, c + Size(m), c + SizeOf(ks));
  }

  /** One tree edge into every node of the subtree, the root excepted when
      there is no parent: the edge heads are the post-order ids of the
      children's subtrees, followed by the root's id when it has a parent. */
  lemma {:induction false} TreeArcsHeads(n: Node, c: nat, parent: Option<nat>, role: string)
    ensures Heads(TreeArcs(n, c, parent, role)) ==
            PostOrderOf(n.children, c + 1) + (if parent.Some? then [c + 1] else [])
  {
    var own := if parent.Some? then [Arc(parent.value, c + 1, role, "")] else [];
    TreeArcsOfHeads(n.children, c + 1, c + 1);
    HeadsAppend(TreeArcsOf(n.children, c + 1, c + 1), own);
  }

  lemma {:induction false} TreeArcsOfHeads(ks: Children, c: nat, id: nat)
    ensures Heads(TreeArcsOf(ks, c, id)) == PostOrderOf(ks, c)
  {
    match ks
    case Nil =>
    case Cons(role, m, rest) =>
      assert TreeArcsOf(ks, c, id) == TreeArcs(m, c, Some(id), role) + TreeArcsOf(rest, c + Size(m), id);
      assert PostOrderOf(ks, c) == PostOrder(m, c) + PostOrderOf(rest, c + Size(m));
      TreeArcsHeads(m, c, Some(id), role);
      TreeArcsOfHeads(rest, c + Size(m), id);
      HeadsAppend(TreeArcs(m, c, Some(id), role), TreeArcsOf(rest, c + Size(m), id));
  }

  /** Every tree edge runs from a node's parent down to the node, never
      inverted; the one into the root comes from `parent` and carries `role`. */
  lemma {:induction false} TreeArcsDownward(n: Node, c: nat, parent: Option<nat>, role: string)
    ensures Downward(TreeArcs(n, c, parent, role), c, c + Size(n), parent, role)
  {
    var kids := TreeArcsOf(n.children, c + 1, c + 1);
    var own := if parent.Some? then [Arc(parent.value, c + 1, role, "")] else [];
    TreeArcsOfUnder(n.children, c + 1, c + 1);
    UnderDownward(kids, c, c + Size(n), parent, role);
    DownwardAppend(kids, own, c, c + Size(n), parent, role);
  }

  lemma {:induction false} TreeArcsOfUnder(ks: Children, c: nat, id: nat)
    requires id <= c
    ensures Under(TreeArcsOf(ks, c, id), id, c, c + SizeOf(ks))
  {
    match ks
    case Nil =>
    case Cons(role, m, rest) =>
      var mid := c + Size(m);
      var hi := c + SizeOf(ks);
      var first := TreeArcs(m, c, Some(id), role);
      assert TreeArcsOf(ks, c, id) == first + TreeArcsOf(rest, mid, id);
      TreeArcsDownward(m, c, Some(id), role);
      DownwardUnder(first, c, mid, id, role, c);
      TreeArcsOfUnder(rest, mid, id);
      UnderAppend(first, TreeArcsOf(rest, mid, id), id, c, mid, hi);
  }

  /** Every edge runs downwards from a tail no smaller than `id`, with its
      head in (lo, hi]. */
  ghost predicate Under(arcs: seq<Arc>, id: nat, lo: nat, hi: nat)
  {
    forall i :: 0 <= i < |arcs| ==> arcs[i].dir == "" && id <= arcs[i].src < arcs[i].dst && lo < arcs[i].dst <= hi
  }

  lemma UnderAppend(a: seq<Arc>, b: seq<Arc>, id: nat, lo: nat, mid: nat, hi: nat)
    requires Under(a, id, lo, mid) && Under(b, id, lo, hi) && mid <= hi
    ensures Under(a + b, id, lo, hi)
  {
    forall i | 0 <= i < |a + b|
      ensures (a + b)[i].dir == "" && id <= (a + b)[i].src < (a + b)[i].dst && lo < (a + b)[i].dst <= hi
    {
      if i < |a| { assert (a + b)[i] == a[i]; } else { assert (a + b)[i] == b[i - |a|]; }
    }
  }

  lemma DownwardAppend(a: seq<Arc>, b: seq<Arc>, lo: nat, hi: nat, parent: Option<nat>, role: string)
    requires Downward(a, lo, hi, parent, role)
    requires forall i :: 0 <= i < |b| ==> parent.Some? && b[i] == Arc(parent.value, lo + 1, role, "") && lo < hi
    ensures Downward(a + b, lo, hi, parent, role)
  {
    forall i | 0 <= i < |a + b|
      ensures (a + b)[i].dir == "" && lo < (a + b)[i].dst <= hi &&
        if (a + b)[i].dst == lo + 1 then parent == Some((a + b)[i].src) && (a + b)[i].text == role
        else lo < (a + b)[i].src < (a + b)[i].dst
    {
      if i < |a| { assert (a + b)[i] == a[i]; } else { assert (a + b)[i] == b[i - |a|]; }
    }
  }

  /** Edges wholly below the node lo + 1 never reach it. */
  lemma UnderDownward(arcs: seq<Arc>, lo: nat, hi: nat, parent: Option<nat>, role: string)
    requires Under(arcs, lo + 1, lo + 1, hi)
    ensures Downward(arcs, lo, hi, parent, role)
  {
  }

  /** A child's subtree, seen from its parent `id`. */
  lemma DownwardUnder(arcs: seq<Arc>, lo: nat, hi: nat, id: nat, role: string, base: nat)
    requires Downward(arcs, lo, hi, Some(id), role) && id <= base <= lo
    ensures Under(arcs, id, base, hi)
  {
  }

  lemma HeadsAppend(a: seq<Arc>, b: seq<Arc>)
    ensures Heads(a + b) == Heads(a) + Heads(b)
  {
    assert forall i :: 0 <= i < |a + b| ==> Heads(a + b)[i] == (Heads(a) + Heads(b))[i];
  }

  // ---- the pre-order walk's edges ----

  /** One pre-order edge into every node of the subtree, the root excepted
      when there is no parent, in the order the nodes are numbered. */
  lemma {:induction false} PreArcsHeads(n: Node, c: nat, parent: Option<nat>, role: string)
    ensures Heads(PreArcs(n, c, parent, role)) ==
            (if parent.Some? then [c + 1] else []) + PreOrderOf(n.children, c + 1)
  {
    var own := if parent.Some? then [Arc(parent.value, c + 1, role, "")] else [];
    PreArcsOfHeads(n.children, c + 1, c + 1);
    HeadsAppend(own, PreArcsOf(n.children, c + 1, c + 1));
  }

  lemma {:induction false} PreArcsOfHeads(ks: Children, c: nat, id: nat)
    ensures Heads(PreArcsOf(ks, c, id)) == PreOrderOf(ks, c)
  {
    match ks
    case Nil =>
    case Cons(role, m, rest) =>
      assert PreArcsOf(ks, c, id) == PreArcs(m, c, Some(id), role) + PreArcsOf(rest, c + Size(m), id);
      assert PreOrderOf(ks, c) == PreOrder(m, c) + PreOrderOf(rest, c + Size(m));
      PreArcsHeads(m, c, Some(id), role);
      PreArcsOfHeads(rest, c + Size(m), id);
      HeadsAppend(PreArcs(m, c, Some(id), role), PreArcsOf(rest, c + Size(m), id));
  }

  /** Every pre-order edge runs from a node's parent down to the node; the
      one into the root comes from `parent` and carries `role`. */
  lemma {:induction false} PreArcsDownward(n: Node, c: nat, parent: Option<nat>, role: string)
    ensures Downward(PreArcs(n, c, parent, role), c, c + Size(n), parent, role)
  {
    var kids := PreArcsOf(n.children, c + 1, c + 1);
    var own := if parent.Some? then [Arc(parent.value, c + 1, role, "")] else [];
    PreArcsOfUnder(n.children, c + 1, c + 1);
    UnderDownward(kids, c, c + Size(n), parent, role);
    DownwardPrepend(own, kids, c, c + Size(n), parent, role);
  }

  lemma {:induction false} PreArcsOfUnder(ks: Children, c: nat, id: nat)
    requires id <= c
    ensures Under(PreArcsOf(ks, c, id), id, c, c + SizeOf(ks))
  {
    match ks
    case Nil =>
    case Cons(role, m, rest) =>
      var mid := c + Size(m);
      var hi := c + SizeOf(ks);
      var first := PreArcs(m, c, Some(id), role);
      assert PreArcsOf(ks, c, id) == first + PreArcsOf(rest, mid, id);
      PreArcsDownward(m, c, Some(id), role);
      DownwardUnder(first, c, mid, id, role, c);
      PreArcsOfUnder(rest, mid, id);
      UnderAppend(first, PreArcsOf(rest, mid, id), id, c, mid, hi);
  }

  lemma DownwardPrepend(a: seq<Arc>, b: seq<Arc>, lo: nat, hi: nat, parent: Option<nat>, role: string)
    requires forall i :: 0 <= i < |a| ==> parent.Some? && a[i] == Arc(parent.value, lo + 1, role, "") && lo < hi
    requires Downward(b, lo, hi, parent, role)
    ensures Downward(a + b, lo, hi, parent, role)
  {
    forall i | 0 <= i < |a + b|
      ensures (a + b)[i].dir == "" && lo < (a + b)[i].dst <= hi &&
        if (a + b)[i].dst == lo + 1 then parent == Some((a + b)[i].src) && (a + b)[i].text == role
        else lo < (a + b)[i].src < (a + b)[i].dst
    {
      if i < |a| { assert (a + b)[i] == a[i]; } else { assert (a + b)[i] == b[i - |a|]; }
    }
  }

  // ---- which node an id names ----

  /** The AST node that takes id x in the subtree entered with counter c, if any. */
  function Find(n: Node, c: nat, x: nat): Option<Node>
  {
    if x == c + 1 then Some(n) else FindOf(n.children, c + 1, x)
  }

  function FindOf(ks: Children, c: nat, x: nat): Option<Node>
  {
    match ks
    case Nil => None
    case Cons(_, m, rest) => if x <= c + Size(m) then Find(m, c, x) else FindOf(rest, c + Size(m), x)
  }

  /** Exactly the ids c+1 .. c+Size(n) name a node of the subtree. */
  lemma {:induction false} FindRange(n: Node, c: nat, x: nat)
    ensures Find(n, c, x).Some? <==> c < x <= c + Size(n)
  {
    if x != c + 1 { FindOfRange(n.children, c + 1, x); }
  }

  lemma {:induction false} FindOfRange(ks: Children, c: nat, x: nat)
    ensures FindOf(ks, c, x).Some? <==> c < x <= c + SizeOf(ks)
  {
    match ks
    case Nil =>
    case Cons(_, m, rest) =>
      FindRange(m, c, x);
      if x > c + Size(m) { FindOfRange(rest, c + Size(m), x); }
  }

  /** Every node in `ns` carries the label of the AST node its id names in
      the subtree entered with counter c. */
  ghost predicate Labelled(ns: seq<Placed>, n: Node, c: nat)
  {
    forall i :: 0 <= i < |ns| ==> Find(n, c, ns[i].id).Some? && ns[i].text == TreeLabel(Find(n, c, ns[i].id).value)
  }

  ghost predicate LabelledOf(ns: seq<Placed>, ks: Children, c: nat)
  {
    forall i :: 0 <= i < |ns| ==> FindOf(ks, c, ns[i].id).Some? && ns[i].text == TreeLabel(FindOf(ks, c, ns[i].id).value)
  }

  lemma LabelledAppend(a: seq<Placed>, b: seq<Placed>, n: Node, c: nat)
    requires Labelled(a, n, c) && Labelled(b, n, c)
    ensures Labelled(a + b, n, c)
  {
    forall i | 0 <= i < |a + b|
      ensures Find(n, c, (a + b)[i].id).Some? && (a + b)[i].text == TreeLabel(Find(n, c, (a + b)[i].id).value)
    {
      if i < |a| { assert (a + b)[i] == a[i]; } else { assert (a + b)[i] == b[i - |a|]; }
    }
  }

  lemma LabelledOfAppend(a: seq<Placed>, b: seq<Placed>, ks: Children, c: nat)
    requires LabelledOf(a, ks, c) && LabelledOf(b, ks, c)
    ensures LabelledOf(a + b, ks, c)
  {
    forall i | 0 <= i < |a + b|
      ensures FindOf(ks, c, (a + b)[i].id).Some? && (a + b)[i].text == TreeLabel(FindOf(ks, c, (a + b)[i].id).value)
    {
      if i < |a| { assert (a + b)[i] == a[i]; } else { assert (a + b)[i] == b[i - |a|]; }
    }
  }

  /** The children's nodes, seen from the node above them. */
  lemma LabelledUnder(ns: seq<Placed>, n: Node, c: nat)
    requires LabelledOf(ns, n.children, c + 1)
    ensures Labelled(ns, n, c)
  {
    forall i | 0 <= i < |ns|
      ensures Find(n, c, ns[i].id).Some? && ns[i].text == TreeLabel(Find(n, c, ns[i].id).value)
    {
      FindOfRange(n.children, c + 1, ns[i].id);
    }
  }

  /** A first child's nodes, seen from the list of children. */
  lemma LabelledFirst(ns: seq<Placed>, ks: Children, c: nat)
    requires ks.Cons? && Labelled(ns, ks.node, c)
    ensures LabelledOf(ns, ks, c)
  {
    forall i | 0 <= i < |ns|
      ensures FindOf(ks, c, ns[i].id).Some? && ns[i].text == TreeLabel(FindOf(ks, c, ns[i].id).value)
    {
      FindRange(ks.node, c, ns[i].id);
    }
  }

  /** The later children's nodes, seen from the whole list. */
  lemma LabelledRest(ns: seq<Placed>, ks: Children, c: nat)
    requires ks.Cons? && LabelledOf(ns, ks.rest, c + Size(ks.node))
    ensures LabelledOf(ns, ks, c)
  {
    forall i | 0 <= i < |ns|
      ensures FindOf(ks, c, ns[i].id).Some? && ns[i].text == TreeLabel(FindOf(ks, c, ns[i].id).value)
    {
      FindOfRange(ks.rest, c + Size(ks.node), ns[i].id);
    }
  }
}
