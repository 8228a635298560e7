/** What the reference definitions of the expression-extracting walk
    promise: every expression is rooted at one opening node and its members
    follow in pre-order; the roots and the other members split the members;
    every tree node is either in an expression or dashed; every expression
    edge hangs a non-root member from a node already in the expression; an
    IdentifierType and the subtree below it stay out; the prototype dashes
    nothing. */
module ExprFacts {
  import opened Util
  import opened Sinks
  import opened Ast
  import opened Traversal
  import opened ExprClassify
  import opened ExprViews

  // ---- order ----

  /** The expression roots come in pre-order, each once, within the subtree's ids. */
  lemma {:induction false} RootsOrdered(n: Node, c: nat, active: bool)
    ensures Increasing(Roots(n, c, active)) && Within(Roots(n, c, active), c, c + Size(n))
  {
    var head: seq<nat> := if Opens(n.kind, active) then [c + 1] else [];
    RootsOfOrdered(n.children, c + 1, Joins(n.kind, active));
    IncreasingAppend(head, RootsOf(n.children, c + 1, Joins(n.kind, active)), c, c + 1, c + Size(n));
  }

  lemma {:induction false} RootsOfOrdered(ks: Children, c: nat, active: bool)
    ensures Increasing(RootsOf(ks, c, active)) && Within(RootsOf(ks, c, active), c, c + SizeOf(ks))
  {
    match ks
    case Nil =>
    case Cons(_, m, rest) =>
      RootsOrdered(m, c, active);
      RootsOfOrdered(rest, c + Size(m), active);
      IncreasingAppend(Roots(m, c, active), RootsOf(rest, c + Size(m), active), c, c + Size(m), c + SizeOf(ks));
  }

  /** The members of the expressions come in pre-order, each once, within the subtree's ids. */
  lemma {:induction false} MembersOrdered(n: Node, c: nat, active: bool)
    ensures Increasing(Members(n, c, active)) && Within(Members(n, c, active), c, c + Size(n))
  {
    var head: seq<nat> := if Joins(n.kind, active) then [c + 1] else [];
    MembersOfOrdered(n.children, c + 1, Joins(n.kind, active));
    IncreasingAppend(head, MembersOf(n.children, c + 1, Joins(n.kind, active)), c, c + 1, c + Size(n));
  }

  lemma {:induction false} MembersOfOrdered(ks: Children, c: nat, active: bool)
    ensures Increasing(MembersOf(ks, c, active)) && Within(MembersOf(ks, c, active), c, c + SizeOf(ks))
  {
    match ks
    case Nil =>
    case Cons(_, m, rest) =>
      MembersOrdered(m, c, active);
      MembersOfOrdered(rest, c + Size(m), active);
      IncreasingAppend(Members(m, c, active), MembersOf(rest, c + Size(m), active), c, c + Size(m), c + SizeOf(ks));
  }

  // ---- partitions ----

  /** `a` and `b` together hold the ids of `w`, as often as `w` holds them. */
  ghost predicate Splits(a: seq<nat>, b: seq<nat>, w: seq<nat>)
  {
    multiset(a) + multiset(b) == multiset(w)
  }

  /** Every member either opens its expression (drawn bold) or hangs from
      its parent inside one (drawn plain), never both. */
  lemma {:induction false} RootsInnerSplit(n: Node, c: nat, active: bool)
    ensures Splits(Roots(n, c, active), Inner(n, c, active), Members(n, c, active))
  {
    var joins := Joins(n.kind, active);
    var r: seq<nat> := if Opens(n.kind, active) then [c + 1] else [];
    var i: seq<nat> := if joins && !Opens(n.kind, active) then [c + 1] else [];
    var m: seq<nat> := if joins then [c + 1] else [];
    assert Splits(r, i, m);
    RootsInnerSplitOf(n.children, c + 1, joins);
    SplitAppend(Roots(n, c, active), Inner(n, c, active), Members(n, c, active),
                r, RootsOf(n.children, c + 1, joins), i, InnerOf(n.children, c + 1, joins), m, MembersOf(n.children, c + 1, joins));
  }

  lemma {:induction false} RootsInnerSplitOf(ks: Children, c: nat, active: bool)
    ensures Splits(RootsOf(ks, c, active), InnerOf(ks, c, active), MembersOf(ks, c, active))
  {
    match ks
    case Nil =>
    case Cons(_, m, rest) =>
      var rm, rr := Roots(m, c, active), RootsOf(rest, c + Size(m), active);
      var im, ir := Inner(m, c, active), InnerOf(rest, c + Size(m), active);
      var mm, mr := Members(m, c, active), MembersOf(rest, c + Size(m), active);
      RootsInnerSplit(m, c, active);
      RootsInnerSplitOf(rest, c + Size(m), active);
      SplitAppend(RootsOf(ks, c, active), InnerOf(ks, c, active), MembersOf(ks, c, active), rm, rr, im, ir, mm, mr);
  }

  /** The tool puts every tree node either into an expression or into the
      dashed style, never both. */
  lemma {:induction false} MembersDashedSplit(n: Node, c: nat, active: bool)
    ensures Splits(Members(n, c, active), DashedNodes(Tool, n, c, active), PostOrder(n, c))
  {
    MembersDashedSplitOf(n.children, c + 1, Joins(n.kind, active));
  }

  lemma {:induction false} MembersDashedSplitOf(ks: Children, c: nat, active: bool)
    ensures Splits(MembersOf(ks, c, active), DashedNodesOf(Tool, ks, c, active), PostOrderOf(ks, c))
  {
    match ks
    case Nil =>
    case Cons(_, m, rest) =>
      var mm, mr := Members(m, c, active), MembersOf(rest, c + Size(m), active);
      var dm, dr := DashedNodes(Tool, m, c, active), DashedNodesOf(Tool, rest, c + Size(m), active);
      var pm, pr := PostOrder(m, c), PostOrderOf(rest, c + Size(m));
      MembersDashedSplit(m, c, active);
      MembersDashedSplitOf(rest, c + Size(m), active);
      SplitAppend(MembersOf(ks, c, active), DashedNodesOf(Tool, ks, c, active), PostOrderOf(ks, c), mm, mr, dm, dr, pm, pr);
  }

  /** Two splits side by side make a split. */
  lemma SplitAppend(x: seq<nat>, y: seq<nat>, z: seq<nat>,
                    a: seq<nat>, a': seq<nat>, b: seq<nat>, b': seq<nat>, w: seq<nat>, w': seq<nat>)
    requires x == a + a' && y == b + b' && z == w + w'
    requires Splits(a, b, w) && Splits(a', b', w')
    ensures Splits(x, y, z)
  {
  }

  /** The split per node: a tree node is in an expression exactly when the
      tool does not dash it. */
  lemma MembersOrDashed(n: Node, c: nat, active: bool, x: nat)
    ensures x in PostOrder(n, c) <==> x in Members(n, c, active) || x in DashedNodes(Tool, n, c, active)
    ensures !(x in Members(n, c, active) && x in DashedNodes(Tool, n, c, active))
  {
    MembersDashedSplit(n, c, active);
    PostOrderFacts(n, c);
    DistinctCount(PostOrder(n, c), x);
    assert x in Members(n, c, active) <==> multiset(Members(n, c, active))[x] > 0;
    assert x in DashedNodes(Tool, n, c, active) <==> multiset(DashedNodes(Tool, n, c, active))[x] > 0;
  }

  /** The prototype dashes no tree node. */
  lemma {:induction false} PrototypeUndashed(n: Node, c: nat, active: bool)
    ensures DashedNodes(Prototype, n, c, active) == []
  {
    PrototypeUndashedOf(n.children, c + 1, Joins(n.kind, active));
  }

  lemma {:induction false} PrototypeUndashedOf(ks: Children, c: nat, active: bool)
    ensures DashedNodesOf(Prototype, ks, c, active) == []
  {
    match ks
    case Nil =>
    case Cons(_, m, rest) =>
      PrototypeUndashed(m, c, active);
      PrototypeUndashedOf(rest, c + Size(m), active);
  }

  // ---- nodes outside every expression ----

  /** No node of the subtree starts an expression. */
  ghost predicate NoOpener(n: Node)
  {
    !IsOpener(n.kind) && NoOpenerOf(n.children)
  }

  ghost predicate NoOpenerOf(ks: Children)
  {
    match ks
    case Nil => true
    case Cons(_, m, rest) => NoOpener(m) && NoOpenerOf(rest)
  }

  /** Outside an expression, a subtree that opens none puts nothing into the
      expression graph, and the tool dashes all its nodes. */
  lemma {:induction false} OutsideQuiet(n: Node, c: nat)
    requires NoOpener(n)
    ensures Members(n, c, false) == [] && Roots(n, c, false) == []
    ensures DashedNodes(Tool, n, c, false) == PostOrder(n, c)
  {
    OutsideQuietOf(n.children, c + 1);
  }

  lemma {:induction false} OutsideQuietOf(ks: Children, c: nat)
    requires NoOpenerOf(ks)
    ensures MembersOf(ks, c, false) == [] && RootsOf(ks, c, false) == []
    ensures DashedNodesOf(Tool, ks, c, false) == PostOrderOf(ks, c)
  {
    match ks
    case Nil =>
    case Cons(_, m, rest) =>
      OutsideQuiet(m, c);
      OutsideQuietOf(rest, c + Size(m));
  }

  /** An IdentifierType (a leaf in every parsed tree, or any subtree below it
      that opens nothing) stays out of the expression graph even inside an
      expression, and the tool dashes it. */
  lemma IdentifierTypeCut(n: Node, c: nat, active: bool)
    requires n.kind.IdentifierType? && NoOpenerOf(n.children)
    ensures Members(n, c, active) == [] && Roots(n, c, active) == []
    ensures DashedNodes(Tool, n, c, active) == PostOrder(n, c)
  {
    OutsideQuietOf(n.children, c + 1);
  }

  // ---- expression edges ----

  /** The end of an expression edge nearer the expression root (the parent). */
  function Upper(a: Arc): nat
  {
    if a.src < a.dst then a.src else a.dst
  }

  /** The end of an expression edge farther from the root (the child). */
  function Lower(a: Arc): nat
  {
    if a.src < a.dst then a.dst else a.src
  }

  function Lowers(arcs: seq<Arc>): (r: seq<nat>)
    ensures |r| == |arcs|
    ensures forall i :: 0 <= i < |arcs| ==> r[i] == Lower(arcs[i])
  {
    if arcs == [] then [] else Lowers(arcs[..|arcs| - 1]) + [Lower(arcs[|arcs| - 1])]
  }

  lemma LowersAppend(a: seq<Arc>, b: seq<Arc>)
    ensures Lowers(a + b) == Lowers(a) + Lowers(b)
  {
    assert forall i :: 0 <= i < |a + b| ==> Lowers(a + b)[i] == (Lowers(a) + Lowers(b))[i];
  }

  /** The child end of the edge between `p` and a later node `id` is `id`,
      whichever way the role turns the edge. */
  lemma ExprArcEnds(p: nat, id: nat, role: string)
    requires p < id
    ensures Lower(ExprArc(p, id, role)) == id && Upper(ExprArc(p, id, role)) == p
    ensures ExprArc(p, id, role).src == id <==> Inverted(role)
  {
  }

  /** One expression edge per member that does not open its expression,
      hanging that member: roots have no edge to a parent. */
  lemma {:induction false} ExprArcsLowers(n: Node, c: nat, active: bool, parent: Option<nat>, role: string)
    requires active ==> parent.Some? && parent.value <= c
    ensures Lowers(ExprArcs(n, c, active, parent, role)) == Inner(n, c, active)
  {
    var own := if Joins(n.kind, active) && !Opens(n.kind, active) && parent.Some? then [ExprArc(parent.value, c + 1, role)] else [];
    ExprArcsOfLowers(n.children, c + 1, Joins(n.kind, active), c + 1);
    LowersAppend(own, ExprArcsOf(n.children, c + 1, Joins(n.kind, active), c + 1));
    if own != [] {
      ExprArcEnds(parent.value, c + 1, role);
    }
  }

  lemma {:induction false} ExprArcsOfLowers(ks: Children, c: nat, active: bool, id: nat)
    requires id <= c
    ensures Lowers(ExprArcsOf(ks, c, active, id)) == InnerOf(ks, c, active)
  {
    match ks
    case Nil =>
    case Cons(role, m, rest) =>
      ExprArcsLowers(m, c, active, Some(id), role);
      ExprArcsOfLowers(rest, c + Size(m), active, id);
      LowersAppend(ExprArcs(m, c, active, Some(id), role), ExprArcsOf(rest, c + Size(m), active, id));
  }

  /** Every edge is unlabelled, has dir=back, and its parent end lies in `s`. */
  ghost predicate Hooked(arcs: seq<Arc>, s: set<nat>)
  {
    forall i :: 0 <= i < |arcs| ==> arcs[i].dir == "back" && arcs[i].text == "" && Upper(arcs[i]) in s
  }

  lemma HookedAppend(a: seq<Arc>, b: seq<Arc>, s: set<nat>, t: set<nat>)
    requires Hooked(a, s) && Hooked(b, t)
    ensures Hooked(a + b, s + t)
  {
    forall i | 0 <= i < |a + b|
      ensures (a + b)[i].dir == "back" && (a + b)[i].text == "" && Upper((a + b)[i]) in s + t
    {
      if i < |a| { assert (a + b)[i] == a[i]; } else { assert (a + b)[i] == b[i - |a|]; }
    }
  }

  lemma HookedWiden(a: seq<Arc>, s: set<nat>, t: set<nat>)
    requires Hooked(a, s) && s <= t
    ensures Hooked(a, t)
  {
  }

  /** The parents an edge of the subtree may hang from: its members, and
      `parent` when an expression is already open. */
  ghost function Hooks(members: seq<nat>, active: bool, parent: Option<nat>): set<nat>
  {
    Elems(members) + (if active && parent.Some? then {parent.value} else {})
  }

  /** The parent end of every expression edge is in the expression graph:
      a member of the subtree, or the parent when an expression is open. */
  lemma {:induction false} ExprArcsHooked(n: Node, c: nat, active: bool, parent: Option<nat>, role: string)
    requires parent.Some? ==> parent.value <= c
    ensures Hooked(ExprArcs(n, c, active, parent, role), Hooks(Members(n, c, active), active, parent))
  {
    var joins := Joins(n.kind, active);
    var own := if joins && !Opens(n.kind, active) && parent.Some? then [ExprArc(parent.value, c + 1, role)] else [];
    var head: seq<nat> := if joins then [c + 1] else [];
    var kids := ExprArcsOf(n.children, c + 1, joins, c + 1);
    var below := MembersOf(n.children, c + 1, joins);
    var s := Hooks(Members(n, c, active), active, parent);
    ElemsAppend(head, below);
    if own != [] {
      ExprArcEnds(parent.value, c + 1, role);
      assert Upper(own[0]) in s;
    }
    assert Hooked(own, s);
    ExprArcsOfHooked(n.children, c + 1, joins, c + 1);
    HookedWiden(kids, Elems(below) + (if joins then {c + 1} else {}), s);
    HookedAppend(own, kids, s, s);
    assert s + s == s;
  }

  lemma {:induction false} ExprArcsOfHooked(ks: Children, c: nat, active: bool, id: nat)
    requires id <= c
    ensures Hooked(ExprArcsOf(ks, c, active, id), Elems(MembersOf(ks, c, active)) + (if active then {id} else {}))
  {
    match ks
    case Nil =>
    case Cons(role, m, rest) =>
      var tip: set<nat> := if active then {id} else {};
      ExprArcsHooked(m, c, active, Some(id), role);
      ExprArcsOfHooked(rest, c + Size(m), active, id);
      ElemsAppend(Members(m, c, active), MembersOf(rest, c + Size(m), active));
      HookedAppend(ExprArcs(m, c, active, Some(id), role), ExprArcsOf(rest, c + Size(m), active, id),
                   Elems(Members(m, c, active)) + tip, Elems(MembersOf(rest, c + Size(m), active)) + tip);
  }
}
