/** Where the edges of the field-by-field dump (ast-tests/ast_graph_test.py)
    come from: the nearest call above a node that draws one, with the edge
    labels of the visits on the way down accumulated, as the loop over a
    list's elements hands on its own parent and label. */
module FieldPaths {
  import opened Util
  import opened Sinks
  import opened FieldDump

  /** Call y lies strictly above call x: x is in the subtree of y and is not y. */
  ghost predicate Above(t: Tree, c: nat, y: nat, x: nat)
  {
    Find(t, c, y).Some? && y < x < y + Size(Find(t, c, y).value)
  }

  ghost predicate AboveOf(ks: Kids, c: nat, y: nat, x: nat)
  {
    FindOf(ks, c, y).Some? && y < x < y + Size(FindOf(ks, c, y).value)
  }

  /** The edge labels of the visits on the way down from the call entered
      with counter c to call x, in order: a field name, then '[i]' for each
      list element visited on the way. */
  function Roles(t: Tree, c: nat, x: nat): string
  {
    if x == c + 1 then "" else RolesOf(t.kids, c + 1, x)
  }

  function RolesOf(ks: Kids, c: nat, x: nat): string
  {
    match ks
    case Nil => ""
    case Cons(r, m, rest) => if x <= c + Size(m) then r + Roles(m, c, x) else RolesOf(rest, c + Size(m), x)
  }

  /** The subtree of call y ends within the subtree it is found in. */
  lemma {:induction false} FindWithin(t: Tree, c: nat, y: nat)
    ensures Find(t, c, y).Some? ==> y + Size(Find(t, c, y).value) <= c + Size(t) + 1
  {
    if y != c + 1 { FindOfWithin(t.kids, c + 1, y); }
  }

  lemma {:induction false} FindOfWithin(ks: Kids, c: nat, y: nat)
    ensures FindOf(ks, c, y).Some? ==> y + Size(FindOf(ks, c, y).value) <= c + SizeOf(ks) + 1
  {
    match ks
    case Nil =>
    case Cons(_, m, rest) =>
      if y <= c + Size(m) { FindWithin(m, c, y); } else { FindOfWithin(rest, c + Size(m), y); }
  }

  /** Edge a into x comes from `parent`, labelled with the call's own role
      followed by the roles on the way down to x, and every call above x in
      the subtree is a list. */
  ghost predicate FromParent(t: Tree, parent: Option<nat>, role: string, c: nat, x: nat, a: Arc)
  {
    parent.Some? && a.src == parent.value && a.text == role + Roles(t, c, x) &&
    forall y :: Above(t, c, y, x) ==> Find(t, c, y).value.Spread?
  }

  ghost predicate FromParentOf(ks: Kids, up: Option<nat>, prefix: string, c: nat, x: nat, a: Arc)
  {
    up.Some? && a.src == up.value && a.text == prefix + RolesOf(ks, c, x) &&
    forall y :: AboveOf(ks, c, y, x) ==> FindOf(ks, c, y).value.Spread?
  }

  /** Edge a into x comes from a call above x that draws a node, labelled
      with the roles on the way down from it to x, and every call between
      the two is a list. */
  ghost predicate FromAbove(t: Tree, c: nat, x: nat, a: Arc)
  {
    c < a.src && Above(t, c, a.src, x) && Drawn(t, c, a.src) && a.text == Roles(Find(t, c, a.src).value, a.src - 1, x) &&
    forall y :: Above(t, c, y, x) && a.src < y ==> Find(t, c, y).value.Spread?
  }

  ghost predicate FromAboveOf(ks: Kids, c: nat, x: nat, a: Arc)
  {
    c < a.src && AboveOf(ks, c, a.src, x) && DrawnOf(ks, c, a.src) && a.text == Roles(FindOf(ks, c, a.src).value, a.src - 1, x) &&
    forall y :: AboveOf(ks, c, y, x) && a.src < y ==> FindOf(ks, c, y).value.Spread?
  }

  /** The edge into x comes from the nearest call above x that draws a
      node, labelled with the roles of the visits from there down to x; or,
      when every call above x in the subtree is a list, from `parent`,
      labelled with the call's own role followed by those roles. */
  lemma {:induction false} LinkNearest(t: Tree, parent: Option<nat>, role: string, c: nat, x: nat)
    requires Link(t, parent, role, c, x).Some?
    ensures var a := Link(t, parent, role, c, x).value; FromParent(t, parent, role, c, x, a) || FromAbove(t, c, x, a)
  {
    var a := Link(t, parent, role, c, x).value;
    if x == c + 1 {
      forall y ensures !Above(t, c, y, x) { FindRange(t, c, y); }
    } else {
      var up, pre := Up(t, parent, c + 1), Prefix(t, role);
      LinkOfNearest(t.kids, up, pre, c + 1, x);
      LinkFacts(t, parent, role, c, x);
      FindRange(t, c, x);
      assert a == LinkOf(t.kids, up, pre, c + 1, x).value;
      if FromParentOf(t.kids, up, pre, c + 1, x, a) {
        if t.Node? {
          assert Find(t, c, a.src) == Some(t);
          assert a.text == Roles(t, c, x);
          forall y | Above(t, c, y, x) && a.src < y ensures Find(t, c, y).value.Spread? {
            assert AboveOf(t.kids, c + 1, y, x);
          }
          assert FromAbove(t, c, x, a);
        } else {
          forall y | Above(t, c, y, x) ensures Find(t, c, y).value.Spread? {
            if y != c + 1 { assert AboveOf(t.kids, c + 1, y, x); }
          }
          assert FromParent(t, parent, role, c, x, a);
        }
      } else {
        FindOfRange(t.kids, c + 1, a.src);
        assert Find(t, c, a.src) == FindOf(t.kids, c + 1, a.src);
        forall y | Above(t, c, y, x) && a.src < y ensures Find(t, c, y).value.Spread? {
          assert AboveOf(t.kids, c + 1, y, x);
        }
        assert FromAbove(t, c, x, a);
      }
    }
  }

  lemma {:induction false} LinkOfNearest(ks: Kids, up: Option<nat>, prefix: string, c: nat, x: nat)
    requires LinkOf(ks, up, prefix, c, x).Some?
    ensures var a := LinkOf(ks, up, prefix, c, x).value; FromParentOf(ks, up, prefix, c, x, a) || FromAboveOf(ks, c, x, a)
  {
    var r, m, rest := ks.role, ks.tree, ks.rest;
    var mid := c + Size(m);
    var a := LinkOf(ks, up, prefix, c, x).value;
    if x <= mid {
      LinkNearest(m, up, prefix + r, c, x);
      assert a == Link(m, up, prefix + r, c, x).value;
      assert prefix + r + Roles(m, c, x) == prefix + RolesOf(ks, c, x);
      forall y | AboveOf(ks, c, y, x) ensures Above(m, c, y, x) && FindOf(ks, c, y) == Find(m, c, y) {
      }
    } else {
      LinkOfNearest(rest, up, prefix, mid, x);
      forall y: nat | AboveOf(ks, c, y, x) ensures AboveOf(rest, mid, y, x) && FindOf(ks, c, y) == FindOf(rest, mid, y) {
        if y <= mid { FindWithin(m, c, y); }
      }
      if !FromParentOf(rest, up, prefix, mid, x, a) {
        FindOfRange(rest, mid, a.src);
        assert FindOf(ks, c, a.src) == FindOf(rest, mid, a.src);
      }
    }
  }
}
