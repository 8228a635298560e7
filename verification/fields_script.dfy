/** The script of the field-by-field dump (ast-tests/ast_graph_test.py):
    the state parse_node updates, the calls it makes, and what the graph
    ends up holding, stated in terms of the parsed file. */
module FieldScript {
  import opened Util
  import opened Sinks
  import opened FieldDump
  import opened FieldTable
  import opened FieldPaths
  import Traversal

  /** The whole script: parse_node on the parsed file, with counter 0 and no parent. */
  function Dump(ast: Value): seq<Op>
  {
    Walk(Shape(ast), None, "", 0)
  }

  /** Counter value x went to a value that draws a node: anything but a list. */
  ghost predicate Shown(ast: Value, x: nat)
  {
    Handed(ast, 0, x).Some? && !Handed(ast, 0, x).value.List?
  }

  // ---- what the script draws ----

  /** The ids of the nodes are distinct, lie in 1 .. the number of
      parse_node calls, and are exactly the counter values handed to
      values that are not lists; unless the file is a list, its node is
      added last and has id 1. */
  lemma DumpIds(ast: Value)
    ensures var ids := NodeIds(Dump(ast));
      Distinct(ids) && Within(ids, 0, Span(ast)) && (forall x: nat :: x in ids <==> Shown(ast, x)) &&
      (!ast.List? ==> ids != [] && ids[|ids| - 1] == 1)
  {
    WalkIds(Shape(ast), None, "", 0);
    OrderRange(Shape(ast), 0);
    SpanSize(ast);
    forall x: nat ensures x in NodeIds(Dump(ast)) <==> Shown(ast, x) {
      DrawnShown(ast, x);
    }
  }

  /** Counter value x is in the walk's order exactly when it went to a value that is not a list. */
  lemma DrawnShown(ast: Value, x: nat)
    ensures x in Order(Shape(ast), 0) <==> Shown(ast, x)
  {
    OrderDrawn(Shape(ast), 0, x);
    DrawnHanded(ast, 0, x);
  }

  /** Every node shows the value that took its id: labelled with its
      node_label, filled grey if it is None, red if its type is unknown,
      white otherwise, in the one graph. */
  lemma DumpNodes(ast: Value, k: nat)
    requires k < |Nodes(Dump(ast))|
    ensures var p := Nodes(Dump(ast))[k]; var w := Handed(ast, 0, p.id);
      w.Some? && !w.value.List? && NodeLabel(w.value) == Some(p.text) && p.color == Fill(w.value) &&
      (p.color == "grey" <==> w.value.Null?) && (p.color == "red" <==> w.value.Foreign?) &&
      p.at == Main && p.shape == "" && p.style == Filled
  {
    WalkNodes(Shape(ast), None, "", 0);
    FindShape(ast, 0, Nodes(Dump(ast))[k].id);
  }

  /** No node gets two edges; every edge is the one Link names for its
      head; and, unless the file is a list, every node but the file's own
      gets one. */
  lemma DumpEdges(ast: Value)
    ensures var arcs := Arcs(Dump(ast)); var hs := Traversal.Heads(arcs);
      Linked(arcs, Shape(ast), None, "", 0) && Distinct(hs) && Within(hs, 0, Span(ast)) &&
      (!ast.List? ==> forall x: nat :: x in hs <==> Shown(ast, x) && x != 1)
  {
    var t := Shape(ast);
    WalkArcs(t, None, "", 0);
    EdgesRange(t, None, "", 0);
    EdgesLinked(t, None, "", 0);
    SpanSize(ast);
    if !ast.List? {
      forall x: nat ensures x in Traversal.Heads(Edges(t, None, "", 0)) <==> Shown(ast, x) && x != 1 {
        LinkShown(ast, x);
      }
    }
  }

  /** Unless the file is a list, counter value x names an edge's head
      exactly when it went to a value that is not a list, other than the file. */
  lemma LinkShown(ast: Value, x: nat)
    requires !ast.List?
    ensures x in Traversal.Heads(Edges(Shape(ast), None, "", 0)) <==> Shown(ast, x) && x != 1
  {
    EdgesCover(Shape(ast), None, "", 0, x);
    LinkDrawn(Shape(ast), None, "", 0, x);
    DrawnHanded(ast, 0, x);
  }

  /** Every edge runs from a node added earlier in the walk's numbering to
      a later one, both showing values that are not lists, and carries no
      direction attribute; its tail is the nearest call above its head
      that is not a list, and its label is made of the roles of the visits
      on the way down from the tail: a field name, then '[i]' for each list
      element visited (FromAbove). */
  lemma DumpEdge(ast: Value, i: nat)
    requires i < |Arcs(Dump(ast))|
    ensures var a := Arcs(Dump(ast))[i];
      a.dir == "" && 0 < a.src < a.dst && Shown(ast, a.src) && Shown(ast, a.dst) && FromAbove(Shape(ast), 0, a.dst, a)
  {
    var t := Shape(ast);
    var a := Arcs(Dump(ast))[i];
    WalkArcs(t, None, "", 0);
    EdgesLinked(t, None, "", 0);
    assert Link(t, None, "", 0, a.dst) == Some(a);
    LinkFacts(t, None, "", 0, a.dst);
    LinkNearest(t, None, "", 0, a.dst);
    FindShape(ast, 0, a.src);
    FindShape(ast, 0, a.dst);
  }

  /** One call of the walk, unfolded: a list's calls under its own parent
      and edge label, or a node's calls under its id, then its node. */
  lemma WalkShape(v: Value, parent: Option<nat>, role: string, c: nat)
    ensures Walk(Shape(v), parent, role, c) ==
      (if v.List? then WalkOf(KidsFrom(v, 0), parent, role, c + 1)
       else WalkOf(KidsFrom(v, 0), Some(c + 1), "", c + 1) +
            NodeOps(Main, c + 1, NodeLabel(v).value, parent, role, Fill(v), false, "", "", Filled))
    ensures Span(v) == 1 + SizeOf(KidsFrom(v, 0))
  {
    SpanSize(v);
  }

  /** The script's state: the counter and the graph, as the log of the
      calls made on it. */
  class Script {
    var counter: nat
    var graph: seq<Op>

    constructor ()
      ensures counter == 0 && graph == []
    {
      counter := 0;
      graph := [];
    }

    /** add_node: a filled node, then the edge from its parent, if it has one. */
    method AddNode(id: nat, text: string, parent: Option<nat>, edgeLabel: string, color: string)
      modifies this
      ensures graph == old(graph) + NodeOps(Main, id, text, parent, edgeLabel, color, false, "", "", Filled)
      ensures counter == old(counter)
    {
      graph := graph + [Op.AddNode(Main, Id(id), text, color, "", Filled)];
      if parent.Some? {
        graph := graph + [AddEdge(Main, Id(parent.value), Id(id), edgeLabel, "", NoStyle)];
      }
    }

    /** parse_node: take the next counter value, make the calls of the
        matching branch (the elements of a list under the list's own
        parent, the fields of anything else under the new node), then add
        the node unless the value is a list. */
    method ParseNode(v: Value, parent: Option<nat>, role: string)
      modifies this
      ensures counter == old(counter) + Span(v)
      ensures graph == old(graph) + Walk(Shape(v), parent, role, old(counter))
      decreases v, 1
    {
      WalkShape(v, parent, role, counter);
      counter := counter + 1;
      var id := counter;
      var caption := NodeLabel(v);
      var color := Fill(v);
      if v.List? {
        ParseEach(v, parent, role);
      } else {
        ParseEach(v, Some(id), "");
      }
      if caption.Some? {
        AddNode(id, caption.value, parent, role, color);
      }
    }

    /** The calls of the branch for v, in order: parse_node on each of its
        fields or elements under parent, with the edge label role followed
        by the one the branch gives it ('[i]' for list element i, the
        field's name otherwise). */
    method ParseEach(v: Value, parent: Option<nat>, role: string)
      modifies this
      ensures counter == old(counter) + SizeOf(KidsFrom(v, 0))
      ensures graph == old(graph) + WalkOf(KidsFrom(v, 0), parent, role, old(counter))
      decreases v, 0
    {
      var i := 0;
      while i < Arity(v)
        invariant i <= Arity(v)
        invariant counter + SizeOf(KidsFrom(v, i)) == old(counter) + SizeOf(KidsFrom(v, 0))
        invariant graph + WalkOf(KidsFrom(v, i), parent, role, counter) == old(graph) + WalkOf(KidsFrom(v, 0), parent, role, old(counter))
      {
        ghost var before, c := graph, counter;
        SpanSize(Child(v, i));
        ParseNode(Child(v, i), parent, role + Role(v, i));
        Step(before, graph, Walk(Shape(Child(v, i)), parent, role + Role(v, i), c),
          WalkOf(KidsFrom(v, i + 1), parent, role, counter), WalkOf(KidsFrom(v, i), parent, role, c));
        i := i + 1;
      }
    }
  }

  /** The script body: parse the file from the root with counter 0. */
  method Run(ast: Value) returns (log: seq<Op>)
    ensures log == Dump(ast)
  {
    var s := new Script();
    s.ParseNode(ast, None, "");
    log := s.graph;
  }
}
