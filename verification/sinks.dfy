/** Graph sinks. The scripts build pygraphviz graphs by calling add_node,
    add_edge and subgraph on them and never read them back, so a sink is
    modelled as the append-only log of those calls. */
module Sinks {
  import opened Util

  /** A graph node: a traversal id (the scripts use str(counter)) or one of
      the invisible layout markers 'rank1', 'rank2' and 'end'. */
  datatype Vertex = Id(id: nat) | Marker(name: string)

  /** The graph object a call is made on: the root graph, or the subgraph
      named 'cluster' + owner. */
  datatype Target = Main | Cluster(owner: nat)

  /** The style attribute values the scripts pass: 'filled', 'filled,bold'
      and 'filled,dashed' on traversal nodes, 'invis' and 'invisible' on the
      layout markers and their edges, 'dashed' on some clusters, and none. */
  datatype Style = Filled | FilledBold | FilledDashed | Invis | Invisible | Dashed | NoStyle

  datatype Op =
    /** add_node(v, label=, fillcolor=, shape=, style=) */
    | AddNode(at: Target, v: Vertex, text: string, color: string, shape: string, style: Style)
    /** add_edge(src, dst, label=, dir=, style=) */
    | AddEdge(at: Target, src: Vertex, dst: Vertex, text: string, dir: string, style: Style)
    /** subgraph(name='cluster' + owner, label=caption, style=style) */
    | AddSubgraph(at: Target, owner: nat, caption: string, style: Style)
    /** the expression graph's ordering subgraph (rank='same', rankdir='LR') */
    | OpenOrdering
    /** ordering.add_edge(src, dst, style='invis') */
    | OrderEdge(src: Vertex, dst: Vertex)

  /** The records of one add_node helper call: the node, then, when there is
      a parent, the edge between them, from the node to its parent when
      `invert` holds and from the parent to the node otherwise. */
  function NodeOps(at: Target, id: nat, text: string, parent: Option<nat>, edgeLabel: string,
                   color: string, invert: bool, shape: string, dir: string, style: Style): seq<Op>
  {
    [AddNode(at, Id(id), text, color, shape, style)] +
    match parent
    case None => []
    case Some(p) =>
      if invert then [AddEdge(at, Id(id), Id(p), edgeLabel, dir, NoStyle)]
      else [AddEdge(at, Id(p), Id(id), edgeLabel, dir, NoStyle)]
  }

  /** An edge between two traversal nodes, as the picture shows it: from
      `src` to `dst`, with its label and its `dir` attribute. */
  datatype Arc = Arc(src: nat, dst: nat, text: string, dir: string)

  /** Ids of the traversal nodes added, in the order they were added. */
  function NodeIds(log: seq<Op>): seq<nat>
  {
    if log == [] then []
    else (if log[0].AddNode? && log[0].v.Id? then [log[0].v.id] else []) + NodeIds(log[1..])
  }

  /** Ids of the traversal nodes added with the given style, in order. */
  function StyledIds(log: seq<Op>, style: Style): seq<nat>
  {
    if log == [] then []
    else (if log[0].AddNode? && log[0].v.Id? && log[0].style == style then [log[0].v.id] else [])
         + StyledIds(log[1..], style)
  }

  /** The edges between traversal nodes, in the order they were added. */
  function Arcs(log: seq<Op>): seq<Arc>
  {
    if log == [] then []
    else (if log[0].AddEdge? && log[0].src.Id? && log[0].dst.Id?
          then [Arc(log[0].src.id, log[0].dst.id, log[0].text, log[0].dir)] else [])
         + Arcs(log[1..])
  }

  /** The edges of the ordering subgraph, in order. */
  function Links(log: seq<Op>): seq<(Vertex, Vertex)>
  {
    if log == [] then []
    else (if log[0].OrderEdge? then [(log[0].src, log[0].dst)] else []) + Links(log[1..])
  }

  /** Owners of the clusters created, in order. */
  function Clusters(log: seq<Op>): seq<nat>
  {
    if log == [] then [] else (if log[0].AddSubgraph? then [log[0].owner] else []) + Clusters(log[1..])
  }

  lemma {:induction false} NodeIdsAppend(a: seq<Op>, b: seq<Op>)
    ensures NodeIds(a + b) == NodeIds(a) + NodeIds(b)
    decreases |a|
  {
    if a == [] {
      assert a + b == b;
    } else {
      assert (a + b)[0] == a[0] && (a + b)[1..] == a[1..] + b;
      NodeIdsAppend(a[1..], b);
    }
  }

  lemma {:induction false} StyledIdsAppend(a: seq<Op>, b: seq<Op>, style: Style)
    ensures StyledIds(a + b, style) == StyledIds(a, style) + StyledIds(b, style)
    decreases |a|
  {
    if a == [] {
      assert a + b == b;
    } else {
      assert (a + b)[0] == a[0] && (a + b)[1..] == a[1..] + b;
      StyledIdsAppend(a[1..], b, style);
    }
  }

  lemma {:induction false} ArcsAppend(a: seq<Op>, b: seq<Op>)
    ensures Arcs(a + b) == Arcs(a) + Arcs(b)
    decreases |a|
  {
    if a == [] {
      assert a + b == b;
    } else {
      assert (a + b)[0] == a[0] && (a + b)[1..] == a[1..] + b;
      ArcsAppend(a[1..], b);
    }
  }

  lemma {:induction false} LinksAppend(a: seq<Op>, b: seq<Op>)
    ensures Links(a + b) == Links(a) + Links(b)
    decreases |a|
  {
    if a == [] {
      assert a + b == b;
    } else {
      assert (a + b)[0] == a[0] && (a + b)[1..] == a[1..] + b;
      LinksAppend(a[1..], b);
    }
  }

  lemma {:induction false} ClustersAppend(a: seq<Op>, b: seq<Op>)
    ensures Clusters(a + b) == Clusters(a) + Clusters(b)
    decreases |a|
  {
    if a == [] {
      assert a + b == b;
    } else {
      assert (a + b)[0] == a[0] && (a + b)[1..] == a[1..] + b;
      ClustersAppend(a[1..], b);
    }
  }

  /** A record none of the views picks up: a layout marker, an edge between
      markers, or the opening of the ordering subgraph. */
  ghost predicate Silent(op: Op)
  {
    !(op.AddNode? && op.v.Id?) && !(op.AddEdge? && op.src.Id? && op.dst.Id?) && !op.OrderEdge? && !op.AddSubgraph?
  }

  lemma {:induction false} SilentViews(log: seq<Op>, style: Style)
    requires forall i :: 0 <= i < |log| ==> Silent(log[i])
    ensures NodeIds(log) == [] && StyledIds(log, style) == [] && Arcs(log) == [] && Links(log) == [] && Clusters(log) == []
    ensures Nodes(log) == []
    decreases |log|
  {
    if log != [] {
      assert forall i :: 0 <= i < |log[1..]| ==> log[1..][i] == log[i + 1];
      SilentViews(log[1..], style);
    }
  }

  // The views of a log of one record, and of one add_node helper call: the
  // node, and the edge to or from its parent when there is one.

  lemma OneOpIds(op: Op)
    ensures NodeIds([op]) == if op.AddNode? && op.v.Id? then [op.v.id] else []
  {
    assert [op][1..] == [];
  }

  lemma OneOpStyled(op: Op, style: Style)
    ensures StyledIds([op], style) == if op.AddNode? && op.v.Id? && op.style == style then [op.v.id] else []
  {
    assert [op][1..] == [];
  }

  lemma OneOpArcs(op: Op)
    ensures Arcs([op]) ==
      if op.AddEdge? && op.src.Id? && op.dst.Id? then [Arc(op.src.id, op.dst.id, op.text, op.dir)] else []
  {
    assert [op][1..] == [];
  }

  lemma OneOpLinks(op: Op)
    ensures Links([op]) == if op.OrderEdge? then [(op.src, op.dst)] else []
  {
    assert [op][1..] == [];
  }

  lemma OneOpClusters(op: Op)
    ensures Clusters([op]) == if op.AddSubgraph? then [op.owner] else []
  {
    assert [op][1..] == [];
  }

  /** A log made of an opening part with no node, a middle part and one
      node's records. */
  lemma ThreeIds(a: seq<Op>, b: seq<Op>, d: seq<Op>, ids: seq<nat>, id: nat)
    requires NodeIds(a) == [] && NodeIds(b) == ids && NodeIds(d) == [id]
    ensures NodeIds(a + b + d) == ids + [id]
  {
    NodeIdsAppend(a, b);
    assert NodeIds(a + b) == ids;
    NodeIdsAppend(a + b, d);
  }

  lemma NodeOpsIds(at: Target, id: nat, text: string, parent: Option<nat>, edgeLabel: string,
                   color: string, invert: bool, shape: string, dir: string, style: Style)
    ensures NodeIds(NodeOps(at, id, text, parent, edgeLabel, color, invert, shape, dir, style)) == [id]
  {
    var ops := NodeOps(at, id, text, parent, edgeLabel, color, invert, shape, dir, style);
    OneOpIds(ops[0]);
    if parent.Some? {
      assert ops == [ops[0]] + [ops[1]];
      OneOpIds(ops[1]);
      NodeIdsAppend([ops[0]], [ops[1]]);
    } else {
      assert ops == [ops[0]];
    }
  }

  lemma NodeOpsStyled(at: Target, id: nat, text: string, parent: Option<nat>, edgeLabel: string,
                      color: string, invert: bool, shape: string, dir: string, style: Style, s: Style)
    ensures StyledIds(NodeOps(at, id, text, parent, edgeLabel, color, invert, shape, dir, style), s) ==
            if s == style then [id] else []
  {
    var ops := NodeOps(at, id, text, parent, edgeLabel, color, invert, shape, dir, style);
    OneOpStyled(ops[0], s);
    if parent.Some? {
      assert ops == [ops[0]] + [ops[1]];
      OneOpStyled(ops[1], s);
      StyledIdsAppend([ops[0]], [ops[1]], s);
    } else {
      assert ops == [ops[0]];
    }
  }

  lemma NodeOpsArcs(at: Target, id: nat, text: string, parent: Option<nat>, edgeLabel: string,
                    color: string, invert: bool, shape: string, dir: string, style: Style)
    ensures Arcs(NodeOps(at, id, text, parent, edgeLabel, color, invert, shape, dir, style)) ==
      match parent
      case None => []
      case Some(p) => if invert then [Arc(id, p, edgeLabel, dir)] else [Arc(p, id, edgeLabel, dir)]
  {
    var ops := NodeOps(at, id, text, parent, edgeLabel, color, invert, shape, dir, style);
    OneOpArcs(ops[0]);
    if parent.Some? {
      assert ops == [ops[0]] + [ops[1]];
      OneOpArcs(ops[1]);
      ArcsAppend([ops[0]], [ops[1]]);
    } else {
      assert ops == [ops[0]];
    }
  }

  lemma NodeOpsQuiet(at: Target, id: nat, text: string, parent: Option<nat>, edgeLabel: string,
                     color: string, invert: bool, shape: string, dir: string, style: Style)
    ensures Links(NodeOps(at, id, text, parent, edgeLabel, color, invert, shape, dir, style)) == []
    ensures Clusters(NodeOps(at, id, text, parent, edgeLabel, color, invert, shape, dir, style)) == []
  {
    var ops := NodeOps(at, id, text, parent, edgeLabel, color, invert, shape, dir, style);
    OneOpLinks(ops[0]);
    OneOpClusters(ops[0]);
    if parent.Some? {
      assert ops == [ops[0]] + [ops[1]];
      OneOpLinks(ops[1]);
      OneOpClusters(ops[1]);
      LinksAppend([ops[0]], [ops[1]]);
      ClustersAppend([ops[0]], [ops[1]]);
    } else {
      assert ops == [ops[0]];
    }
  }

  /** A traversal node as it was added: its id, the graph object it went
      into, its label, its fill colour, its shape and its style. */
  datatype Placed = Placed(id: nat, at: Target, text: string, color: string, shape: string, style: Style)

  /** The traversal nodes added, with what they were added with, in order. */
  function Nodes(log: seq<Op>): seq<Placed>
  {
    if log == [] then []
    else (if log[0].AddNode? && log[0].v.Id?
          then [Placed(log[0].v.id, log[0].at, log[0].text, log[0].color, log[0].shape, log[0].style)] else [])
         + Nodes(log[1..])
  }

  lemma {:induction false} NodesAppend(a: seq<Op>, b: seq<Op>)
    ensures Nodes(a + b) == Nodes(a) + Nodes(b)
    decreases |a|
  {
    if a == [] {
      assert a + b == b;
    } else {
      assert (a + b)[0] == a[0] && (a + b)[1..] == a[1..] + b;
      NodesAppend(a[1..], b);
    }
  }

  /** The i-th node added is the one whose id NodeIds lists i-th. */
  lemma {:induction false} NodesIds(log: seq<Op>)
    ensures |Nodes(log)| == |NodeIds(log)|
    ensures forall i :: 0 <= i < |Nodes(log)| ==> Nodes(log)[i].id == NodeIds(log)[i]
    decreases |log|
  {
    if log != [] {
      NodesIds(log[1..]);
    }
  }

  lemma OneOpNodes(op: Op)
    ensures Nodes([op]) == if op.AddNode? && op.v.Id? then [Placed(op.v.id, op.at, op.text, op.color, op.shape, op.style)] else []
  {
    assert [op][1..] == [];
  }

  lemma NodeOpsNodes(at: Target, id: nat, text: string, parent: Option<nat>, edgeLabel: string,
                     color: string, invert: bool, shape: string, dir: string, style: Style)
    ensures Nodes(NodeOps(at, id, text, parent, edgeLabel, color, invert, shape, dir, style)) ==
            [Placed(id, at, text, color, shape, style)]
  {
    var ops := NodeOps(at, id, text, parent, edgeLabel, color, invert, shape, dir, style);
    assert [ops[0]][1..] == [];
    if parent.Some? {
      assert ops == [ops[0]] + [ops[1]];
      assert [ops[1]][1..] == [];
      NodesAppend([ops[0]], [ops[1]]);
    } else {
      assert ops == [ops[0]];
    }
  }

  /** One step of a loop that appends `first`, out of `all`, to a log: what is
      left to append is `rest`. */
  lemma Step(before: seq<Op>, after: seq<Op>, first: seq<Op>, rest: seq<Op>, all: seq<Op>)
    requires after == before + first && all == first + rest
    ensures before + all == after + rest
  {
  }

}
