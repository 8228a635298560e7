# expressions: AST and expression graphs, modelled in Dafny

The repository holds small Python scripts. Each walks the abstract syntax tree (AST) that pycparser builds for a C file and records it as a Graphviz graph through pygraphviz. A walk gives every node a number from one global counter, which goes up by one on each `parse_node` call.

- `expressions.py` is the tool. In one depth-first pass it builds two graphs. AST-graph nodes are added after their children and expression-graph nodes before them:
  - the AST graph: every node, with clusters around assignments, unary operations, declarations and returns;
  - the expression graph: every expression the program evaluates, each in its own cluster, rooted in bold, with edges that point towards the value's consumer (`dir=back`, inverted for `lvalue` and `type`), and chained in source order by invisible ordering edges from a `rank2` marker to an `end` marker.
- `ast-tests/ast_graph_expressions.py` is the prototype of the tool. It runs the same pass with the small differences recorded below.
- `ast-tests/ast_graph_subgraphs.py` dumps the AST in post-order. It colours nodes by kind and puts the children of assignments, unary operations, returns and compound statements into clusters.
- `ast-tests/ast_graph_generic.py` dumps the AST in pre-order, one white node per AST node.
- `ast-tests/ast_graph_test.py` dumps the AST field by field through a dispatch on the node's class. It visits list elements by index without drawing the list. It draws `None` grey and any unknown type red.

Every script is modelled twice:

1. As a class whose fields are the script's global state. These are the counter, `order_id` where present, and the graphs, held as logs of the pygraphviz calls made on them (`Sinks.Op`). Its methods are the script's functions, with the same loops and branches.
2. As a pure walk function that computes the same log.

Each method is proved to append exactly what its walk function computes. Views of a log (`NodeIds`, `StyledIds`, `Arcs`, `Links`, `Clusters`) are then proved equal to independent reference definitions over the tree: pre-order, post-order, the tree edges, the expression roots and members. The nodes a log draws (`Nodes`: graph object, label, colour, shape and style of each) are proved to be the ones a top-down reference gives each id, found from the AST node the id names (`SubgraphDump.Seat`, `ExprNodes.TreeSeat`, `ExprNodes.ExprSeat`, `FieldDump.Find`); the edges of the field-by-field dump are traced to their tails in `FieldPaths`. The properties the scripts are meant to have are proved about those references.

The tool and its prototype share one model (`Transducer`, `ExprScript`), parameterised by `ExprClassify.Variant`. The chain of `isinstance` tests becomes a `Decision`, and is proved equal to a per-kind table (`ExprClassify.ClassifyTable`).

Details of the code that the model follows:

- The tree graph clusters only assignments, unary operations, declarations and returns, not compound blocks or function definitions.
- Ordering edges are added during the walk, when an expression opens; only the edge into `end` comes after the walk.
- An edge is "reversed" by swapping its endpoints for the `lvalue` and `type` roles. `dir=back` is set on every expression edge.
- In `ast_graph_test.py` a missing child (`None`) is drawn as a grey `None` node rather than skipped.
- In the tool, a unary operation other than `++`/`--` and a declaration without an initialiser get a dashed tree cluster. The prototype clusters every unary operation and declaration plainly.
- Only the tool dashes the tree nodes that lie outside every expression.
- In both, a unary operation or declaration gets its own expression label (the operator, `=`) only when it opens an expression. Nested in an open expression it keeps its tree label.

## Model

| member | source | states |
|---|---|---|
| Util.DecimalString | expressions.py:36 | `str(counter)` is a non-empty string of decimal digits |
| Util.DecimalRoundTrip | expressions.py:36 | reading the digits of `str(counter)` back gives the counter, so ids can be modelled as numbers |
| Util.DecimalInjective | expressions.py:36 | distinct counter values give distinct node ids |
| Ast.Label | expressions.py:47-52 | the label loop builds the type name followed by one `\n<attr>: <val>` line per attribute, in `attr_names` order |
| Ast.TreeLabelLines | ast-tests/ast_graph_generic.py:22-26 | a label has the type name on its first line and exactly one more line per attribute |
| ExprClassify.Basename | expressions.py:45 | `split('/')[-1]` is the suffix after the last `/`: it holds no `/`, and the character before it is `/` when it is shorter than the path |
| ExprClassify.ClassifyTable | expressions.py:55-139 | the chain of `isinstance` tests gives, per kind, the opening rule (an opener opens exactly when no expression is active), membership, colour, shape, tree cluster and its style, expression label and style, tree style and edge inversion |
| ExprClassify.PrototypeClassify | ast-tests/ast_graph_expressions.py:46-112 | the prototype decides every kind as the tool does, except that it dashes neither a tree cluster nor a tree node |
| ExprScript.Script.constructor | expressions.py:173-184 | the counter starts at 0, `order_id` at `rank2`, the AST graph empty, the expression graph holding the set-up markers and subgraph |
| ExprScript.Script.AddNode | expressions.py:9-21 | one node, then the edge from the parent (or to it when inverted), in the graph of the canvas, nothing else changed |
| ExprScript.Script.AddOrder | expressions.py:24-27 | one invisible ordering edge from the old `order_id` to the node, which becomes `order_id` |
| ExprScript.Script.ParseNode | expressions.py:30-146 | the counter grows by the subtree's size; the AST graph grows by the post-order tree walk; the expression graph grows by the expression walk, which leaves `order_id` at its cursor |
| ExprScript.Script.Enter | expressions.py:55-139 | the tree cluster, the opening of an expression (ordering edge and expression cluster) and the expression node, as the decision says |
| ExprScript.Script.ParseChildren | expressions.py:141-143 | the children loop appends the children's walks in order, threading the counter and `order_id` |
| ExprScript.Script.Finish | expressions.py:188-190 | after the walk: the `end` marker and the ordering edge into it |
| ExprScript.Run | expressions.py:173-190 | the script builds exactly the two graphs `Transduce` describes; with `Prototype`, so does the prototype's script body (`ast_graph_expressions.py` lines 124-138) |
| ExprTree.TreeIds | expressions.py:141-146 | AST-graph nodes are added in post-order |
| ExprTree.TreeEdges | expressions.py:17-21 | AST-graph edges are the post-order tree edges, parent to child, labelled with the role, never inverted |
| ExprTree.TreeClustersMade | expressions.py:55-97 | one AST-graph cluster per assignment, unary operation, declaration and return, in pre-order |
| ExprTree.TreeDashed | expressions.py:134-139 | the tool dashes exactly the tree nodes outside every expression; the prototype dashes none |
| ExprGraph.ExprIds | expressions.py:134-137 | expression-graph nodes are the expression members, each once, in pre-order |
| ExprGraph.ExprBold | expressions.py:59-104 | exactly the expression roots are bold, in pre-order |
| ExprGraph.ExprFilled | expressions.py:134-137 | the other members are drawn plain filled, in pre-order |
| ExprGraph.ExprClusters | expressions.py:59-102 | each expression gets one cluster named after its root, and no other cluster is made |
| ExprGraph.ExprEdges | expressions.py:130-137 | one expression edge per non-root member, between it and its parent, swapped for `lvalue`/`type`, with `dir=back` |
| ExprGraph.ExprChain | expressions.py:24-27 | the ordering edges chain the roots in pre-order from the incoming `order_id`, and `order_id` ends at the last root |
| ExprViews.ChainAppend | expressions.py:24-27 | chaining two stretches of roots one after the other equals chaining the whole |
| ExprViews.ChainRoots | expressions.py:59-61 | the chain below a node starts with the node when it opens an expression |
| ExprFacts.RootsOrdered | expressions.py:33-36 | the roots are increasing ids of the subtree |
| ExprFacts.MembersOrdered | expressions.py:134-143 | the members are increasing ids of the subtree |
| ExprFacts.RootsInnerSplit | expressions.py:59-104 | every member is either a root or an inner member, never both |
| ExprFacts.MembersDashedSplit | expressions.py:134-139 | the tool puts every tree node either into an expression or into the dashed style, never both |
| ExprFacts.MembersOrDashed | expressions.py:134-139 | the same split, per node, in both directions |
| ExprFacts.PrototypeUndashed | ast-tests/ast_graph_expressions.py:117 | the prototype dashes no tree node |
| ExprFacts.OutsideQuiet | expressions.py:134-143 | outside an expression a subtree with no opener adds nothing to the expression graph and is dashed wholly by the tool |
| ExprFacts.IdentifierTypeCut | expressions.py:126-128 | an identifier type never enters an expression, whatever is active, and the tool dashes it |
| ExprFacts.ExprArcsLowers | expressions.py:130-137 | each expression edge hangs exactly one inner member, and roots hang from nothing |
| ExprFacts.ExprArcsHooked | expressions.py:134-143 | the parent end of every expression edge is in the expression graph |
| ExprTheorems.SetupViews | expressions.py:173-182 | the set-up markers and subgraph are invisible to every view |
| ExprTheorems.TeardownViews | expressions.py:188-190 | closing adds only the ordering edge into `end` |
| ExprTheorems.TransduceTree | expressions.py:184-186 | the AST graph's views are the reference post-order, tree edges, clusters and dashed set |
| ExprTheorems.TransduceExpr | expressions.py:173-190 | the expression graph's views are the members, roots, inner members, clusters, expression edges and the chain `rank2` → roots → `end` |
| ExprTheorems.TreeGraphNodes | expressions.py:141-146 | one AST-graph node per AST node, ids 1 .. size without repeats, the root (1) added last |
| ExprTheorems.TreeGraphEdges | expressions.py:17-21 | one AST-graph edge into every node but the root, each from a smaller id, without direction |
| ExprTheorems.TreeGraphDashes | expressions.py:139 | the tool dashes exactly the AST nodes outside the expression graph; the prototype dashes none |
| ExprTheorems.ExprGraphShape | expressions.py:24-190 | the expression graph's nodes are increasing ids split into bold roots and plain members, one cluster per root, one edge per plain member whose other end is in the graph, and the ordering chain `rank2` → roots → `end`, for the tool and for the prototype alike |
| ExprNodes.TreeWalkNodes | expressions.py:141-146 | every AST-graph node is drawn in the graph object, with the label, colour, shape and style, that `TreeSeat` gives its id |
| ExprNodes.TreeSeatFacts | expressions.py:53-146 | an AST-graph node has its AST node's tree label, the default shape, the colour its kind fixes (green, red, yellow, pink, light blue) or else one handed down, is filled or (tool only) dashed, and lies in the graph the subtree was entered in or in the cluster of an assignment, unary operation, declaration or return above it |
| ExprNodes.TreeInherits | expressions.py:142-146 | along every tree edge the child's colour is the one its kind gives when handed the parent's colour |
| ExprNodes.ExprWalkNodes | expressions.py:134-143 | every expression-graph node is drawn in the cluster, with the label, colour, shape and style, that `ExprSeat` gives its id |
| ExprNodes.ExprSeatFacts | expressions.py:53-143 | an expression-graph node has its kind's shape (square for returns, constants, identifiers and type declarations), a kind colour or one handed down, the expression label of its kind (the operator, `=`, `\<ret\>`, the value, the name, the declname, else the tree label), is bold exactly in the cluster it opens, and otherwise lies in the active cluster or that of a root above it |
| ExprNodes.SameColour | expressions.py:134-146 | a node in both graphs has the same colour in each |
| ExprTheorems.TreeGraphNodeView | expressions.py:53-146 | every node of the AST graph is the one `TreeSeat` gives its id and shows its AST node as `TreeShown` says: label, default shape, colour, style, tree cluster |
| ExprTheorems.TreeGraphInherits | expressions.py:142-146 | along every AST-graph edge the head's colour is its kind's colour, or else the tail's |
| ExprTheorems.ExprGraphNodeView | expressions.py:53-146 | every node of the expression graph is the one `ExprSeat` gives its id, shows its AST node as `ExprShown` says (label, shape, colour, bold exactly as its cluster's root, in the cluster of a root whose subtree holds it), and has the colour of its AST-graph node |
| Traversal.PreOrderIsIota | ast-tests/ast_graph_generic.py:16-31 | a pre-order numbering hands out c+1 .. c+size in order |
| Traversal.PostOrderFacts | expressions.py:141-146 | post-order ids are c+1 .. c+size, each once, with the root last |
| Traversal.TreeArcsHeads | expressions.py:17-21 | the post-order tree edges lead into the children's subtrees in post-order, then into the root |
| Traversal.TreeArcsDownward | expressions.py:17-21 | every tree edge runs from a node's parent down to the node |
| Traversal.PreArcsHeads | ast-tests/ast_graph_generic.py:28-31 | the pre-order edges lead into every node but the root, in numbering order |
| Traversal.PreArcsDownward | ast-tests/ast_graph_generic.py:28-31 | every pre-order edge runs from a node's parent down to the node |
| Traversal.FindRange | ast-tests/ast_graph_subgraphs.py:17-19 | exactly the ids c+1 .. c+size name a node of the subtree |
| GenericDump.WalkIds | ast-tests/ast_graph_generic.py:16-31 | nodes are added in pre-order |
| GenericDump.WalkArcs | ast-tests/ast_graph_generic.py:9-13 | edges are drawn in pre-order, parent to child, labelled with the role |
| GenericDump.WalkNodes | ast-tests/ast_graph_generic.py:21-28 | every node is white, filled, of the default shape, in the one graph, labelled as its AST node |
| GenericDump.SameArcs | ast-tests/ast_graph_generic.py:28-31 | the pre-order walk draws the same edges as the post-order dumps |
| GenericDump.DumpNodes | ast-tests/ast_graph_generic.py:16-42 | the i-th node added has id i+1; one per AST node, white, filled, correctly labelled |
| GenericDump.DumpEdges | ast-tests/ast_graph_generic.py:9-31 | one edge into every node but the root, in numbering order, downward, the same edges as the post-order walk |
| GenericDump.Script.constructor | ast-tests/ast_graph_generic.py:38-40 | the counter starts at 0 and the graph is empty |
| GenericDump.Script.AddNode | ast-tests/ast_graph_generic.py:9-13 | one filled node, then the edge from its parent, if it has one |
| GenericDump.Script.ParseNode | ast-tests/ast_graph_generic.py:16-31 | the counter grows by the subtree's size and the graph by the pre-order walk |
| GenericDump.Run | ast-tests/ast_graph_generic.py:36-42 | the script builds exactly the pre-order dump |
| SubgraphDump.Paint | ast-tests/ast_graph_subgraphs.py:27-38 | green for assignments and unary operations, red for returns, yellow for `main`, the inherited colour otherwise |
| SubgraphDump.BoxesFind | ast-tests/ast_graph_subgraphs.py:27-40 | an id owns a cluster exactly when it names a node of a boxed kind |
| SubgraphDump.SeatFacts | ast-tests/ast_graph_subgraphs.py:15-45 | where and as what a node is drawn: its label, its kind's colour, the default shape, the root graph or the cluster of a boxed node above it |
| SubgraphDump.WalkIds | ast-tests/ast_graph_subgraphs.py:42-45 | nodes are added in post-order |
| SubgraphDump.WalkArcs | ast-tests/ast_graph_subgraphs.py:8-12 | edges are the post-order tree edges, labelled with the role |
| SubgraphDump.WalkClusters | ast-tests/ast_graph_subgraphs.py:27-40 | a cluster is opened for each boxed node, in pre-order |
| SubgraphDump.WalkNodes | ast-tests/ast_graph_subgraphs.py:15-45 | every node is drawn where, and as, its seat says |
| SubgraphDump.DrawIds | ast-tests/ast_graph_subgraphs.py:15-56 | one node per AST node, ids 1 .. size without repeats, the root added last |
| SubgraphDump.DrawEdges | ast-tests/ast_graph_subgraphs.py:8-45 | one edge into every node but the root, in the order nodes are added, downward, labelled with the role |
| SubgraphDump.DrawClusters | ast-tests/ast_graph_subgraphs.py:27-40 | the clusters, increasing, are named after exactly the boxed nodes |
| SubgraphDump.DrawNodes | ast-tests/ast_graph_subgraphs.py:15-45 | every node is filled and correctly labelled, coloured as its kind demands, in the root graph or the cluster of a boxed ancestor |
| SubgraphDump.Script.constructor | ast-tests/ast_graph_subgraphs.py:52-54 | the counter starts at 0 and the graph is empty |
| SubgraphDump.Script.AddNode | ast-tests/ast_graph_subgraphs.py:8-12 | one filled node in the given (sub)graph, then the edge from its parent |
| SubgraphDump.Script.ParseNode | ast-tests/ast_graph_subgraphs.py:15-45 | the counter grows by the subtree's size and the log by the clustered post-order walk: the node's cluster, then its children's walks, then the node |
| SubgraphDump.Script.OpenCluster | ast-tests/ast_graph_subgraphs.py:29 | `graph.subgraph(name='cluster' + id)` opens the cluster named after the node |
| SubgraphDump.Script.ParseChildren | ast-tests/ast_graph_subgraphs.py:42-43 | the children loop appends the children's walks in order |
| SubgraphDump.Run | ast-tests/ast_graph_subgraphs.py:50-56 | the script builds exactly the clustered dump |
| FieldDump.FindRange | ast-tests/ast_graph_test.py:17-20 | exactly the counter values c+1 .. c+size name a call of the subtree |
| FieldDump.LinkFacts | ast-tests/ast_graph_test.py:156-158 | the edge into a node points at it, has no direction attribute, and comes from the parent or from an earlier call of the subtree that draws a node |
| FieldPaths.LinkNearest | ast-tests/ast_graph_test.py:156-167 | the edge into a node comes from the nearest call above it that is not a list, or from the parent when every call above it is a list; its label is the roles of the visits on the way down: a field name, then `[i]` for each list element visited |
| FieldDump.LinkDrawn | ast-tests/ast_graph_test.py:166-167 | a call has an edge exactly when it draws a node and has a non-list ancestor |
| FieldDump.WalkIds | ast-tests/ast_graph_test.py:166-167 | nodes are added in the order `Order` gives |
| FieldDump.OrderRange | ast-tests/ast_graph_test.py:16-167 | no id is drawn twice, all lie in the call's range, and a node comes after those of its fields |
| FieldDump.OrderDrawn | ast-tests/ast_graph_test.py:156-167 | the ids drawn are exactly those of calls not handed a list |
| FieldDump.WalkArcs | ast-tests/ast_graph_test.py:9-13 | edges are drawn in the order `Edges` gives |
| FieldDump.EdgesRange | ast-tests/ast_graph_test.py:9-13 | no node gets two edges, and every edge leads into the call's range |
| FieldDump.EdgesLinked | ast-tests/ast_graph_test.py:156-167 | the edges drawn are the ones `Link` names |
| FieldDump.EdgesCover | ast-tests/ast_graph_test.py:156-167 | a node gets an edge exactly when `Link` names one for it |
| FieldDump.WalkNodes | ast-tests/ast_graph_test.py:166-167 | every node drawn shows the subtree whose call took its id |
| FieldTable.NodeLabel | ast-tests/ast_graph_test.py:21-164 | a list draws no node; `None` is labelled `None`; an unknown type by its type name |
| FieldTable.Fill | ast-tests/ast_graph_test.py:23-164 | grey exactly for `None`, red exactly for an unknown type, white otherwise |
| FieldTable.Make | ast-tests/ast_graph_test.py:24-155 | a node of class c built from one value per field its branch reads holds those values, in the branch's order and under the branch's field names |
| FieldTable.LeafClasses | ast-tests/ast_graph_test.py:24-155 | exactly the classes IdentifierType, ID, Constant, Break, Continue, EmptyStatement, EllipsisParam, Goto and Pragma visit no child field |
| FieldTable.SpanSize | ast-tests/ast_graph_test.py:17-18 | the counter values a call takes are the calls of its tree |
| FieldTable.FindShape | ast-tests/ast_graph_test.py:16-167 | the subtree of the walk that takes counter value x is the tree of the value handed to that call |
| FieldTable.DrawnHanded | ast-tests/ast_graph_test.py:156-167 | the call taking x draws a node exactly when it is not handed a list |
| FieldTable.HandedAt | ast-tests/ast_graph_test.py:25-158 | each call of a branch gets the counter values right after those of the calls before it |
| FieldTable.ForOrder | ast-tests/ast_graph_test.py:104-109 | every `For` node is labelled `For` and visits init, cond, next, stmt in that order under those edge labels, each right after the previous field's counter values |
| FieldTable.AssignmentOrder | ast-tests/ast_graph_test.py:61-64 | every `Assignment` node is labelled `Assignment` and its operator, and visits lvalue, then rvalue, under those edge labels |
| FieldTable.ListOrder | ast-tests/ast_graph_test.py:156-158 | list element i is handed the value after those of the elements before it, with suffix `[i]` |
| FieldTable.LeafSpan | ast-tests/ast_graph_test.py:121-164 | the classes with no child field read, `None` and unknown types visit nothing and take one counter value |
| FieldScript.DumpIds | ast-tests/ast_graph_test.py:16-178 | node ids are distinct, in range, exactly the values handed to non-lists, and the file's node (1) comes last |
| FieldScript.DrawnShown | ast-tests/ast_graph_test.py:156-167 | a counter value is drawn exactly when its value is not a list |
| FieldScript.DumpNodes | ast-tests/ast_graph_test.py:9-11 | every node shows its value's label and colour, grey exactly for `None`, red exactly for unknown types, with the default shape |
| FieldScript.DumpEdges | ast-tests/ast_graph_test.py:12-13 | no node gets two edges, every edge is the one `Link` names, and every drawn node but the file's own gets one |
| FieldScript.LinkShown | ast-tests/ast_graph_test.py:156-167 | a counter value heads an edge exactly when it was drawn and is not the file's |
| FieldScript.DumpEdge | ast-tests/ast_graph_test.py:12-167 | every edge runs from an earlier id to a later one, between drawn nodes, without direction, from the nearest non-list call above its head, labelled with the field name and the `[i]` of each list element in between |
| FieldScript.Script.constructor | ast-tests/ast_graph_test.py:174-176 | the counter starts at 0 and the graph is empty |
| FieldScript.Script.AddNode | ast-tests/ast_graph_test.py:9-13 | one filled node, then the edge from its parent, if it has one |
| FieldScript.Script.ParseNode | ast-tests/ast_graph_test.py:16-167 | the counter grows by the value's span and the graph by its walk |
| FieldScript.Script.ParseEach | ast-tests/ast_graph_test.py:156-158 | the calls of one branch in order, with the edge labels it passes |
| FieldScript.Run | ast-tests/ast_graph_test.py:172-178 | the script builds exactly the field-by-field dump |

## Left out

- Parsing: pycparser's `parse_file` and the C preprocessor are not modelled. An AST is an input value (`Ast.Node`, `FieldTable.Value`).
- The pycparser class hierarchy: a node's kind, its attributes as `str()` renders them, its `children()` in order and its source coordinate are fields of `Ast.Node`.
- pygraphviz itself. The calls are recorded in order and their effect on a real graph is not modelled. This covers `layout`, `write` and `draw`, the file names, implicit node creation by `add_edge`, attribute merging when a node or subgraph is added twice, and the graph attributes `width`, `newrank`, `rank=same` and `rankdir`.
- `print` of each node in `add_node` and of `subgraphs()`: console output only.
- Command-line handling (`argparse` options in expressions.py, `sys.argv` elsewhere), the verbosity messages and the choice of output files: I/O, not modelled.
- `str()` of attribute values and of `type(node)`: given as strings. Node ids are numbers; `Util.DecimalInjective` shows that nothing is lost.
- FieldTable.Value: a node carries the child fields its branch reads as (name, value) pairs, and `FieldTable.Conforms` says that the names are those of its class, in the branch's order. The walk reads the names off the node, so a model value that does not conform stands for no pycparser object. Its fields are still visited, in its own order and under its own names.
- FieldTable: the pycparser classes with attributes beyond those the dispatch reads appear only with the fields it reads.
