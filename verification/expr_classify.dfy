/** The per-node decisions of the expression-extracting walk (parse_node in
    expressions.py and in ast-tests/ast_graph_expressions.py): colour, shape,
    tree-graph cluster, whether the node opens, joins or cuts off an
    expression, its expression-graph label and its styles. */
module ExprClassify {
  import opened Util
  import opened Sinks
  import opened Ast

  /** expressions.py is the finished tool; ast-tests/ast_graph_expressions.py
      is the earlier prototype of the same walk, without cluster captions and
      without dashed styles. */
  datatype Variant = Tool | Prototype

  /** str(coord).split('/')[-1]: the text after the last '/'. */
  function Basename(s: string): (r: string)
    ensures '/' !in r
    ensures |r| <= |s| && r == s[|s| - |r|..]
    ensures |r| < |s| ==> s[|s| - |r| - 1] == '/'
    decreases |s|
  {
    if s == [] then []
    else if s[|s| - 1] == '/' then []
    else
      var init := s[..|s| - 1];
      var rest := Basename(init);
      assert init[|init| - |rest|..] + [s[|s| - 1]] == s[|s| - |rest| - 1..];
      assert |rest| < |init| ==> s[|s| - |rest| - 2] == init[|init| - |rest| - 1];
      rest + [s[|s| - 1]]
  }

  /** The caption of the clusters a node opens. */
  function Caption(v: Variant, coord: string): string
  {
    if v.Tool? then Basename(coord) else ""
  }

  predicate IsIncDec(op: string)
  {
    op == "++" || op == "p++" || op == "--" || op == "p--"
  }

  /** The constructs that start an expression: an assignment, an increment or
      decrement, a declaration with an initialiser, and a return. */
  predicate IsOpener(k: Kind)
  {
    match k
    case Assignment(_) => true
    case UnaryOp(op) => IsIncDec(op)
    case Decl(hasInit) => hasInit
    case Return => true
    case _ => false
  }

  /** The node starts a new expression: it is an opener and none is active. */
  predicate Opens(k: Kind, active: bool)
  {
    !active && IsOpener(k)
  }

  /** The node belongs to an expression (the one it opens or the active one)
      and hands it on to its children; an IdentifierType cuts it off. */
  predicate Joins(k: Kind, active: bool)
  {
    !k.IdentifierType? && (active || IsOpener(k))
  }

  /** The node types whose children go into a tree-graph cluster. */
  predicate HasTreeCluster(k: Kind)
  {
    k.Assignment? || k.UnaryOp? || k.Decl? || k.Return?
  }

  /** An lvalue or a type is drawn on the other side of its parent. */
  predicate Inverted(role: string)
  {
    role == "lvalue" || role == "type"
  }

  // ---- the per-kind table, one attribute at a time ----

  /** Fill colour: a fixed colour per kind, the parent's colour otherwise. */
  function Colour(k: Kind, inherited: string): string
  {
    match k
    case Assignment(_) => "green"
    case UnaryOp(_) => "green"
    case Decl(_) => "green"
    case Return => "red"
    case BinaryOp(_) => "yellow"
    case Constant(_) => "pink"
    case ID(_) => "lightblue"
    case TypeDecl(_) => "lightblue"
    case _ => inherited
  }

  function Shape(k: Kind): string
  {
    if k.Return? || k.Constant? || k.ID? || k.TypeDecl? then "square" else ""
  }

  /** The style of the tree-graph cluster around the node's children, if it
      has one: the tool dashes the clusters of a unary operation that is no
      increment or decrement and of a declaration without initialiser. */
  function TreeClusterStyle(v: Variant, k: Kind): Option<Style>
  {
    if !HasTreeCluster(k) then None
    else if v.Tool? && (k.UnaryOp? || k.Decl?) && !IsOpener(k) then Some(Dashed)
    else Some(NoStyle)
  }

  /** The label of the node in the expression graph. */
  function ExprLabel(k: Kind, treeLabel: string, active: bool): string
  {
    match k
    case Assignment(op) => op
    case BinaryOp(op) => op
    case UnaryOp(op) => if Opens(k, active) then op else treeLabel
    case Decl(_) => if Opens(k, active) then "=" else treeLabel
    case Return => "\\<ret\\>"
    case Constant(value) => value
    case ID(name) => name
    case TypeDecl(declname) => if declname.Some? then declname.value else treeLabel
    case _ => treeLabel
  }

  /** Only the root of an expression is bold. */
  function ExprStyle(k: Kind, active: bool): Style
  {
    if Opens(k, active) then FilledBold else Filled
  }

  /** The tool dashes the tree nodes outside every expression. */
  function TreeStyle(v: Variant, k: Kind, active: bool): Style
  {
    if v.Tool? && !Joins(k, active) then FilledDashed else Filled
  }

  // ---- the chain of isinstance tests as written ----

  datatype Decision = Decision(
    color: string,                 // fill colour, also handed to the children
    shape: string,
    treeCluster: Option<Style>,    // style of the tree-graph cluster around the node's children
    opens: bool,                   // the node starts a new expression cluster
    active: bool,                  // the node and its children are in an expression
    exprLabel: string,
    exprStyle: Style,
    treeStyle: Style,
    invert: bool)                  // the expression edge to the parent runs child-to-parent

  /** The chain of isinstance tests in parse_node as the source writes it:
      start from the defaults, let the matching branch override some of
      them, then derive the inversion and the styles. `treeLabel` is the
      node's tree label, `active` says whether an expression is already open
      on the path from the root, and `inherited` is the parent's colour. */
  function Classify(v: Variant, k: Kind, treeLabel: string, role: string, active: bool, inherited: string): Decision
  {
    var base := Decision(inherited, "", None, false, active, treeLabel, Filled, Filled, false);
    var dashed := if v.Tool? then Dashed else NoStyle;
    var d := match k
      case Assignment(op) =>
        base.(color := "green", treeCluster := Some(NoStyle), opens := !active, exprLabel := op)
      case UnaryOp(op) =>
        if IsIncDec(op) then
          base.(color := "green", treeCluster := Some(NoStyle), opens := !active,
                exprLabel := if active then treeLabel else op)
        else base.(color := "green", treeCluster := Some(dashed))
      case Decl(hasInit) =>
        if hasInit then
          base.(color := "green", treeCluster := Some(NoStyle), opens := !active,
                exprLabel := if active then treeLabel else "=")
        else base.(color := "green", treeCluster := Some(dashed))
      case Return =>
        base.(color := "red", treeCluster := Some(NoStyle), opens := !active, shape := "square",
              exprLabel := "\\<ret\\>")
      case BinaryOp(op) => base.(color := "yellow", exprLabel := op)
      case Constant(value) => base.(shape := "square", color := "pink", exprLabel := value)
      case ID(name) => base.(shape := "square", color := "lightblue", exprLabel := name)
      case TypeDecl(declname) =>
        base.(shape := "square", color := "lightblue",
              exprLabel := if declname.Some? then declname.value else treeLabel)
      case IdentifierType => base.(active := false)
      case _ => base;
    // an opening node activates the expression sink; the rest follows from that
    var inExpr := d.active || d.opens;
    d.(active := inExpr,
       invert := Inverted(role),
       exprStyle := if d.opens then FilledBold else Filled,
       treeStyle := if v.Tool? && !inExpr then FilledDashed else Filled)
  }

  /** The decision assembled field by field from the per-kind table. */
  function Table(v: Variant, k: Kind, treeLabel: string, role: string, active: bool, inherited: string): Decision
  {
    Decision(Colour(k, inherited), Shape(k), TreeClusterStyle(v, k), Opens(k, active), Joins(k, active),
             ExprLabel(k, treeLabel, active), ExprStyle(k, active), TreeStyle(v, k, active), Inverted(role))
  }

  /** The chain of tests computes the per-kind table: the opening rule, the
      colour, shape, cluster, labels and styles of every kind. */
  lemma ClassifyTable(v: Variant, k: Kind, treeLabel: string, role: string, active: bool, inherited: string)
    ensures Classify(v, k, treeLabel, role, active, inherited) == Table(v, k, treeLabel, role, active, inherited)
  {
    match k
    case Assignment(_) =>
    case UnaryOp(_) =>
    case Decl(_) =>
    case Return =>
    case BinaryOp(_) =>
    case Constant(_) =>
    case ID(_) =>
    case TypeDecl(_) =>
    case IdentifierType =>
    case Compound =>
    case FuncDef(_) =>
    case Other(_) =>
  }

  /** The prototype decides as the tool does, except that it dashes
      neither a tree cluster nor a tree node. */
  lemma PrototypeClassify(k: Kind, treeLabel: string, role: string, active: bool, inherited: string)
    ensures var p, t := Classify(Prototype, k, treeLabel, role, active, inherited),
                        Classify(Tool, k, treeLabel, role, active, inherited);
      p.treeCluster != Some(Dashed) && p.treeStyle == Filled &&
      (p.treeCluster.Some? <==> t.treeCluster.Some?) &&
      p == t.(treeCluster := p.treeCluster, treeStyle := Filled)
  {
    ClassifyTable(Prototype, k, treeLabel, role, active, inherited);
    ClassifyTable(Tool, k, treeLabel, role, active, inherited);
  }
}
