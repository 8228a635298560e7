/** The dispatch table of the field-by-field dump
    (ast-tests/ast_graph_test.py): what parse_node can be handed, and what
    the branch that matches it does: the label and fill colour of its node
    and the fields it visits, in order. */
module FieldTable {
  import opened Util
  import opened FieldDump

  /** The pycparser node classes the dispatch tests for, in the order it tests them. */
  datatype Class =
    | FileAST | Decl | TypeDecl | PtrDecl | ArrayDecl | IdentifierType | FuncDef | FuncDecl
    | ParamList | Typename | Compound | Assignment | UnaryOp | BinaryOp | ID | Constant | Return
    | FuncCall | ExprList | If | TernaryOp | While | DoWhile | For | Switch | Case | Default
    | Break | Continue | EmptyStatement | EllipsisParam | Struct | Union | Typedef | DeclList
    | Label | Goto | StructRef | Cast | Pragma

  /** What parse_node can be handed: a pycparser node of a class the
      dispatch knows, with the text its branch formats from the node's
      attributes and the child fields its branch visits, in that order; a
      Python list; None; or an object of any other type, given by the text
      str(type(node)). */
  datatype Value =
    | Obj(cls: Class, text: string, fields: seq<Field>)
    | List(items: seq<Value>)
    | Null
    | Foreign(typeName: string)

  /** A child field of a node: the attribute's name, which is also the
      label of the edge to it, and its value. */
  datatype Field = Field(name: string, value: Value)

  // ---- the dispatch table ----

  /** The class name each branch starts its label with. */
  function ClassName(c: Class): string
  {
    match c
    case FileAST => "FileAST"
    case Decl => "Decl"
    case TypeDecl => "TypeDecl"
    case PtrDecl => "PtrDecl"
    case ArrayDecl => "ArrayDecl"
    case IdentifierType => "IdentifierType"
    case FuncDef => "FuncDef"
    case FuncDecl => "FuncDecl"
    case ParamList => "ParamList"
    case Typename => "Typename"
    case Compound => "Compound"
    case Assignment => "Assignment"
    case UnaryOp => "UnaryOp"
    case BinaryOp => "BinaryOp"
    case ID => "ID"
    case Constant => "Constant"
    case Return => "Return"
    case FuncCall => "FuncCall"
    case ExprList => "ExprList"
    case If => "If"
    case TernaryOp => "TernaryOp"
    case While => "While"
    case DoWhile => "DoWhile"
    case For => "For"
    case Switch => "Switch"
    case Case => "Case"
    case Default => "Default"
    case Break => "Break"
    case Continue => "Continue"
    case EmptyStatement => "EmptyStatement"
    case EllipsisParam => "EllipsisParam"
    case Struct => "Struct"
    case Union => "Union"
    case Typedef => "Typedef"
    case DeclList => "DeclList"
    case Label => "Label"
    case Goto => "Goto"
    case StructRef => "StructRef"
    case Cast => "Cast"
    case Pragma => "Pragma"
  }

  /** The classes whose label has a second line formatted from attributes
      (the name, the declared name, the type names, the operator, the
      constant's type and value, the reference type, the pragma's text). */
  predicate ShowsText(c: Class)
  {
    c == Decl || c == TypeDecl || c == IdentifierType || c == Typename || c == Assignment ||
    c == UnaryOp || c == BinaryOp || c == ID || c == Constant || c == Struct || c == Union ||
    c == Typedef || c == Label || c == Goto || c == StructRef || c == Pragma
  }

  /** The edge labels of the child fields each branch visits, in order. */
  function FieldNames(c: Class): seq<string>
  {
    match c
    case FileAST => ["ext"]
    case Decl => ["type", "init"]
    case TypeDecl => ["type"]
    case PtrDecl => ["type"]
    case ArrayDecl => ["type", "dim"]
    case FuncDef => ["decl", "body"]
    case FuncDecl => ["args", "type"]
    case ParamList => ["params"]
    case Typename => ["type"]
    case Compound => ["block_items"]
    case Assignment => ["lvalue", "rvalue"]
    case UnaryOp => ["expr"]
    case BinaryOp => ["left", "right"]
    case Return => ["expr"]
    case FuncCall => ["name", "args"]
    case ExprList => ["expr"]
    case If => ["cond", "iftrue", "iffalse"]
    case TernaryOp => ["cond", "iftrue", "iffalse"]
    case While => ["cond", "stmt"]
    case DoWhile => ["cond", "stmt"]
    case For => ["init", "cond", "next", "stmt"]
    case Switch => ["cond", "stmt"]
    case Case => ["expr", "stmts"]
    case Default => ["stmts"]
    case Struct => ["decls"]
    case Union => ["decls"]
    case Typedef => ["type"]
    case DeclList => ["decls"]
    case Label => ["stmt"]
    case StructRef => ["name", "field"]
    case Cast => ["to_type", "expr"]
    case _ => []
  }

  /** A node has the child fields its class's branch visits, in the order it visits them. */
  predicate Conforms(v: Value)
  {
    v.Obj? ==> |v.fields| == |FieldNames(v.cls)| &&
               forall i :: 0 <= i < |v.fields| ==> v.fields[i].name == FieldNames(v.cls)[i]
  }

  /** The node of class c whose visited fields hold the given values. */
  function Make(c: Class, text: string, values: seq<Value>): (v: Value)
    requires |values| == |FieldNames(c)|
    ensures v.Obj? && v.cls == c && v.text == text && Conforms(v) && Arity(v) == |values|
    ensures forall i :: 0 <= i < |values| ==> Child(v, i) == values[i] && Role(v, i) == FieldNames(c)[i]
  {
    Obj(c, text, seq(|values|, i requires 0 <= i < |values| => Field(FieldNames(c)[i], values[i])))
  }

  /** The classes whose branch visits no child field. */
  predicate Leaf(c: Class)
  {
    c == IdentifierType || c == ID || c == Constant || c == Break || c == Continue ||
    c == EmptyStatement || c == EllipsisParam || c == Goto || c == Pragma
  }

  /** Exactly the leaf classes visit no field. */
  lemma LeafClasses(c: Class)
    ensures |FieldNames(c)| == 0 <==> Leaf(c)
  {
    if Leaf(c) {
      assert |FieldNames(c)| == 0;
    } else {
      assert |FieldNames(c)| > 0;
    }
  }

  /** node_label as the matching branch sets it: the class name, then the
      formatted attributes on a second line where the branch shows any;
      'None' for None, the type's text for an unknown type, and nothing for
      a list, which draws no node of its own. */
  function NodeLabel(v: Value): (r: Option<string>)
    ensures r.None? <==> v.List?
    ensures v.Null? ==> r == Some("None")
    ensures v.Foreign? ==> r == Some(v.typeName)
    ensures v.Obj? ==> (ClassName(v.cls) <= r.value &&
                        (|r.value| > |ClassName(v.cls)| <==> ShowsText(v.cls)))
  {
    match v
    case Obj(c, text, _) => Some(if ShowsText(c) then ClassName(c) + "\n" + text else ClassName(c))
    case List(_) => None
    case Null => Some("None")
    case Foreign(typeName) => Some(typeName)
  }

  /** The fill colour: grey for None, red for an unknown type, white otherwise. */
  function Fill(v: Value): (r: string)
    ensures r == "grey" <==> v.Null?
    ensures r == "red" <==> v.Foreign?
    ensures r == "white" <==> !v.Null? && !v.Foreign?
  {
    if v.Null? then "grey" else if v.Foreign? then "red" else "white"
  }

  /** The edge-label suffix of element i of a list: '[{i}]'. */
  function Suffix(i: nat): string
  {
    "[" + DecimalString(i) + "]"
  }

  /** How many calls the matching branch makes: one per visited field of
      a node, one per element of a list, none for None or an unknown type. */
  function Arity(v: Value): nat
  {
    match v
    case Obj(_, _, fields) => |fields|
    case List(items) => |items|
    case _ => 0
  }

  /** The value the branch hands to parse_node with its i-th call. */
  function Child(v: Value, i: nat): (w: Value)
    requires i < Arity(v)
    ensures w < v
  {
    match v
    case Obj(_, _, fields) => fields[i].value
    case List(items) => items[i]
  }

  /** The edge label the branch passes with its i-th call: the field's
      name for a node; for a list, the suffix '[i]' it appends to the
      list's own edge label. */
  function Role(v: Value, i: nat): string
    requires i < Arity(v)
  {
    match v
    case Obj(_, _, fields) => fields[i].name
    case List(_) => Suffix(i)
  }

  // ---- from a value to what its call does ----

  /** What the call parse_node(v, ...) does: a list visits its elements,
      element i under the list's own edge label with '[i]' appended, and
      draws nothing; any other value draws a node labelled node_label and
      filled with its colour after visiting its fields. */
  function Shape(v: Value): (t: Tree)
    ensures t.Spread? <==> v.List?
    ensures t.Node? ==> Some(t.text) == NodeLabel(v) && t.color == Fill(v)
    decreases v, 1
  {
    if v.List? then Spread(KidsFrom(v, 0)) else Node(NodeLabel(v).value, Fill(v), KidsFrom(v, 0))
  }

  /** The calls of the branch for v from the i-th on. */
  function KidsFrom(v: Value, i: nat): Kids
    requires i <= Arity(v)
    decreases v, 0, Arity(v) - i
  {
    if i == Arity(v) then Nil else Cons(Role(v, i), Shape(Child(v, i)), KidsFrom(v, i + 1))
  }

  /** How many counter values parse_node(v) takes: one for v, and those of
      the calls of its branch. */
  function Span(v: Value): nat
    decreases v, 1
  {
    1 + SpanFrom(v, 0)
  }

  /** How many counter values the calls of the branch for v from the i-th on take. */
  function SpanFrom(v: Value, i: nat): nat
    requires i <= Arity(v)
    decreases v, 0, Arity(v) - i
  {
    if i == Arity(v) then 0 else Span(Child(v, i)) + SpanFrom(v, i + 1)
  }

  /** The counter values a call takes are the nodes of its tree. */
  lemma {:induction false} SpanSize(v: Value)
    ensures Span(v) == Size(Shape(v))
    decreases v, 1
  {
    SpanFromSize(v, 0);
  }

  lemma {:induction false} SpanFromSize(v: Value, i: nat)
    requires i <= Arity(v)
    ensures SpanFrom(v, i) == SizeOf(KidsFrom(v, i))
    decreases v, 0, Arity(v) - i
  {
    if i < Arity(v) {
      SpanSize(Child(v, i));
      SpanFromSize(v, i + 1);
    }
  }

  // ---- the value behind each counter value ----

  /** The value parse_node is handed when it takes counter value x, in the
      call parse_node(v) entered with counter c: found top-down, by the
      counter ranges of the fields and list elements. */
  function Handed(v: Value, c: nat, x: nat): Option<Value>
    decreases v, 1
  {
    if x == c + 1 then Some(v) else HandedFrom(v, 0, c + 1, x)
  }

  /** The same among the calls of the branch for v from the i-th on, entered with counter c. */
  function HandedFrom(v: Value, i: nat, c: nat, x: nat): Option<Value>
    requires i <= Arity(v)
    decreases v, 0, Arity(v) - i
  {
    if i == Arity(v) then None
    else if x <= c + Span(Child(v, i)) then Handed(Child(v, i), c, x)
    else HandedFrom(v, i + 1, c + Span(Child(v, i)), x)
  }

  /** The tree of the value handed over, if any. */
  function ShapeOf(o: Option<Value>): Option<Tree>
  {
    if o.Some? then Some(Shape(o.value)) else None
  }

  /** The subtree of the walk that takes counter value x is the tree of the
      value handed to the call that takes x. */
  lemma {:induction false} FindShape(v: Value, c: nat, x: nat)
    ensures Find(Shape(v), c, x) == ShapeOf(Handed(v, c, x))
    decreases v, 1
  {
    if x != c + 1 {
      FindKidsShape(v, 0, c + 1, x);
    }
  }

  /** The call that takes counter value x draws a node exactly when the
      value it is handed is not a list. */
  lemma DrawnHanded(v: Value, c: nat, x: nat)
    ensures Drawn(Shape(v), c, x) <==> Handed(v, c, x).Some? && !Handed(v, c, x).value.List?
  {
    FindShape(v, c, x);
  }

  /** The search among the trees of the calls from the i-th on, one step:
      the first tree covers the counter values its call takes. */
  lemma FindKidsStep(v: Value, i: nat, c: nat, x: nat)
    requires i < Arity(v)
    ensures FindOf(KidsFrom(v, i), c, x) ==
      (if x <= c + Span(Child(v, i)) then Find(Shape(Child(v, i)), c, x)
       else FindOf(KidsFrom(v, i + 1), c + Span(Child(v, i)), x))
  {
    SpanSize(Child(v, i));
  }

  lemma {:induction false} FindKidsShape(v: Value, i: nat, c: nat, x: nat)
    requires i <= Arity(v)
    ensures FindOf(KidsFrom(v, i), c, x) == ShapeOf(HandedFrom(v, i, c, x))
    decreases v, 0, Arity(v) - i
  {
    if i < Arity(v) {
      var w := Child(v, i);
      if x <= c + Span(w) {
        FindShape(w, c, x);
      } else {
        FindKidsShape(v, i + 1, c + Span(w), x);
      }
      FindKidsJoin(v, i, c, x);
    }
  }

  /** The search among the calls from the i-th on finds what the first
      call's search or the later calls' search finds, whichever covers x. */
  lemma FindKidsJoin(v: Value, i: nat, c: nat, x: nat)
    requires i < Arity(v)
    requires x <= c + Span(Child(v, i)) ==>
      Find(Shape(Child(v, i)), c, x) == ShapeOf(Handed(Child(v, i), c, x))
    requires x > c + Span(Child(v, i)) ==>
      FindOf(KidsFrom(v, i + 1), c + Span(Child(v, i)), x) ==
      ShapeOf(HandedFrom(v, i + 1, c + Span(Child(v, i)), x))
    ensures FindOf(KidsFrom(v, i), c, x) == ShapeOf(HandedFrom(v, i, c, x))
  {
    FindKidsStep(v, i, c, x);
  }

  // ---- the order of the visits ----

  /** The j-th call of the branch, entered with counter c, takes the next counter value. */
  lemma HandedHere(v: Value, j: nat, c: nat)
    requires j < Arity(v)
    ensures HandedFrom(v, j, c, c + 1) == Some(Child(v, j))
  {
    assert Span(Child(v, j)) >= 1;
  }

  /** A counter value past the range of the j-th call's values went to a later call. */
  lemma HandedSkip(v: Value, j: nat, c: nat, x: nat)
    requires j < Arity(v)
    requires x > c + Span(Child(v, j))
    ensures HandedFrom(v, j, c, x) == HandedFrom(v, j + 1, c + Span(Child(v, j)), x)
  {
  }

  /** How many counter values the calls i .. j-1 of the branch for v take. */
  function Spans(v: Value, i: nat, j: nat): (n: nat)
    requires i <= j <= Arity(v)
    decreases j - i
  {
    if i == j then 0 else Span(Child(v, i)) + Spans(v, i + 1, j)
  }

  /** The j-th call of the branch takes the counter value right after
      those the calls from the i-th on before it took, starting from c. */
  ghost predicate HandsOut(v: Value, i: nat, j: nat, c: nat)
    requires i <= j < Arity(v)
  {
    HandedFrom(v, i, c, c + 1 + Spans(v, i, j)) == Some(Child(v, j))
  }

  /** Skipping the i-th call on the way to the j-th. */
  lemma HandedNext(v: Value, i: nat, j: nat, c: nat)
    requires i < j < Arity(v)
    requires HandsOut(v, i + 1, j, c + Span(Child(v, i)))
    ensures HandsOut(v, i, j, c)
  {
    var s := Span(Child(v, i));
    var x := c + 1 + Spans(v, i, j);
    assert Spans(v, i, j) == s + Spans(v, i + 1, j);
    assert x > c + s;
    HandedSkip(v, i, c, x);
  }

  /** Every call of the branch gets the counter values right after those
      of the calls before it. */
  lemma {:induction false} HandedAt(v: Value, i: nat, j: nat, c: nat)
    requires i <= j < Arity(v)
    ensures HandsOut(v, i, j, c)
    decreases j - i
  {
    if i == j {
      HandedHere(v, j, c);
    } else {
      HandedAt(v, i + 1, j, c + Span(Child(v, i)));
      HandedNext(v, i, j, c);
    }
  }

  /** A for loop, labelled 'For', visits init, cond, next and stmt, in
      that order, under the edge labels of those names, each taking the
      counter values right after those of the fields before it. */
  lemma ForOrder(v: Value, c: nat)
    requires v.Obj? && v.cls == For && Conforms(v)
    ensures Arity(v) == 4 && NodeLabel(v) == Some("For") &&
      [Role(v, 0), Role(v, 1), Role(v, 2), Role(v, 3)] == ["init", "cond", "next", "stmt"]
    ensures var s1, s2, s3 := Span(Child(v, 0)), Span(Child(v, 1)), Span(Child(v, 2));
      Handed(v, c, c + 2) == Some(Child(v, 0)) && Handed(v, c, c + 2 + s1) == Some(Child(v, 1)) &&
      Handed(v, c, c + 2 + s1 + s2) == Some(Child(v, 2)) && Handed(v, c, c + 2 + s1 + s2 + s3) == Some(Child(v, 3))
  {
    assert FieldNames(For) == ["init", "cond", "next", "stmt"];
    FourInOrder(v, c);
  }

  /** The four calls of a branch that makes four take the counter values
      right after those of the calls before them. */
  lemma FourInOrder(v: Value, c: nat)
    requires Arity(v) == 4
    ensures var s1, s2, s3 := Span(Child(v, 0)), Span(Child(v, 1)), Span(Child(v, 2));
      HandedFrom(v, 0, c + 1, c + 2) == Some(Child(v, 0)) && HandedFrom(v, 0, c + 1, c + 2 + s1) == Some(Child(v, 1)) &&
      HandedFrom(v, 0, c + 1, c + 2 + s1 + s2) == Some(Child(v, 2)) &&
      HandedFrom(v, 0, c + 1, c + 2 + s1 + s2 + s3) == Some(Child(v, 3))
  {
    assert Spans(v, 2, 3) == Span(Child(v, 2));
    assert Spans(v, 1, 3) == Span(Child(v, 1)) + Spans(v, 2, 3);
    assert Spans(v, 1, 2) == Span(Child(v, 1));
    HandedAt(v, 0, 0, c + 1);
    HandedAt(v, 0, 1, c + 1);
    HandedAt(v, 0, 2, c + 1);
    HandedAt(v, 0, 3, c + 1);
  }

  /** An assignment, labelled with its operator, visits lvalue, then rvalue. */
  lemma AssignmentOrder(v: Value, c: nat)
    requires v.Obj? && v.cls == Assignment && Conforms(v)
    ensures Arity(v) == 2 && Role(v, 0) == "lvalue" && Role(v, 1) == "rvalue" &&
      NodeLabel(v) == Some("Assignment\n" + v.text)
    ensures Handed(v, c, c + 2) == Some(Child(v, 0)) && Handed(v, c, c + 2 + Span(Child(v, 0))) == Some(Child(v, 1))
  {
    assert FieldNames(Assignment) == ["lvalue", "rvalue"];
    HandedHere(v, 0, c + 1);
    HandedSkip(v, 0, c + 1, c + 2 + Span(Child(v, 0)));
    HandedHere(v, 1, c + 1 + Span(Child(v, 0)));
    assert ClassName(Assignment) + "\n" == "Assignment\n";
  }

  /** A list visits its elements in index order, element i under the
      suffix '[i]', each taking the counter values right after those of
      the elements before it; the list itself takes the first one. */
  lemma ListOrder(items: seq<Value>, c: nat, i: nat)
    requires i < |items|
    ensures var v := List(items);
      Handed(v, c, c + 1) == Some(v) && Handed(v, c, c + 2 + Spans(v, 0, i)) == Some(items[i]) &&
      Role(v, i) == "[" + DecimalString(i) + "]"
  {
    HandedAt(List(items), 0, i, c + 1);
  }

  /** Nodes of the leaf classes, None and unknown types visit nothing and
      take one counter value. */
  lemma LeafSpan(v: Value)
    requires v.Null? || v.Foreign? || (v.Obj? && Leaf(v.cls) && Conforms(v))
    ensures Arity(v) == 0 && Span(v) == 1
  {
    if v.Obj? {
      LeafClasses(v.cls);
    }
    assert SpanFrom(v, 0) == 0;
  }
}
