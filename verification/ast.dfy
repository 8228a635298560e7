/** The already-parsed C syntax tree the scripts walk, in the shape their
    generic walks see it: a node's type, its `attr_names` with their values
    (as printed), its `children()` as (role, child) pairs, and its coordinate. */
module Ast {
  import opened Util

  /** The node types the walks tell apart, with the one attribute each
      classification reads. */
  datatype Kind =
    | Assignment(op: string)
    | UnaryOp(op: string)
    | Decl(hasInit: bool)            // whether `init` is not None
    | Return
    | BinaryOp(op: string)
    | Constant(value: string)
    | ID(name: string)
    | TypeDecl(declname: Option<string>)
    | IdentifierType
    | Compound
    | FuncDef(declName: string)      // the `name` of its `decl` child
    | Other(typeName: string)        // every other pycparser node type

  datatype Node = Node(kind: Kind, attrs: seq<(string, string)>, children: Children, coord: string)

  /** The (role, child) pairs of children(), in order. */
  datatype Children = Nil | Cons(role: string, node: Node, rest: Children)

  /** type(node).__name__ */
  function KindName(k: Kind): string
  {
    match k
    case Assignment(_) => "Assignment"
    case UnaryOp(_) => "UnaryOp"
    case Decl(_) => "Decl"
    case Return => "Return"
    case BinaryOp(_) => "BinaryOp"
    case Constant(_) => "Constant"
    case ID(_) => "ID"
    case TypeDecl(_) => "TypeDecl"
    case IdentifierType => "IdentifierType"
    case Compound => "Compound"
    case FuncDef(_) => "FuncDef"
    case Other(name) => name
  }

  /** One '\n<attr>: <val>' line per attribute, in attr_names order. */
  function AttrLines(attrs: seq<(string, string)>): string
  {
    if attrs == [] then "" else "\n" + attrs[0].0 + ": " + attrs[0].1 + AttrLines(attrs[1..])
  }

  /** The label every generic walk gives a node: its type name, then its attributes. */
  function TreeLabel(n: Node): string
  {
    KindName(n.kind) + AttrLines(n.attrs)
  }

  /** Number of AST nodes in the subtree. */
  function Size(n: Node): (r: nat)
    ensures r >= 1
  {
    1 + SizeOf(n.children)
  }

  /** Number of AST nodes under a list of children. */
  function SizeOf(ks: Children): nat
  {
    match ks
    case Nil => 0
    case Cons(_, m, rest) => Size(m) + SizeOf(rest)
  }

  /** The label loop of every parse_node: the type name, then one
      '\n<attr>: <val>' line per attribute, in attr_names order. */
  method Label(n: Node) returns (text: string)
    ensures text == TreeLabel(n)
  {
    text := KindName(n.kind);
    var i := 0;
    while i < |n.attrs|
      invariant 0 <= i <= |n.attrs|
      invariant text + AttrLines(n.attrs[i..]) == TreeLabel(n)
    {
      assert n.attrs[i..][1..] == n.attrs[i + 1..];
      text := text + "\n" + n.attrs[i].0 + ": " + n.attrs[i].1;
      i := i + 1;
    }
  }

  function Newlines(s: string): nat
  {
    if s == [] then 0 else (if s[0] == '\n' then 1 else 0) + Newlines(s[1..])
  }

  lemma {:induction false} NewlinesAppend(a: string, b: string)
    ensures Newlines(a + b) == Newlines(a) + Newlines(b)
    decreases |a|
  {
    if a == [] {
      assert a + b == b;
    } else {
      assert (a + b)[0] == a[0] && (a + b)[1..] == a[1..] + b;
      NewlinesAppend(a[1..], b);
    }
  }

  lemma {:induction false} AttrLinesCount(attrs: seq<(string, string)>)
    requires forall i :: 0 <= i < |attrs| ==> Newlines(attrs[i].0) == 0 && Newlines(attrs[i].1) == 0
    ensures Newlines(AttrLines(attrs)) == |attrs|
    decreases |attrs|
  {
    if attrs != [] {
      AttrLinesCount(attrs[1..]);
      NewlinesAppend("\n" + attrs[0].0 + ": " + attrs[0].1, AttrLines(attrs[1..]));
      NewlinesAppend("\n" + attrs[0].0 + ": ", attrs[0].1);
      NewlinesAppend("\n" + attrs[0].0, ": ");
      NewlinesAppend("\n", attrs[0].0);
      assert Newlines(": ") == 0 by { assert ": "[1..] == " "; assert " "[1..] == ""; }
      assert Newlines("\n") == 1 by { assert "\n"[1..] == ""; }
    }
  }

  /** A tree label has the type name on its first line and exactly one more
      line per attribute, provided no name or value itself holds a newline. */
  lemma TreeLabelLines(n: Node)
    requires Newlines(KindName(n.kind)) == 0
    requires forall i :: 0 <= i < |n.attrs| ==> Newlines(n.attrs[i].0) == 0 && Newlines(n.attrs[i].1) == 0
    ensures Newlines(TreeLabel(n)) == |n.attrs|
    ensures TreeLabel(n)[..|KindName(n.kind)|] == KindName(n.kind)
  {
    AttrLinesCount(n.attrs);
    NewlinesAppend(KindName(n.kind), AttrLines(n.attrs));
  }
}
