/** The awk syntax tree (src/awk_parser.h, AwkNode): one flat record per node,
    with three generic children and one list. */
module AwkAst {

  import opened AwkTokens

  datatype Kind =
      NumLit | StrLit | Regex | VarRef | Field | ArrayRef
    | Assignment | Ternary | Or | And | In | Match
    | Compare | Concat | BinOp | Unary
    | PreIncr | PreDecr | PostIncr | PostDecr
    | Call | Getline | Group
    | ExprStmt | Print | Printf | If | While | DoWhile
    | For | ForIn | Break | Continue | Next | NextFile
    | Exit | Return | Delete | DeleteAll | Block
    | Rule | Func

  datatype PatternKind = PatBegin | PatEnd | PatAlways | PatExpr | PatRange

  datatype GetlineSource = FromMain | FromFile | FromCommand

  datatype Redirect = NoRedirect | ToFile | ToAppend | ToPipe

  datatype Node = Null | Node(
    kind: Kind, op: TokType, negated: bool, num: string, str: Text, str2: Text, isBuiltin: bool,
    a: Node, b: Node, c: Node, list: seq<Node>,
    source: GetlineSource, redirect: Redirect, pattern: PatternKind, params: seq<string>)

  /** A zeroed node of the given kind. */
  function NewNode(kind: Kind): (n: Node)
    ensures n.Node? && n.kind == kind
  {
    Node(kind, EndOfFile, false, "", NoText, NoText, false, Null, Null, Null, [], FromMain, NoRedirect, PatBegin, [])
  }

  predicate IsLvalue(n: Node) {
    n.Node? && n.kind in {VarRef, ArrayRef, Field}
  }

  /** What the interpreter dereferences in a node of this kind without looking. */
  predicate HasParts(n: Node)
    requires n.Node?
  {
    match n.kind
    case StrLit => n.str.Text?
    case Regex => n.str.Text?
    case VarRef => n.str.Text?
    case Call => n.str.Text?
    case DeleteAll => n.str.Text?
    case ArrayRef => n.str.Text? && n.list != []
    case In => n.str.Text? && n.list != []
    case Delete => n.str.Text? && n.list != []
    case Field => n.a.Node?
    case Unary => n.a.Node?
    case PreIncr => n.a.Node?
    case PreDecr => n.a.Node?
    case PostIncr => IsLvalue(n.a)
    case PostDecr => IsLvalue(n.a)
    case ExprStmt => n.a.Node?
    case Assignment => IsLvalue(n.a) && n.b.Node?
    case Or => n.a.Node? && n.b.Node?
    case And => n.a.Node? && n.b.Node?
    case Match => n.a.Node? && n.b.Node?
    case Compare => n.a.Node? && n.b.Node?
    case Concat => n.a.Node? && n.b.Node?
    case BinOp => n.a.Node? && n.b.Node?
    case Ternary => n.a.Node? && n.b.Node? && n.c.Node?
    case Group => n.list != []
    case Getline => n.source != FromMain ==> n.b.Node?
    case Print => n.redirect != NoRedirect ==> n.a.Node?
    case Printf => n.redirect != NoRedirect ==> n.a.Node?
    case If => n.a.Node? && n.b.Node?
    case While => n.a.Node? && n.b.Node?
    case DoWhile => n.a.Node? && n.b.Node?
    case For => |n.list| == 1
    case ForIn => n.str.Text? && n.str2.Text? && n.a.Node?
    case Func => n.str.Text? && n.a.Node?
    case Rule => (n.pattern == PatExpr ==> n.a.Node?) && (n.pattern == PatRange ==> n.a.Node? && n.b.Node?)
    case _ => true
  }

  /** The tree can be walked: every node has its parts and no list holds a null. */
  predicate WellFormed(n: Node) {
    n.Node? ==>
      && HasParts(n)
      && WellFormed(n.a) && WellFormed(n.b) && WellFormed(n.c)
      && forall k :: 0 <= k < |n.list| ==> n.list[k].Node? && WellFormed(n.list[k])
  }

  /** `m` is a node of the tree `n`. */
  ghost predicate Within(m: Node, n: Node) {
    n.Node? &&
      (|| m == n || Within(m, n.a) || Within(m, n.b) || Within(m, n.c)
       || exists k :: 0 <= k < |n.list| && Within(m, n.list[k]))
  }
}
