/** The grammar that src/awk_parser.c reads, as a relation between trees and
    token lists. It says nothing about how a tree is found: only which lists of
    tokens a tree stands for, newlines aside. */
module AwkGrammar {

  import opened AwkAst
  import opened AwkTokens

  /** A token without its line. */
  datatype Sym = Sym(typ: TokType, text: Text, num: string)

  function Op(t: TokType): Sym {
    Sym(t, NoText, "")
  }

  function Word(t: TokType, text: Text): Sym {
    Sym(t, text, "")
  }

  // ---------- expressions ----------

  /** How loosely an expression binds: 0 for a primary, 1 for a postfix increment,
      then the levels of the binary operators up to assignment. */
  function Rank(n: Node): nat
    requires n.Node?
  {
    match n.kind
    case PostIncr | PostDecr => 1
    case BinOp => if n.op == Caret then 2 else if n.op in {Star, Slash, Percent} then 3 else 4
    case Concat => 5
    case Compare => 6
    case Getline => if n.source == FromCommand then 7 else 0
    case Match => 8
    case In => 9
    case And => 10
    case Or => 11
    case Ternary => 12
    case Assignment => 13
    case NumLit | StrLit | Regex | VarRef | Field | ArrayRef | Unary | PreIncr | PreDecr | Call | Group => 0
    case _ => 14
  }

  /** The operators a binary node may carry; in print context `>` is not one. */
  predicate HasOperator(n: Node, pr: bool)
    requires n.Node?
  {
    match n.kind
    case BinOp => n.op in {Caret, Star, Slash, Percent, Plus, Minus}
    case Compare => n.op in {Less, LessEq, Greater, GreaterEq, Equal, NotEqual} && (pr ==> n.op != Greater)
    case Assignment => n.op in {AssignTok, AddAssign, SubAssign, MulAssign, DivAssign, ModAssign, PowAssign} && IsLvalue(n.a)
    case Match | And | Or => true
    case _ => false
  }

  function OperatorOf(n: Node): TokType
    requires n.Node?
  {
    match n.kind
    case Match => if n.negated then NoMatch else MatchTok
    case And => AndAnd
    case Or => OrOr
    case _ => n.op
  }

  /** What may stand left of the operator: the same level again where operators
      associate to the left. */
  function LeftMax(n: Node): nat
    requires n.Node?
  {
    match n.kind
    case BinOp => if n.op == Caret then 1 else Rank(n)
    case Compare => 5
    case Assignment => 12
    case _ => Rank(n)
  }

  function RightMax(n: Node): nat
    requires n.Node?
  {
    match n.kind
    case BinOp => if n.op == Caret then 2 else Rank(n) - 1
    case Compare => 5
    case Match => 7
    case And => 9
    case Or => 10
    case _ => 13
  }

  predicate IsPrefixed(n: Node)
    requires n.Node?
  {
    n.kind in {Field, PreIncr, PreDecr} || (n.kind == Unary && n.op in {NotTok, Minus, Plus})
  }

  /** The token before the operand. */
  function LeadOf(n: Node): TokType
    requires n.Node?
  {
    if n.kind == Field then Dollar else if n.kind == PreIncr then Incr else if n.kind == PreDecr then Decr else n.op
  }

  /** A negation takes in everything up to a conditional, the others a primary. */
  function OperandMax(n: Node): nat
    requires n.Node?
  {
    if n.kind == Unary && n.op == NotTok then 12 else 0
  }

  /** `s` is an expression of at most this rank, and `n` is its tree. Where `pr` holds it
      is printed: there a `>` outside parentheses and function calls redirects instead of
      comparing, and a `|` pipes the output. */
  ghost predicate Expr(n: Node, max: nat, pr: bool, s: seq<Sym>)
    decreases |s|, n, 2
  {
    n.Node? && Rank(n) <= max && max <= 13 && Reads(n, pr, s)
  }

  ghost predicate Reads(n: Node, pr: bool, s: seq<Sym>)
    requires n.Node?
    decreases |s|, n, 1
  {
    match n.kind
    case NumLit => s == [Sym(Number, NoText, n.num)]
    case StrLit => s == [Word(StringLit, n.str)]
    case Regex => s == [Word(Ere, n.str)]
    case VarRef => s == [Word(Name, n.str)]
    case ArrayRef => exists u :: s == [Word(Name, n.str), Op(LBracket)] + u + [Op(RBracket)] && List(n.list, 13, pr, u)
    case Field | PreIncr | PreDecr | Unary =>
      IsPrefixed(n) && exists u :: s == [Op(LeadOf(n))] + u && Expr(n.a, OperandMax(n), pr, u)
    case PostIncr | PostDecr =>
      IsLvalue(n.a) && exists u :: s == u + [Op(if n.kind == PostIncr then Incr else Decr)] && Expr(n.a, 0, pr, u)
    case Group => exists u :: s == [Op(LParen)] + u + [Op(RParen)] && List(n.list, 13, false, u)
    case Call =>
      if n.isBuiltin && n.list == [] && s == [Word(BuiltinFunc, n.str)] then true
      else exists u :: s == [Word(if n.isBuiltin then BuiltinFunc else FuncName, n.str), Op(LParen)] + u + [Op(RParen)]
                       && Arguments(n.list, u)
    case Getline => ReadsGetline(n, pr, s)
    case Concat => exists t, u :: s == t + u && Expr(n.a, 5, pr, t) && Expr(n.b, 4, pr, u)
    case In => exists u :: s == u + [Op(KwIn), Word(Name, n.str)] && Keys(n.list, pr, u)
    case Ternary =>
      exists t, u, v :: s == t + [Op(Question)] + u + [Op(Colon)] + v
                        && Expr(n.a, 11, pr, t) && Expr(n.b, 12, pr, u) && Expr(n.c, 12, pr, v)
    case _ =>
      HasOperator(n, pr)
        && exists t, u :: s == t + [Op(OperatorOf(n))] + u && Expr(n.a, LeftMax(n), pr, t) && Expr(n.b, RightMax(n), pr, u)
  }

  /** Expressions of at most this rank between commas. */
  ghost predicate List(list: seq<Node>, max: nat, pr: bool, s: seq<Sym>)
    decreases |s|, list, 2
  {
    list != [] &&
      if |list| == 1 then Expr(list[0], max, pr, s)
      else exists t, u :: s == t + [Op(Comma)] + u && List(list[..|list| - 1], max, pr, t) && Expr(list[|list| - 1], max, pr, u)
  }

  ghost predicate Arguments(list: seq<Node>, s: seq<Sym>)
    decreases |s|, list, 3
  {
    (list == [] && s == []) || List(list, 13, false, s)
  }

  /** What stands before `in`: one expression, or subscripts in parentheses. */
  ghost predicate Keys(list: seq<Node>, pr: bool, s: seq<Sym>)
    decreases |s|, list, 3
  {
    || (|list| == 1 && Expr(list[0], 9, pr, s))
    || exists u :: s == [Op(LParen)] + u + [Op(RParen)] && List(list, 13, false, u)
  }

  /** Behind a pipe, a file given for the input is read over and not kept. */
  ghost predicate ReadsGetline(n: Node, pr: bool, s: seq<Sym>)
    requires n.Node?
    decreases |s|, n, 0
  {
    match n.source
    case FromMain => exists t :: s == [Op(KwGetline)] + t && Target(n.a, pr, t)
    case FromFile => exists t, u :: s == [Op(KwGetline)] + t + [Op(Less)] + u && Target(n.a, pr, t) && Expr(n.b, 12, pr, u)
    case FromCommand =>
      !pr && exists c, t, u :: s == c + [Op(Pipe), Op(KwGetline)] + t + u
                               && Expr(n.b, 7, pr, c) && Target(n.a, pr, t) && NotKept(u)
  }

  ghost predicate NotKept(s: seq<Sym>)
    decreases |s|
  {
    s == [] || exists file: Node, v :: s == [Op(Less)] + v && Expr(file, 12, false, v)
  }

  ghost predicate Target(n: Node, pr: bool, s: seq<Sym>)
    decreases |s|, n, 3
  {
    (n.Null? && s == []) || (IsLvalue(n) && Expr(n, 0, pr, s))
  }

  // ---------- statements ----------

  ghost predicate Semis(s: seq<Sym>) {
    forall k :: 0 <= k < |s| ==> s[k] == Op(Semi)
  }

  function RedirectSym(r: Redirect): TokType {
    match r
    case ToAppend => Append
    case ToPipe => Pipe
    case _ => Greater
  }

  ghost predicate PrintItems(list: seq<Node>, s: seq<Sym>) {
    || (list == [] && s == [])
    || List(list, 12, true, s)
    || (|list| > 1 && exists u :: s == [Op(LParen)] + u + [Op(RParen)] && List(list, 13, false, u))
  }

  ghost predicate Redirected(r: Redirect, target: Node, s: seq<Sym>) {
    if r == NoRedirect then s == [] && target.Null?
    else exists u :: s == [Op(RedirectSym(r))] + u && Expr(target, 12, false, u)
  }

  /** An expression that may be missing. */
  ghost predicate MaybeExpr(n: Node, s: seq<Sym>) {
    (n.Null? && s == []) || Expr(n, 13, false, s)
  }

  ghost predicate Simple(n: Node, s: seq<Sym>) {
    n.Node? &&
      match n.kind
      case ExprStmt => Expr(n.a, 13, false, s)
      case Print => exists t, u :: s == [Op(KwPrint)] + t + u && PrintItems(n.list, t) && Redirected(n.redirect, n.a, u)
      case Printf => exists t, u :: s == [Op(KwPrintf)] + t + u && PrintItems(n.list, t) && Redirected(n.redirect, n.a, u)
      case Delete =>
        exists u :: s == [Op(KwDelete), Word(Name, n.str), Op(LBracket)] + u + [Op(RBracket)] && List(n.list, 13, false, u)
      case DeleteAll =>
        s == [Op(KwDelete), Word(Name, n.str)] || s == [Op(KwDelete), Word(Name, n.str), Op(LParen), Op(RParen)]
      case _ => false
  }

  ghost predicate MaybeSimple(n: Node, s: seq<Sym>) {
    (n.Null? && s == []) || Simple(n, s)
  }

  ghost predicate Stmt(n: Node, s: seq<Sym>)
    decreases n, 0
  {
    n.Node? &&
      match n.kind
      case If =>
        exists c, t, m, e :: s == [Op(KwIf), Op(LParen)] + c + [Op(RParen)] + t + m + e
                             && Expr(n.a, 13, false, c) && Stmt(n.b, t) && Semis(m) && Else(n.c, e)
      case While =>
        exists c, t :: s == [Op(KwWhile), Op(LParen)] + c + [Op(RParen)] + t && Expr(n.a, 13, false, c) && Stmt(n.b, t)
      case DoWhile =>
        exists t, m, c :: s == [Op(KwDo)] + t + m + [Op(KwWhile), Op(LParen)] + c + [Op(RParen)]
                          && Stmt(n.b, t) && Semis(m) && Expr(n.a, 13, false, c)
      case For =>
        |n.list| == 1 &&
          exists i, c, p, t :: s == [Op(KwFor), Op(LParen)] + i + [Op(Semi)] + c + [Op(Semi)] + p + [Op(RParen)] + t
                               && MaybeSimple(n.a, i) && MaybeExpr(n.b, c) && MaybeSimple(n.c, p) && Stmt(n.list[0], t)
      case ForIn =>
        exists t :: s == [Op(KwFor), Op(LParen), Word(Name, n.str), Op(KwIn), Word(Name, n.str2), Op(RParen)] + t && Stmt(n.a, t)
      case Break => s == [Op(KwBreak)]
      case Continue => s == [Op(KwContinue)]
      case Next => s == [Op(KwNext)]
      case NextFile => s == [Op(KwNextFile)]
      case Exit => exists u :: s == [Op(KwExit)] + u && MaybeExpr(n.a, u)
      case Return => exists u :: s == [Op(KwReturn)] + u && MaybeExpr(n.a, u)
      case Block => (n.list == [] && s == []) || exists u :: s == [Op(LBrace)] + u + [Op(RBrace)] && Stmts(n.list, u)
      case _ => Simple(n, s)
  }

  ghost predicate Else(n: Node, s: seq<Sym>)
    decreases n, 1
  {
    (n.Null? && s == []) || exists t :: s == [Op(KwElse)] + t && Stmt(n, t)
  }

  /** Statements with any number of semicolons before, between and after them. */
  ghost predicate Stmts(list: seq<Node>, s: seq<Sym>)
    decreases list, 1
  {
    if list == [] then Semis(s)
    else exists t, u, m :: s == t + u + m && Stmts(list[..|list| - 1], t) && Stmt(list[|list| - 1], u) && Semis(m)
  }

  // ---------- programs ----------

  ghost predicate Pattern(kind: PatternKind, a: Node, b: Node, s: seq<Sym>) {
    match kind
    case PatBegin => s == [Op(KwBegin)]
    case PatEnd => s == [Op(KwEnd)]
    case PatAlways => s == []
    case PatExpr => Expr(a, 13, false, s)
    case PatRange => exists t, u :: s == t + [Op(Comma)] + u && Expr(a, 13, false, t) && Expr(b, 13, false, u)
  }

  ghost predicate Action(n: Node, s: seq<Sym>) {
    (n.Null? && s == []) || (n.Node? && n.kind == Block && s != [] && Stmt(n, s))
  }

  function Last(s: seq<string>): string
    requires s != []
  {
    s[|s| - 1]
  }

  function Front(s: seq<string>): seq<string>
    requires s != []
  {
    s[..|s| - 1]
  }

  ghost predicate Parameters(params: seq<string>, s: seq<Sym>) {
    if |params| <= 1 then s == if params == [] then [] else [Word(Name, Text(params[0]))]
    else exists t :: s == t + [Op(Comma)] + [Word(Name, Text(Last(params)))] && Parameters(Front(params), t)
  }

  ghost predicate Item(n: Node, s: seq<Sym>) {
    n.Node? &&
      match n.kind
      case Rule => exists t, u :: s == t + u && Pattern(n.pattern, n.a, n.b, t) && Action(n.c, u)
      case Func =>
        exists name, t, u :: s == [Op(KwFunction), Word(name, n.str), Op(LParen)] + t + [Op(RParen)] + u
                             && name in {Name, FuncName} && Parameters(n.params, t) && Action(n.a, u) && n.a.Node?
      case _ => false
  }

  ghost predicate Program(items: seq<Node>, s: seq<Sym>) {
    if items == [] then Semis(s)
    else exists t, u, m :: s == t + u + m && Program(items[..|items| - 1], t) && Item(items[|items| - 1], u) && Semis(m)
  }

  // ---------- building derivations ----------

  lemma LvalueIsPrimary(pr: bool, n: Node, max: nat, s: seq<Sym>)
    requires Expr(n, max, pr, s) && IsLvalue(n)
    ensures Expr(n, 0, pr, s) && Target(n, pr, s)
  {
    hide Reads;
  }

  lemma BinaryReads(pr: bool, n: Node, t: seq<Sym>, u: seq<Sym>)
    requires n.Node? && HasOperator(n, pr) && Expr(n.a, LeftMax(n), pr, t) && Expr(n.b, RightMax(n), pr, u)
    ensures Expr(n, Rank(n), pr, t + [Op(OperatorOf(n))] + u)
  {
    hide Expr, OperatorOf, LeftMax, RightMax;
    var s := t + [Op(OperatorOf(n))] + u;
    assert Reads(n, pr, s);
    BinaryIsExpr(pr, n, s);
  }

  lemma BinaryIsExpr(pr: bool, n: Node, s: seq<Sym>)
    requires n.Node? && HasOperator(n, pr) && Reads(n, pr, s)
    ensures Expr(n, Rank(n), pr, s)
  {
    hide Reads;
  }

  lemma ListOne(pr: bool, e: Node, max: nat, s: seq<Sym>)
    requires Expr(e, max, pr, s)
    ensures List([e], max, pr, s)
  {
    hide Expr;
  }

  lemma ListMore(pr: bool, list: seq<Node>, max: nat, t: seq<Sym>, e: Node, u: seq<Sym>)
    requires List(list, max, pr, t) && Expr(e, max, pr, u)
    ensures List(list + [e], max, pr, t + [Op(Comma)] + u)
  {
    hide Expr;
    var all := list + [e];
    assert all[..|all| - 1] == list;
    assert list != [];
  }

  lemma StmtsNone(m: seq<Sym>)
    requires Semis(m)
    ensures Stmts([], m) && Program([], m)
  {
  }

  lemma StmtsMore(list: seq<Node>, t: seq<Sym>, n: Node, u: seq<Sym>, m: seq<Sym>)
    requires Stmts(list, t) && Stmt(n, u) && Semis(m)
    ensures Stmts(list + [n], t + u + m)
  {
    hide Stmt, Semis;
    var all := list + [n];
    assert all[..|all| - 1] == list;
  }

  lemma ProgramMore(items: seq<Node>, t: seq<Sym>, n: Node, u: seq<Sym>, m: seq<Sym>)
    requires Program(items, t) && Item(n, u) && Semis(m)
    ensures Program(items + [n], t + u + m)
  {
    hide Item, Semis;
    var all := items + [n];
    assert all[..|all| - 1] == items;
  }

  lemma ParametersMore(params: seq<string>, t: seq<Sym>, p: string)
    requires Parameters(params, t) && params != []
    ensures Parameters(params + [p], t + [Op(Comma)] + [Word(Name, Text(p))])
  {
    var all := params + [p];
    assert Front(all) == params && Last(all) == p;
  }
}
