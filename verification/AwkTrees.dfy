/** The nodes the parser builds (src/awk_parser.c), production by production:
    each can be walked, and each stands for the tokens of its parts in order. */
module AwkTrees {

  import opened AwkAst
  import opened AwkGrammar
  import opened AwkTokens

  /** A node that is there and can be walked. */
  predicate Good(n: Node) {
    n.Node? && WellFormed(n)
  }

  predicate AllGood(ns: seq<Node>) {
    forall k :: 0 <= k < |ns| ==> Good(ns[k])
  }

  /** A tree that can be walked, for an expression of at most this rank. */
  ghost predicate Tree(n: Node, max: nat, pr: bool, s: seq<Sym>) {
    Good(n) && Expr(n, max, pr, s)
  }

  ghost predicate Trees(list: seq<Node>, max: nat, pr: bool, s: seq<Sym>) {
    AllGood(list) && List(list, max, pr, s)
  }

  ghost predicate ArgumentTrees(list: seq<Node>, s: seq<Sym>) {
    AllGood(list) && Arguments(list, s)
  }

  ghost predicate TargetTree(n: Node, pr: bool, s: seq<Sym>) {
    WellFormed(n) && Target(n, pr, s)
  }

  lemma TreeUp(pr: bool, n: Node, max: nat, more: nat, s: seq<Sym>)
    requires Tree(n, max, pr, s) && max <= more <= 13
    ensures Tree(n, more, pr, s)
  {
    hide Good, Reads, Rank;
  }

  lemma NothingThere()
    ensures (forall pr :: TargetTree(Null, pr, [])) && WellFormed(Null) && ArgumentTrees([], [])
  {
  }

  /** Its parts make a node a tree that can be walked. */
  lemma GoodMade(n: Node)
    requires n.Node? && HasParts(n) && WellFormed(n.a) && WellFormed(n.b) && WellFormed(n.c) && AllGood(n.list)
    ensures Good(n)
  {
    hide HasParts;
  }

  lemma ReadsIsTree(pr: bool, n: Node, max: nat, s: seq<Sym>)
    requires Good(n) && Reads(n, pr, s) && Rank(n) <= max <= 13
    ensures Tree(n, max, pr, s)
  {
    hide WellFormed, Rank, List, Arguments, Keys, ReadsGetline, HasOperator;
  }

  lemma TreeReads(pr: bool, n: Node, max: nat, s: seq<Sym>)
    requires Tree(n, max, pr, s)
    ensures n.Node? && Good(n) && Reads(n, pr, s) && Expr(n, max, pr, s) && max <= 13
  {
    hide WellFormed, Reads, Rank;
  }

  lemma TreesOne(pr: bool, e: Node, max: nat, s: seq<Sym>)
    requires Tree(e, max, pr, s)
    ensures Trees([e], max, pr, s)
  {
    hide WellFormed, Expr;
    ListOne(pr, e, max, s);
  }

  lemma TreesMore(pr: bool, list: seq<Node>, max: nat, t: seq<Sym>, e: Node, u: seq<Sym>)
    requires Trees(list, max, pr, t) && Tree(e, max, pr, u)
    ensures Trees(list + [e], max, pr, t + [Op(Comma)] + u)
  {
    hide Good, Expr, List;
    ListMore(pr, list, max, t, e, u);
  }

  // ---------- primaries ----------

  function Leaf(kind: Kind, str: Text): (n: Node)
    ensures n.Node? && n.kind == kind
  {
    var n := NewNode(kind);
    n.(str := str)
  }

  predicate IsLiteral(tok: Token) {
    tok.typ == Number || ((tok.typ == StringLit || tok.typ == Ere) && tok.text.Text?)
  }

  function Literal(tok: Token): (n: Node)
    ensures n.Node?
  {
    if tok.typ == Number then var n := NewNode(NumLit); n.(num := tok.num)
    else Leaf(if tok.typ == Ere then Regex else StrLit, tok.text)
  }

  lemma LiteralTree(pr: bool, tok: Token)
    requires IsLiteral(tok)
    ensures Tree(Literal(tok), 0, pr, if tok.typ == Number then [Sym(Number, NoText, tok.num)] else [Word(tok.typ, tok.text)])
  {
  }

  lemma NameTree(pr: bool, name: Text)
    requires name.Text?
    ensures Tree(Leaf(VarRef, name), 0, pr, [Word(Name, name)])
  {
  }

  function WithList(kind: Kind, str: Text, list: seq<Node>): (n: Node)
    ensures n.Node? && n.kind == kind
  {
    var n := NewNode(kind);
    n.(str := str, list := list)
  }

  lemma ElementTree(pr: bool, name: Text, list: seq<Node>, u: seq<Sym>)
    requires name.Text? && Trees(list, 13, pr, u)
    ensures Tree(WithList(ArrayRef, name, list), 0, pr, [Word(Name, name)] + [Op(LBracket)] + u + [Op(RBracket)])
  {
    ListsAreThere(pr, list, 13, u);
    NothingThere();
    hide List, WellFormed, Expr, Reads;
    var n := WithList(ArrayRef, name, list);
    var s := [Word(Name, name)] + [Op(LBracket)] + u + [Op(RBracket)];
    assert s == [Word(Name, name), Op(LBracket)] + u + [Op(RBracket)];
    ElementReads(pr, n, u);
    GoodMade(n);
    ReadsIsTree(pr, n, 0, s);
  }

  lemma ElementReads(pr: bool, n: Node, u: seq<Sym>)
    requires n.Node? && n.kind == ArrayRef && List(n.list, 13, pr, u)
    ensures Reads(n, pr, [Word(Name, n.str), Op(LBracket)] + u + [Op(RBracket)])
  {
    hide Expr, List, Arguments, Keys, ReadsGetline;
  }

  lemma ListsAreThere(pr: bool, list: seq<Node>, max: nat, u: seq<Sym>)
    ensures List(list, max, pr, u) ==> list != []
  {
  }

  lemma GroupTree(pr: bool, list: seq<Node>, u: seq<Sym>)
    requires Trees(list, 13, false, u)
    ensures Tree(WithList(Group, NoText, list), 0, pr, [Op(LParen)] + u + [Op(RParen)])
  {
    ListsAreThere(false, list, 13, u);
    GroupIsGood(list);
    GroupReads(pr, WithList(Group, NoText, list), u);
    hide List, WellFormed, Expr, Reads;
    ReadsIsTree(pr, WithList(Group, NoText, list), 0, [Op(LParen)] + u + [Op(RParen)]);
  }

  lemma GroupIsGood(list: seq<Node>)
    requires AllGood(list) && list != []
    ensures Good(WithList(Group, NoText, list))
  {
    NothingThere();
    hide WellFormed;
    GoodMade(WithList(Group, NoText, list));
  }

  lemma GroupReads(pr: bool, n: Node, u: seq<Sym>)
    requires n.Node? && n.kind == Group && List(n.list, 13, false, u)
    ensures Reads(n, pr, [Op(LParen)] + u + [Op(RParen)])
  {
    hide Expr, List, Arguments, Keys, ReadsGetline;
  }

  function OneChild(kind: Kind, op: TokType, a: Node): (n: Node)
    ensures n.Node? && n.kind == kind
  {
    var n := NewNode(kind);
    n.(op := op, a := a)
  }

  function Prefix(op: TokType, a: Node): (n: Node)
    ensures n.Node?
  {
    if op == Dollar then OneChild(Field, EndOfFile, a)
    else if op == Incr then OneChild(PreIncr, EndOfFile, a)
    else if op == Decr then OneChild(PreDecr, EndOfFile, a)
    else OneChild(Unary, op, a)
  }

  /** An operand with what stands before it. */
  lemma PrefixedTree(pr: bool, n: Node, u: seq<Sym>)
    requires n.Node? && IsPrefixed(n) && Tree(n.a, OperandMax(n), pr, u) && n.b.Null? && n.c.Null? && n.list == []
    ensures Tree(n, 0, pr, [Op(LeadOf(n))] + u)
  {
    hide WellFormed, Expr, LeadOf, OperandMax, List, Arguments, Keys, ReadsGetline, HasOperator;
    assert Reads(n, pr, [Op(LeadOf(n))] + u);
    GoodOne(n);
    ReadsIsTree(pr, n, 0, [Op(LeadOf(n))] + u);
  }

  lemma PrefixTree(pr: bool, op: TokType, a: Node, u: seq<Sym>)
    requires Tree(a, 0, pr, u) && op in {Dollar, Incr, Decr, Minus, Plus}
    ensures Tree(Prefix(op, a), 0, pr, [Op(op)] + u)
  {
    PrefixIs(op, a);
    hide *;
    PrefixedTree(pr, Prefix(op, a), u);
  }

  lemma PrefixIs(op: TokType, a: Node)
    requires op in {Dollar, Incr, Decr, Minus, Plus}
    ensures var n := Prefix(op, a);
            && IsPrefixed(n) && LeadOf(n) == op && OperandMax(n) == 0
            && n.a == a && n.b.Null? && n.c.Null? && n.list == []
  {
  }

  lemma NotTree(pr: bool, a: Node, u: seq<Sym>)
    requires Tree(a, 12, pr, u)
    ensures Tree(OneChild(Unary, NotTok, a), 0, pr, [Op(NotTok)] + u)
  {
    hide Tree;
    PrefixedTree(pr, OneChild(Unary, NotTok, a), u);
  }

  /** A node with one good child and nothing else. */
  lemma GoodOne(n: Node)
    requires n.Node? && HasParts(n) && Good(n.a) && n.b.Null? && n.c.Null? && n.list == []
    ensures Good(n)
  {
    hide HasParts, WellFormed;
    NothingThere();
    GoodMade(n);
  }

  lemma GoodTwo(n: Node)
    requires n.Node? && HasParts(n) && Good(n.a) && Good(n.b) && n.c.Null? && n.list == []
    ensures Good(n)
  {
    hide HasParts, WellFormed;
    NothingThere();
    GoodMade(n);
  }

  function CallNode(name: Text, isBuiltin: bool, list: seq<Node>): (n: Node)
    ensures n.Node? && n.kind == Call
  {
    var n := NewNode(Call);
    n.(str := name, isBuiltin := isBuiltin, list := list)
  }

  lemma CallTree(pr: bool, name: Text, isBuiltin: bool, list: seq<Node>, u: seq<Sym>)
    requires name.Text? && ArgumentTrees(list, u)
    ensures Tree(CallNode(name, isBuiltin, list), 0, pr,
                 [Word(if isBuiltin then BuiltinFunc else FuncName, name)] + [Op(LParen)] + u + [Op(RParen)])
  {
    NothingThere();
    hide Arguments, WellFormed, Expr, Reads;
    var n, w := CallNode(name, isBuiltin, list), if isBuiltin then BuiltinFunc else FuncName;
    var s := [Word(w, name)] + [Op(LParen)] + u + [Op(RParen)];
    assert s == [Word(w, name), Op(LParen)] + u + [Op(RParen)];
    CallReads(pr, n, u);
    GoodMade(n);
    ReadsIsTree(pr, n, 0, s);
  }

  lemma CallReads(pr: bool, n: Node, u: seq<Sym>)
    requires n.Node? && n.kind == Call && Arguments(n.list, u)
    ensures Reads(n, pr, [Word(if n.isBuiltin then BuiltinFunc else FuncName, n.str), Op(LParen)] + u + [Op(RParen)])
  {
    hide Expr, List, Arguments, Keys, ReadsGetline;
  }

  lemma BareCallTree(pr: bool, name: Text)
    requires name.Text?
    ensures Tree(CallNode(name, true, []), 0, pr, [Word(BuiltinFunc, name)])
  {
  }

  function GetlineNode(target: Node, source: GetlineSource, from: Node): (n: Node)
    ensures n.Node? && n.kind == Getline && n.source == source
  {
    var n := NewNode(Getline);
    n.(a := target, source := source, b := from)
  }

  lemma GetlineMainTree(pr: bool, target: Node, t: seq<Sym>)
    requires TargetTree(target, pr, t)
    ensures Tree(GetlineNode(target, FromMain, Null), 0, pr, [Op(KwGetline)] + t)
  {
    hide Target, WellFormed, Expr;
    var n := GetlineNode(target, FromMain, Null);
    assert Target(n.a, pr, t);
    assert ReadsGetline(n, pr, [Op(KwGetline)] + t);
    NothingThere();
    GoodMade(n);
    ReadsIsTree(pr, n, 0, [Op(KwGetline)] + t);
  }

  lemma GetlineFileTree(pr: bool, target: Node, t: seq<Sym>, file: Node, u: seq<Sym>)
    requires TargetTree(target, pr, t) && Tree(file, 12, pr, u)
    ensures Tree(GetlineNode(target, FromFile, file), 0, pr, [Op(KwGetline)] + t + [Op(Less)] + u)
  {
    hide Target, WellFormed, Expr;
    var n := GetlineNode(target, FromFile, file);
    assert Target(n.a, pr, t) && Expr(n.b, 12, pr, u);
    assert ReadsGetline(n, pr, [Op(KwGetline)] + t + [Op(Less)] + u);
    NothingThere();
    GoodMade(n);
    ReadsIsTree(pr, n, 0, [Op(KwGetline)] + t + [Op(Less)] + u);
  }

  /** The command takes the place of a file the getline may have had. */
  lemma PipeTree(n: Node, c: seq<Sym>, gl: Node, u: seq<Sym>)
    requires Tree(n, 7, false, c) && gl.Node? && gl.kind == Getline && gl.source != FromCommand && Tree(gl, 0, false, u)
    ensures Tree(GetlineNode(gl.a, FromCommand, n), 7, false, c + [Op(Pipe)] + u)
  {
    var t, v := GetlineParts(gl, u);
    GroupHasItems(gl);
    NothingThere();
    hide Target, Expr, WellFormed, Reads;
    var g := GetlineNode(gl.a, FromCommand, n);
    PipeReads(g, c, t, v);
    PipeTokens(c, t, v);
    GoodMade(g);
    ReadsIsTree(false, g, 7, c + [Op(Pipe)] + u);
  }

  lemma PipeTokens(c: seq<Sym>, t: seq<Sym>, v: seq<Sym>)
    ensures c + [Op(Pipe)] + ([Op(KwGetline)] + t + v) == c + [Op(Pipe), Op(KwGetline)] + t + v
  {
  }

  lemma PipeReads(g: Node, c: seq<Sym>, t: seq<Sym>, v: seq<Sym>)
    requires g.Node? && g.kind == Getline && g.source == FromCommand && Target(g.a, false, t) && Expr(g.b, 7, false, c) && NotKept(v)
    ensures Reads(g, false, c + [Op(Pipe), Op(KwGetline)] + t + v)
  {
    hide Reads, Expr, Target, NotKept;
    assert ReadsGetline(g, false, c + [Op(Pipe), Op(KwGetline)] + t + v);
    GetlineIsRead(g, false, c + [Op(Pipe), Op(KwGetline)] + t + v);
  }

  lemma GetlineIsRead(g: Node, pr: bool, s: seq<Sym>)
    requires g.Node? && g.kind == Getline && ReadsGetline(g, pr, s)
    ensures Reads(g, pr, s)
  {
    hide ReadsGetline;
  }

  lemma GetlineParts(gl: Node, u: seq<Sym>) returns (t: seq<Sym>, v: seq<Sym>)
    requires gl.Node? && gl.kind == Getline && gl.source != FromCommand && Expr(gl, 0, false, u)
    ensures u == [Op(KwGetline)] + t + v && Target(gl.a, false, t) && NotKept(v)
  {
    assert ReadsGetline(gl, false, u);
    hide Target, Expr;
    if gl.source == FromMain {
      t :| u == [Op(KwGetline)] + t && Target(gl.a, false, t);
      v := [];
    } else {
      var w;
      t, w :| u == [Op(KwGetline)] + t + [Op(Less)] + w && Target(gl.a, false, t) && Expr(gl.b, 12, false, w);
      v := [Op(Less)] + w;
    }
  }

  lemma TargetOf(pr: bool, n: Node, s: seq<Sym>)
    requires Tree(n, 0, pr, s) && IsLvalue(n)
    ensures TargetTree(n, pr, s)
  {
    hide Expr;
  }

  // ---------- operators ----------

  lemma PostTree(pr: bool, increment: bool, a: Node, u: seq<Sym>)
    requires Tree(a, 1, pr, u) && IsLvalue(a)
    ensures Tree(OneChild(if increment then PostIncr else PostDecr, EndOfFile, a), 1, pr, u + [Op(if increment then Incr else Decr)])
  {
    LvalueIsPrimary(pr, a, 1, u);
    hide Expr, WellFormed, Reads;
    var n := OneChild(if increment then PostIncr else PostDecr, EndOfFile, a);
    PostReads(pr, n, u);
    GoodOne(n);
    ReadsIsTree(pr, n, 1, u + [Op(if increment then Incr else Decr)]);
  }

  lemma PostReads(pr: bool, n: Node, u: seq<Sym>)
    requires n.Node? && n.kind in {PostIncr, PostDecr} && IsLvalue(n.a) && Expr(n.a, 0, pr, u)
    ensures Reads(n, pr, u + [Op(if n.kind == PostIncr then Incr else Decr)])
  {
    hide Expr, List, Arguments, Keys, ReadsGetline;
  }

  function Binary(kind: Kind, op: TokType, a: Node, b: Node): (n: Node)
    ensures n.Node? && n.kind == kind
  {
    var n := NewNode(kind);
    n.(op := op, a := a, b := b)
  }

  lemma BinaryTree(pr: bool, n: Node, t: seq<Sym>, u: seq<Sym>)
    requires n.Node? && HasOperator(n, pr) && n.c.Null? && n.list == []
    requires Tree(n.a, LeftMax(n), pr, t) && Tree(n.b, RightMax(n), pr, u)
    ensures Tree(n, Rank(n), pr, t + [Op(OperatorOf(n))] + u)
  {
    BinaryReads(pr, n, t, u);
    hide Expr, Rank, OperatorOf, LeftMax, RightMax, WellFormed;
    GoodTwo(n);
  }

  lemma PowerTree(pr: bool, a: Node, t: seq<Sym>, b: Node, u: seq<Sym>)
    requires Tree(a, 1, pr, t) && Tree(b, 2, pr, u)
    ensures Tree(Binary(BinOp, Caret, a, b), 2, pr, t + [Op(Caret)] + u)
  {
    hide Tree;
    BinaryTree(pr, Binary(BinOp, Caret, a, b), t, u);
  }

  lemma FactorTree(pr: bool, op: TokType, a: Node, t: seq<Sym>, b: Node, u: seq<Sym>)
    requires op in {Star, Slash, Percent} && Tree(a, 3, pr, t) && Tree(b, 2, pr, u)
    ensures Tree(Binary(BinOp, op, a, b), 3, pr, t + [Op(op)] + u)
  {
    hide Tree;
    BinaryTree(pr, Binary(BinOp, op, a, b), t, u);
  }

  lemma TermTree(pr: bool, op: TokType, a: Node, t: seq<Sym>, b: Node, u: seq<Sym>)
    requires op in {Plus, Minus} && Tree(a, 4, pr, t) && Tree(b, 3, pr, u)
    ensures Tree(Binary(BinOp, op, a, b), 4, pr, t + [Op(op)] + u)
  {
    hide Tree;
    BinaryTree(pr, Binary(BinOp, op, a, b), t, u);
  }

  lemma ConcatTree(pr: bool, a: Node, t: seq<Sym>, b: Node, u: seq<Sym>)
    requires Tree(a, 5, pr, t) && Tree(b, 4, pr, u)
    ensures Tree(Binary(Concat, EndOfFile, a, b), 5, pr, t + u)
  {
    hide Expr, WellFormed, Reads;
    var n := Binary(Concat, EndOfFile, a, b);
    ConcatReads(pr, n, t, u);
    GoodTwo(n);
    ReadsIsTree(pr, n, 5, t + u);
  }

  lemma ConcatReads(pr: bool, n: Node, t: seq<Sym>, u: seq<Sym>)
    requires n.Node? && n.kind == Concat && Expr(n.a, 5, pr, t) && Expr(n.b, 4, pr, u)
    ensures Reads(n, pr, t + u)
  {
    hide Expr, List, Arguments, Keys, ReadsGetline;
  }

  lemma CompareTree(pr: bool, op: TokType, a: Node, t: seq<Sym>, b: Node, u: seq<Sym>)
    requires op in {Less, LessEq, Greater, GreaterEq, Equal, NotEqual} && (pr ==> op != Greater)
    requires Tree(a, 5, pr, t) && Tree(b, 5, pr, u)
    ensures Tree(Binary(Compare, op, a, b), 6, pr, t + [Op(op)] + u)
  {
    hide Tree;
    BinaryTree(pr, Binary(Compare, op, a, b), t, u);
  }

  function MatchNode(negated: bool, a: Node, b: Node): (n: Node)
    ensures n.Node? && n.kind == Match
  {
    var n := NewNode(Match);
    n.(negated := negated, a := a, b := b)
  }

  lemma MatchTree(pr: bool, negated: bool, a: Node, t: seq<Sym>, b: Node, u: seq<Sym>)
    requires Tree(a, 8, pr, t) && Tree(b, 7, pr, u)
    ensures Tree(MatchNode(negated, a, b), 8, pr, t + [Op(if negated then NoMatch else MatchTok)] + u)
  {
    hide Tree;
    BinaryTree(pr, MatchNode(negated, a, b), t, u);
  }

  /** What stands before `in` as a list of subscripts. */
  function KeysOf(n: Node): (keys: seq<Node>)
    requires n.Node?
    ensures keys != []
  {
    if n.kind == Group && |n.list| > 1 then n.list
    else if n.kind == Group && |n.list| == 1 then [n.list[0]] else [n]
  }

  lemma KeysRead(pr: bool, n: Node, u: seq<Sym>)
    requires Tree(n, 9, pr, u)
    ensures AllGood(KeysOf(n)) && Keys(KeysOf(n), pr, u)
  {
    TreeReads(pr, n, 9, u);
    GroupHasItems(n);
    hide WellFormed, List, Expr;
    if n.kind == Group {
      var v :| u == [Op(LParen)] + v + [Op(RParen)] && List(n.list, 13, false, v);
      assert KeysOf(n) == n.list;
    } else {
      assert Expr(KeysOf(n)[0], 9, pr, u);
    }
  }

  lemma GroupHasItems(n: Node)
    requires Good(n)
    ensures AllGood(n.list) && (n.kind == Group ==> n.list != []) && WellFormed(n.a)
  {
  }

  lemma InTree(pr: bool, n: Node, u: seq<Sym>, arr: Text)
    requires arr.Text? && Tree(n, 9, pr, u)
    ensures Tree(WithList(In, arr, KeysOf(n)), 9, pr, u + [Op(KwIn)] + [Word(Name, arr)])
  {
    KeysRead(pr, n, u);
    hide Keys, KeysOf, Expr, WellFormed;
    var g := WithList(In, arr, KeysOf(n));
    var s := u + [Op(KwIn)] + [Word(Name, arr)];
    assert s == u + [Op(KwIn), Word(Name, arr)];
    assert Keys(g.list, pr, u);
    assert Reads(g, pr, s);
    NothingThere();
    GoodMade(g);
    ReadsIsTree(pr, g, 9, s);
  }

  lemma AndTree(pr: bool, a: Node, t: seq<Sym>, b: Node, u: seq<Sym>)
    requires Tree(a, 10, pr, t) && Tree(b, 9, pr, u)
    ensures Tree(Binary(And, EndOfFile, a, b), 10, pr, t + [Op(AndAnd)] + u)
  {
    hide Tree;
    BinaryTree(pr, Binary(And, EndOfFile, a, b), t, u);
  }

  lemma OrTree(pr: bool, a: Node, t: seq<Sym>, b: Node, u: seq<Sym>)
    requires Tree(a, 11, pr, t) && Tree(b, 10, pr, u)
    ensures Tree(Binary(Or, EndOfFile, a, b), 11, pr, t + [Op(OrOr)] + u)
  {
    hide Tree;
    BinaryTree(pr, Binary(Or, EndOfFile, a, b), t, u);
  }

  function ThreeParts(kind: Kind, a: Node, b: Node, c: Node): (n: Node)
    ensures n.Node? && n.kind == kind
  {
    var n := NewNode(kind);
    n.(a := a, b := b, c := c)
  }

  lemma TernaryTree(pr: bool, a: Node, t: seq<Sym>, b: Node, u: seq<Sym>, c: Node, v: seq<Sym>)
    requires Tree(a, 11, pr, t) && Tree(b, 12, pr, u) && Tree(c, 12, pr, v)
    ensures Tree(ThreeParts(Ternary, a, b, c), 12, pr, t + [Op(Question)] + u + [Op(Colon)] + v)
  {
    hide Expr, WellFormed, Reads;
    var n := ThreeParts(Ternary, a, b, c);
    TernaryReads(pr, n, t, u, v);
    GoodMade(n);
    ReadsIsTree(pr, n, 12, t + [Op(Question)] + u + [Op(Colon)] + v);
  }

  lemma TernaryReads(pr: bool, n: Node, t: seq<Sym>, u: seq<Sym>, v: seq<Sym>)
    requires n.Node? && n.kind == Ternary && Expr(n.a, 11, pr, t) && Expr(n.b, 12, pr, u) && Expr(n.c, 12, pr, v)
    ensures Reads(n, pr, t + [Op(Question)] + u + [Op(Colon)] + v)
  {
    hide Expr, List, Arguments, Keys, ReadsGetline;
  }

  lemma AssignmentTree(pr: bool, op: TokType, a: Node, t: seq<Sym>, b: Node, u: seq<Sym>)
    requires op in {AssignTok, AddAssign, SubAssign, MulAssign, DivAssign, ModAssign, PowAssign}
    requires IsLvalue(a) && Tree(a, 12, pr, t) && Tree(b, 13, pr, u)
    ensures Tree(Binary(Assignment, op, a, b), 13, pr, t + [Op(op)] + u)
  {
    hide Tree;
    BinaryTree(pr, Binary(Assignment, op, a, b), t, u);
  }

  // ---------- statements ----------

  ghost predicate SimpleTree(n: Node, s: seq<Sym>) {
    Good(n) && Simple(n, s)
  }

  ghost predicate StmtTree(n: Node, s: seq<Sym>) {
    Good(n) && Stmt(n, s)
  }

  ghost predicate StmtTrees(list: seq<Node>, s: seq<Sym>) {
    AllGood(list) && Stmts(list, s)
  }

  ghost predicate MaybeTree(n: Node, s: seq<Sym>) {
    WellFormed(n) && MaybeExpr(n, s)
  }

  ghost predicate MaybeSimpleTree(n: Node, s: seq<Sym>) {
    WellFormed(n) && MaybeSimple(n, s)
  }

  /** A condition between its parentheses. */
  ghost predicate InParens(n: Node, s: seq<Sym>) {
    exists c :: s == [Op(LParen)] + c + [Op(RParen)] && Tree(n, 13, false, c)
  }

  ghost predicate ElseTree(n: Node, s: seq<Sym>) {
    WellFormed(n) && Else(n, s)
  }

  ghost predicate PrintTrees(list: seq<Node>, s: seq<Sym>) {
    AllGood(list) && PrintItems(list, s)
  }

  ghost predicate RedirectTree(r: Redirect, target: Node, s: seq<Sym>) {
    WellFormed(target) && Redirected(r, target, s)
  }

  lemma NothingOptional()
    ensures MaybeTree(Null, []) && MaybeSimpleTree(Null, []) && ElseTree(Null, []) && PrintTrees([], [])
    ensures RedirectTree(NoRedirect, Null, []) && Semis([])
  {
  }

  lemma MaybeOfTree(n: Node, s: seq<Sym>)
    requires Tree(n, 13, false, s)
    ensures MaybeTree(n, s)
  {
    hide WellFormed, Expr;
  }

  lemma MaybeOfSimple(n: Node, s: seq<Sym>)
    requires SimpleTree(n, s)
    ensures MaybeSimpleTree(n, s)
  {
    hide WellFormed, Simple;
  }

  lemma SimpleIsStmt(n: Node, s: seq<Sym>)
    requires SimpleTree(n, s)
    ensures StmtTree(n, s)
  {
    hide WellFormed, Expr, List, PrintItems, Redirected;
  }

  lemma ExprStmtTree(e: Node, s: seq<Sym>)
    requires Tree(e, 13, false, s)
    ensures SimpleTree(OneChild(ExprStmt, EndOfFile, e), s)
  {
    hide WellFormed, Expr;
    var n := OneChild(ExprStmt, EndOfFile, e);
    assert Expr(n.a, 13, false, s);
    GoodOne(n);
  }

  lemma PrintedList(list: seq<Node>, s: seq<Sym>)
    requires Trees(list, 12, true, s)
    ensures PrintTrees(list, s)
  {
    hide WellFormed, List;
  }

  /** A parenthesized list stands for its items. */
  lemma PrintedGroup(g: Node, s: seq<Sym>)
    requires Trees([g], 12, true, s) && g.Node? && g.kind == Group && |g.list| > 1
    ensures PrintTrees(g.list, s)
  {
    assert Expr(g, 12, true, s);
    GroupHasItems(g);
    assert Reads(g, true, s);
    hide WellFormed, List;
    var v :| s == [Op(LParen)] + v + [Op(RParen)] && List(g.list, 13, false, v);
  }

  lemma RedirectedTo(r: Redirect, target: Node, u: seq<Sym>)
    requires Tree(target, 12, false, u) && r != NoRedirect
    ensures RedirectTree(r, target, [Op(RedirectSym(r))] + u)
  {
    hide WellFormed, Expr;
  }

  function PrintNode(isPrintf: bool, list: seq<Node>, redirect: Redirect, target: Node): (n: Node)
    ensures n.Node?
  {
    var n := NewNode(if isPrintf then Printf else Print);
    n.(list := list, redirect := redirect, a := target)
  }

  lemma PrintTree(isPrintf: bool, list: seq<Node>, t: seq<Sym>, redirect: Redirect, target: Node, u: seq<Sym>)
    requires PrintTrees(list, t) && RedirectTree(redirect, target, u)
    ensures SimpleTree(PrintNode(isPrintf, list, redirect, target), [Op(if isPrintf then KwPrintf else KwPrint)] + t + u)
  {
    RedirectIsThere(redirect, target, u);
    hide WellFormed, PrintItems, Redirected;
    var n := PrintNode(isPrintf, list, redirect, target);
    assert PrintItems(n.list, t) && Redirected(n.redirect, n.a, u);
    NothingThere();
    GoodMade(n);
  }

  lemma RedirectIsThere(r: Redirect, target: Node, u: seq<Sym>)
    requires Redirected(r, target, u)
    ensures r != NoRedirect ==> target.Node?
  {
  }

  lemma DeleteTree(name: Text, list: seq<Node>, u: seq<Sym>)
    requires name.Text? && Trees(list, 13, false, u)
    ensures SimpleTree(WithList(Delete, name, list), [Op(KwDelete)] + ([Word(Name, name)] + [Op(LBracket)] + u + [Op(RBracket)]))
  {
    ListsAreThere(false, list, 13, u);
    NothingThere();
    DeleteTokens(name, u);
    hide WellFormed, List, Simple, Expr;
    var n := WithList(Delete, name, list);
    DeleteReads(n, u);
    GoodMade(n);
  }

  lemma DeleteTokens(name: Text, u: seq<Sym>)
    ensures [Op(KwDelete)] + ([Word(Name, name)] + [Op(LBracket)] + u + [Op(RBracket)])
         == [Op(KwDelete), Word(Name, name), Op(LBracket)] + u + [Op(RBracket)]
  {
  }

  lemma DeleteReads(n: Node, u: seq<Sym>)
    requires n.Node? && n.kind == Delete && List(n.list, 13, false, u)
    ensures Simple(n, [Op(KwDelete), Word(Name, n.str), Op(LBracket)] + u + [Op(RBracket)])
  {
    hide List, Expr, PrintItems, Redirected;
  }

  lemma DeleteAllTree(name: Text)
    requires name.Text?
    ensures SimpleTree(Leaf(DeleteAll, name), [Op(KwDelete)] + [Word(Name, name)])
    ensures SimpleTree(Leaf(DeleteAll, name), [Op(KwDelete)] + ([Word(Name, name)] + [Op(LParen)] + [Op(RParen)]))
  {
    assert [Op(KwDelete)] + [Word(Name, name)] == [Op(KwDelete), Word(Name, name)];
    assert [Op(KwDelete)] + ([Word(Name, name)] + [Op(LParen)] + [Op(RParen)])
        == [Op(KwDelete), Word(Name, name), Op(LParen), Op(RParen)];
    hide WellFormed;
    NothingThere();
    GoodMade(Leaf(DeleteAll, name));
  }

  lemma ElseOf(n: Node, t: seq<Sym>)
    requires StmtTree(n, t)
    ensures ElseTree(n, [Op(KwElse)] + t)
  {
    hide WellFormed, Stmt;
  }

  lemma IfTree(a: Node, c: seq<Sym>, b: Node, t: seq<Sym>, m: seq<Sym>, e: Node, u: seq<Sym>)
    requires InParens(a, c) && StmtTree(b, t) && Semis(m) && ElseTree(e, u)
    ensures StmtTree(ThreeParts(If, a, b, e), [Op(KwIf)] + c + t + m + u)
  {
    var v := Parenthesized(a, c);
    hide WellFormed, Expr, Stmt, Semis, Else, InParens;
    var n := ThreeParts(If, a, b, e);
    IfReads(n, v, t, m, u);
    HeadTokens(KwIf, v, t);
    assert n.a == a && n.b == b && n.c == e && n.list == [];
    GoodMade(n);
  }

  lemma Parenthesized(a: Node, c: seq<Sym>) returns (v: seq<Sym>)
    requires InParens(a, c)
    ensures c == [Op(LParen)] + v + [Op(RParen)] && Tree(a, 13, false, v)
  {
    hide Tree;
    v :| c == [Op(LParen)] + v + [Op(RParen)] && Tree(a, 13, false, v);
  }

  lemma HeadTokens(k: TokType, v: seq<Sym>, t: seq<Sym>)
    ensures [Op(k)] + ([Op(LParen)] + v + [Op(RParen)]) + t == [Op(k), Op(LParen)] + v + [Op(RParen)] + t
  {
  }

  lemma IfReads(n: Node, c: seq<Sym>, t: seq<Sym>, m: seq<Sym>, e: seq<Sym>)
    requires n.Node? && n.kind == If && Expr(n.a, 13, false, c) && Stmt(n.b, t) && Semis(m) && Else(n.c, e)
    ensures Stmt(n, [Op(KwIf), Op(LParen)] + c + [Op(RParen)] + t + m + e)
  {
    hide Expr, Semis, Else, Simple;
  }

  lemma WhileTree(a: Node, c: seq<Sym>, b: Node, t: seq<Sym>)
    requires InParens(a, c) && StmtTree(b, t)
    ensures StmtTree(Binary(While, EndOfFile, a, b), [Op(KwWhile)] + c + t)
  {
    var v := Parenthesized(a, c);
    hide WellFormed, Expr, Stmt, InParens;
    var n := Binary(While, EndOfFile, a, b);
    WhileReads(n, v, t);
    HeadTokens(KwWhile, v, t);
    GoodTwo(n);
  }

  lemma WhileReads(n: Node, c: seq<Sym>, t: seq<Sym>)
    requires n.Node? && n.kind == While && Expr(n.a, 13, false, c) && Stmt(n.b, t)
    ensures Stmt(n, [Op(KwWhile), Op(LParen)] + c + [Op(RParen)] + t)
  {
    hide Expr, Semis, Else, Simple;
  }

  lemma DoTree(a: Node, c: seq<Sym>, b: Node, t: seq<Sym>, m: seq<Sym>)
    requires InParens(a, c) && StmtTree(b, t) && Semis(m)
    ensures StmtTree(Binary(DoWhile, EndOfFile, a, b), [Op(KwDo)] + t + m + [Op(KwWhile)] + c)
  {
    var v := Parenthesized(a, c);
    hide WellFormed, Expr, Stmt, Semis, InParens;
    var n := Binary(DoWhile, EndOfFile, a, b);
    DoReads(n, v, t, m);
    TailTokens([Op(KwDo)] + t + m, v);
    GoodTwo(n);
  }

  lemma TailTokens(s: seq<Sym>, v: seq<Sym>)
    ensures s + [Op(KwWhile)] + ([Op(LParen)] + v + [Op(RParen)]) == s + [Op(KwWhile), Op(LParen)] + v + [Op(RParen)]
  {
  }

  lemma DoReads(n: Node, c: seq<Sym>, t: seq<Sym>, m: seq<Sym>)
    requires n.Node? && n.kind == DoWhile && Expr(n.a, 13, false, c) && Stmt(n.b, t) && Semis(m)
    ensures Stmt(n, [Op(KwDo)] + t + m + [Op(KwWhile), Op(LParen)] + c + [Op(RParen)])
  {
    hide Expr, Semis, Else, Simple;
  }

  function ForNode(init: Node, cond: Node, post: Node, body: Node): (n: Node)
    ensures n.Node? && n.kind == For
  {
    var n := NewNode(For);
    n.(a := init, b := cond, c := post, list := [body])
  }

  lemma ForTree(init: Node, i: seq<Sym>, cond: Node, c: seq<Sym>, post: Node, p: seq<Sym>, body: Node, t: seq<Sym>)
    requires MaybeSimpleTree(init, i) && MaybeTree(cond, c) && MaybeSimpleTree(post, p) && StmtTree(body, t)
    ensures StmtTree(ForNode(init, cond, post, body),
                     [Op(KwFor)] + [Op(LParen)] + (i + [Op(Semi)] + c + [Op(Semi)] + p + [Op(RParen)] + t))
  {
    hide WellFormed, MaybeSimple, MaybeExpr, Stmt;
    var n := ForNode(init, cond, post, body);
    var rest := i + [Op(Semi)] + c + [Op(Semi)] + p + [Op(RParen)] + t;
    ForReads(n, i, c, p, t);
    ForTokens(i, c, p, t);
    GoodMade(n);
  }

  lemma ForTokens(i: seq<Sym>, c: seq<Sym>, p: seq<Sym>, t: seq<Sym>)
    ensures [Op(KwFor)] + [Op(LParen)] + (i + [Op(Semi)] + c + [Op(Semi)] + p + [Op(RParen)] + t)
         == [Op(KwFor), Op(LParen)] + i + [Op(Semi)] + c + [Op(Semi)] + p + [Op(RParen)] + t
  {
  }

  lemma ForReads(n: Node, i: seq<Sym>, c: seq<Sym>, p: seq<Sym>, t: seq<Sym>)
    requires n.Node? && n.kind == For && |n.list| == 1
    requires MaybeSimple(n.a, i) && MaybeExpr(n.b, c) && MaybeSimple(n.c, p) && Stmt(n.list[0], t)
    ensures Stmt(n, [Op(KwFor), Op(LParen)] + i + [Op(Semi)] + c + [Op(Semi)] + p + [Op(RParen)] + t)
  {
    hide MaybeSimple, MaybeExpr, Semis, Else, Simple;
  }

  function ForInNode(name: Text, arr: Text, body: Node): (n: Node)
    ensures n.Node? && n.kind == ForIn
  {
    var n := NewNode(ForIn);
    n.(str := name, str2 := arr, a := body)
  }

  lemma ForInTree(name: Text, arr: Text, body: Node, t: seq<Sym>)
    requires name.Text? && arr.Text? && StmtTree(body, t)
    ensures StmtTree(ForInNode(name, arr, body),
                     [Op(KwFor)] + [Op(LParen)] + ([Word(Name, name)] + [Op(KwIn)] + [Word(Name, arr)] + [Op(RParen)] + t))
  {
    hide WellFormed, Stmt;
    var n := ForInNode(name, arr, body);
    var s := [Op(KwFor)] + [Op(LParen)] + ([Word(Name, name)] + [Op(KwIn)] + [Word(Name, arr)] + [Op(RParen)] + t);
    assert s == [Op(KwFor), Op(LParen), Word(Name, n.str), Op(KwIn), Word(Name, n.str2), Op(RParen)] + t;
    ForInReads(n, t);
    GoodOne(n);
  }

  lemma ForInReads(n: Node, t: seq<Sym>)
    requires n.Node? && n.kind == ForIn && Stmt(n.a, t)
    ensures Stmt(n, [Op(KwFor), Op(LParen), Word(Name, n.str), Op(KwIn), Word(Name, n.str2), Op(RParen)] + t)
  {
    hide Expr, Semis, Else, Simple;
  }

  function JumpKind(t: TokType): Kind {
    if t == KwBreak then Break else if t == KwContinue then Continue else if t == KwNext then Kind.Next else NextFile
  }

  lemma JumpTree(t: TokType)
    requires t in {KwBreak, KwContinue, KwNext, KwNextFile}
    ensures StmtTree(NewNode(JumpKind(t)), [Op(t)])
  {
  }

  /** exit or return, with a value or without. */
  function LeaveNode(t: TokType, value: Node): (n: Node)
    ensures n.Node?
  {
    var n := NewNode(if t == KwExit then Exit else Return);
    n.(a := value)
  }

  lemma LeaveTree(t: TokType, value: Node, u: seq<Sym>)
    requires t in {KwExit, KwReturn} && MaybeTree(value, u)
    ensures StmtTree(LeaveNode(t, value), [Op(t)] + u)
  {
    hide WellFormed, MaybeExpr, Simple, Else, Expr;
    var n := LeaveNode(t, value);
    assert MaybeExpr(n.a, u);
    NothingThere();
    GoodMade(n);
  }

  ghost predicate ActionTree(n: Node, s: seq<Sym>) {
    WellFormed(n) && Action(n, s)
  }

  lemma BlockTree(list: seq<Node>, u: seq<Sym>)
    requires StmtTrees(list, u)
    ensures ActionTree(WithList(Block, NoText, list), [Op(LBrace)] + u + [Op(RBrace)])
    ensures StmtTree(WithList(Block, NoText, list), [Op(LBrace)] + u + [Op(RBrace)])
  {
    hide WellFormed, Stmts, Simple, Else, Expr;
    var n := WithList(Block, NoText, list);
    assert Stmts(n.list, u);
    assert Stmt(n, [Op(LBrace)] + u + [Op(RBrace)]);
    NothingThere();
    GoodMade(n);
  }

  lemma EmptyStatement()
    ensures StmtTree(NewNode(Block), [])
  {
  }

  lemma StmtTreesNone(m: seq<Sym>)
    requires Semis(m)
    ensures StmtTrees([], m)
  {
    StmtsNone(m);
  }

  lemma StmtTreesMore(list: seq<Node>, t: seq<Sym>, n: Node, u: seq<Sym>, m: seq<Sym>)
    requires StmtTrees(list, t) && StmtTree(n, u) && Semis(m)
    ensures StmtTrees(list + [n], t + u + m)
  {
    hide WellFormed, Stmt, Stmts, Semis;
    StmtsMore(list, t, n, u, m);
  }

  // ---------- programs ----------

  ghost predicate PatternTree(kind: PatternKind, a: Node, b: Node, s: seq<Sym>) {
    WellFormed(a) && WellFormed(b) && Pattern(kind, a, b, s)
  }

  lemma PlainPattern()
    ensures PatternTree(PatBegin, Null, Null, [Op(KwBegin)])
    ensures PatternTree(PatEnd, Null, Null, [Op(KwEnd)])
    ensures PatternTree(PatAlways, Null, Null, [])
    ensures ActionTree(Null, [])
  {
  }

  lemma ExprPattern(a: Node, t: seq<Sym>)
    requires Tree(a, 13, false, t)
    ensures PatternTree(PatExpr, a, Null, t)
  {
    NothingThere();
    hide WellFormed, Expr;
  }

  lemma RangePattern(a: Node, t: seq<Sym>, b: Node, u: seq<Sym>)
    requires Tree(a, 13, false, t) && Tree(b, 13, false, u)
    ensures PatternTree(PatRange, a, b, t + [Op(Comma)] + u)
  {
    hide WellFormed, Expr;
  }

  ghost predicate ItemTree(n: Node, s: seq<Sym>) {
    Good(n) && Item(n, s)
  }

  ghost predicate ItemTrees(items: seq<Node>, s: seq<Sym>) {
    AllGood(items) && Program(items, s)
  }

  function RuleNode(pattern: PatternKind, a: Node, b: Node, block: Node): (n: Node)
    ensures n.Node? && n.kind == Rule
  {
    var n := NewNode(Rule);
    n.(pattern := pattern, a := a, b := b, c := block)
  }

  lemma RuleTree(pattern: PatternKind, a: Node, b: Node, t: seq<Sym>, block: Node, u: seq<Sym>)
    requires PatternTree(pattern, a, b, t) && ActionTree(block, u)
    ensures ItemTree(RuleNode(pattern, a, b, block), t + u)
  {
    RuleIsGood(pattern, a, b, t, block);
    RuleIs(pattern, a, b, block);
    hide WellFormed, Pattern, Action, Item, RuleNode;
    RuleReads(RuleNode(pattern, a, b, block), t, u);
  }

  lemma RuleIs(pattern: PatternKind, a: Node, b: Node, block: Node)
    ensures var n := RuleNode(pattern, a, b, block); n.pattern == pattern && n.a == a && n.b == b && n.c == block && n.list == []
  {
  }

  lemma RuleReads(n: Node, t: seq<Sym>, u: seq<Sym>)
    requires n.Node? && n.kind == Rule && Pattern(n.pattern, n.a, n.b, t) && Action(n.c, u)
    ensures Item(n, t + u)
  {
    hide Pattern, Action, Parameters;
  }

  lemma RuleIsGood(pattern: PatternKind, a: Node, b: Node, t: seq<Sym>, block: Node)
    requires PatternTree(pattern, a, b, t) && WellFormed(block)
    ensures Good(RuleNode(pattern, a, b, block))
  {
    PatternIsThere(pattern, a, b, t);
    RuleIs(pattern, a, b, block);
    hide WellFormed, Pattern, HasParts, RuleNode;
    RuleHasParts(RuleNode(pattern, a, b, block));
    GoodMade(RuleNode(pattern, a, b, block));
  }

  lemma RuleHasParts(n: Node)
    requires n.Node? && n.kind == Rule
    requires (n.pattern == PatExpr ==> n.a.Node?) && (n.pattern == PatRange ==> n.a.Node? && n.b.Node?)
    ensures HasParts(n)
  {
  }

  lemma PatternIsThere(pattern: PatternKind, a: Node, b: Node, t: seq<Sym>)
    requires Pattern(pattern, a, b, t)
    ensures (pattern == PatExpr ==> a.Node?) && (pattern == PatRange ==> a.Node? && b.Node?)
  {
  }

  function FuncNode(name: Text, params: seq<string>, body: Node): (n: Node)
    ensures n.Node? && n.kind == Func
  {
    var n := NewNode(Func);
    n.(str := name, params := params, a := body)
  }

  lemma FuncTree(t: TokType, name: Text, params: seq<string>, u: seq<Sym>, body: Node, v: seq<Sym>)
    requires t in {Name, FuncName} && name.Text? && Parameters(params, u) && ActionTree(body, v) && body.Node?
    ensures ItemTree(FuncNode(name, params, body), [Op(KwFunction)] + [Word(t, name)] + [Op(LParen)] + u + [Op(RParen)] + v)
  {
    hide WellFormed, Pattern, Action, Parameters;
    var n := FuncNode(name, params, body);
    var s := [Op(KwFunction)] + [Word(t, name)] + [Op(LParen)] + u + [Op(RParen)] + v;
    assert s == [Op(KwFunction), Word(t, n.str), Op(LParen)] + u + [Op(RParen)] + v;
    assert Parameters(n.params, u) && Action(n.a, v);
    NothingThere();
    GoodMade(n);
  }

  lemma ItemTreesNone(m: seq<Sym>)
    requires Semis(m)
    ensures ItemTrees([], m)
  {
    StmtsNone(m);
  }

  lemma ItemTreesMore(items: seq<Node>, t: seq<Sym>, n: Node, u: seq<Sym>, m: seq<Sym>)
    requires ItemTrees(items, t) && ItemTree(n, u) && Semis(m)
    ensures ItemTrees(items + [n], t + u + m)
  {
    hide WellFormed, Item, Program, Semis;
    ProgramMore(items, t, n, u, m);
  }
}
