/** What the grammar's trees stand for: how their tokens begin and end, where a `>`
    may stand in them, and all the trees that two short lists of tokens have. */
module AwkReadings {

  import opened AwkAst
  import opened AwkGrammar
  import opened AwkTokens

  // ---------- the shape of an expression's tokens ----------

  predicate CanStart(t: TokType) {
    t in {Number, StringLit, Ere, Name, FuncName, BuiltinFunc, Dollar, LParen, NotTok, Incr, Decr, Minus, Plus, KwGetline}
  }

  predicate CanEnd(t: TokType) {
    t in {Number, StringLit, Ere, Name, BuiltinFunc, RParen, RBracket, Incr, Decr, KwGetline}
  }

  predicate HasEnds(s: seq<Sym>) {
    s != [] && CanStart(s[0].typ) && CanEnd(s[|s| - 1].typ)
  }

  /** The tokens lead from inside `d` pairs of parentheses to inside `e`, and where
      `pr` holds no `>` stands outside all of them. */
  predicate Leads(pr: bool, s: seq<Sym>, d: nat, e: nat) {
    if s == [] then d == e
    else if s[0].typ == LParen then Leads(pr, s[1..], d + 1, e)
    else if s[0].typ == RParen then d > 0 && Leads(pr, s[1..], d - 1, e)
    else (pr && s[0].typ == Greater ==> d > 0) && Leads(pr, s[1..], d, e)
  }

  predicate Shape(pr: bool, s: seq<Sym>) {
    HasEnds(s) && Leads(pr, s, 0, 0)
  }

  lemma {:induction false} LeadsOn(pr: bool, s: seq<Sym>, t: seq<Sym>, d: nat, e: nat, f: nat)
    requires Leads(pr, s, d, e) && Leads(pr, t, e, f)
    ensures Leads(pr, s + t, d, f)
  {
    if s == [] {
      assert s + t == t;
    } else {
      assert (s + t)[1..] == s[1..] + t;
      var x := s[0].typ;
      LeadsOn(pr, s[1..], t, if x == LParen then d + 1 else if x == RParen then d - 1 else d, e, f);
    }
  }

  /** Inside one more pair of parentheses a `>` may stand anywhere. */
  lemma {:induction false} LeadsInside(pr: bool, qr: bool, s: seq<Sym>, d: nat, e: nat)
    requires Leads(pr, s, d, e)
    ensures Leads(qr, s, d + 1, e + 1)
  {
    if s != [] {
      var x := s[0].typ;
      LeadsInside(pr, qr, s[1..], if x == LParen then d + 1 else if x == RParen then d - 1 else d, e);
    }
  }

  /** Tokens that neither open nor close and are no `>`. */
  predicate Neutral(m: seq<Sym>) {
    forall k :: 0 <= k < |m| ==> m[k].typ !in {LParen, RParen, Greater}
  }

  lemma {:induction false} NeutralLeads(pr: bool, m: seq<Sym>, d: nat)
    requires Neutral(m)
    ensures Leads(pr, m, d, d)
  {
    if m != [] {
      NeutralLeads(pr, m[1..], d);
    }
  }

  lemma OneLeads(pr: bool, x: Sym)
    requires x.typ != LParen && x.typ != RParen && (pr ==> x.typ != Greater)
    ensures Leads(pr, [x], 0, 0)
  {
    assert [x][1..] == [];
  }

  lemma AtomShape(pr: bool, x: Sym)
    requires CanStart(x.typ) && CanEnd(x.typ)
    ensures Shape(pr, [x])
  {
    OneLeads(pr, x);
  }

  /** Two shapes with something between them. */
  lemma ShapeBetween(pr: bool, t: seq<Sym>, m: seq<Sym>, u: seq<Sym>)
    requires Shape(pr, t) && Leads(pr, m, 0, 0) && Shape(pr, u)
    ensures Shape(pr, t + m + u)
  {
    LeadsOn(pr, t, m, 0, 0, 0);
    LeadsOn(pr, t + m, u, 0, 0, 0);
    hide Leads;
    assert (t + m + u)[0] == t[0] && (t + m + u)[|t + m + u| - 1] == u[|u| - 1];
  }

  lemma ShapeAfter(pr: bool, m: seq<Sym>, u: seq<Sym>)
    requires m != [] && CanStart(m[0].typ) && Leads(pr, m, 0, 0) && Shape(pr, u)
    ensures Shape(pr, m + u)
  {
    LeadsOn(pr, m, u, 0, 0, 0);
    hide Leads;
    assert (m + u)[|m + u| - 1] == u[|u| - 1];
  }

  lemma ShapeBefore(pr: bool, t: seq<Sym>, m: seq<Sym>)
    requires Shape(pr, t) && m != [] && CanEnd(m[|m| - 1].typ) && Leads(pr, m, 0, 0)
    ensures Shape(pr, t + m)
  {
    LeadsOn(pr, t, m, 0, 0, 0);
    hide Leads;
    assert (t + m)[0] == t[0];
  }

  /** Anything balanced may stand in parentheses. */
  lemma ParensShape(pr: bool, qr: bool, u: seq<Sym>)
    requires Leads(qr, u, 0, 0)
    ensures Shape(pr, [Op(LParen)] + u + [Op(RParen)])
  {
    LeadsInside(qr, pr, u, 0, 0);
    assert Leads(pr, [Op(LParen)], 0, 1) by {
      assert [Op(LParen)][1..] == [];
    }
    assert Leads(pr, [Op(RParen)], 1, 0) by {
      assert [Op(RParen)][1..] == [];
    }
    LeadsOn(pr, [Op(LParen)], u, 0, 1, 1);
    LeadsOn(pr, [Op(LParen)] + u, [Op(RParen)], 0, 1, 0);
  }

  // ---------- every expression has it ----------

  lemma {:induction false} ExprShape(n: Node, max: nat, pr: bool, s: seq<Sym>)
    requires Expr(n, max, pr, s)
    ensures Shape(pr, s)
    decreases |s|, n, 4
  {
    hide Reads, Shape, Rank;
    ReadsShape(n, pr, s);
  }

  lemma {:induction false} ReadsShape(n: Node, pr: bool, s: seq<Sym>)
    requires n.Node? && Reads(n, pr, s)
    ensures Shape(pr, s)
    decreases |s|, n, 3
  {
    hide *;
    if n.kind == Call {
      CallShape(n, pr, s);
    } else if n.kind == Getline {
      GetlineReads(n, pr, s);
      GetlineShape(n, pr, s);
    } else if n.kind == Concat {
      ConcatShape(n, pr, s);
    } else if n.kind == In {
      InShape(n, pr, s);
    } else if n.kind == Ternary {
      TernaryShape(n, pr, s);
    } else if n.kind in {ArrayRef, Group} {
      BracketedShape(n, pr, s);
    } else if n.kind in {NumLit, StrLit, Regex, VarRef, Field, PreIncr, PreDecr, Unary, PostIncr, PostDecr} {
      PrimaryShape(n, pr, s);
    } else {
      OperatorShape(n, pr, s);
    }
  }

  lemma GetlineReads(n: Node, pr: bool, s: seq<Sym>)
    requires n.Node? && n.kind == Getline && Reads(n, pr, s)
    ensures ReadsGetline(n, pr, s)
  {
    hide ReadsGetline;
  }

  lemma {:induction false} PrimaryShape(n: Node, pr: bool, s: seq<Sym>)
    requires n.Node? && Reads(n, pr, s)
    requires n.kind in {NumLit, StrLit, Regex, VarRef, Field, PreIncr, PreDecr, Unary, PostIncr, PostDecr}
    ensures Shape(pr, s)
    decreases |s|, n, 2
  {
    hide Expr, List, Arguments, Keys, Target, NotKept, ReadsGetline, Shape, Leads;
    if n.kind in {NumLit, StrLit, Regex, VarRef} {
      AtomShape(pr, s[0]);
    } else if n.kind in {PostIncr, PostDecr} {
      PostShape(n, pr, s);
    } else {
      var u :| s == [Op(LeadOf(n))] + u && Expr(n.a, OperandMax(n), pr, u);
      PartShape(n.a, OperandMax(n), pr, u, s, n);
      OneLeads(pr, Op(LeadOf(n)));
      ShapeAfter(pr, [Op(LeadOf(n))], u);
    }
  }

  lemma {:induction false} PostShape(n: Node, pr: bool, s: seq<Sym>)
    requires n.Node? && n.kind in {PostIncr, PostDecr} && Reads(n, pr, s)
    ensures Shape(pr, s)
    decreases |s|, n, 1
  {
    hide Expr, List, Arguments, Keys, Target, NotKept, ReadsGetline, Shape, Leads;
    var x := Op(if n.kind == PostIncr then Incr else Decr);
    var u :| s == u + [x] && Expr(n.a, 0, pr, u);
    PartShape(n.a, 0, pr, u, s, n);
    OneLeads(pr, x);
    ShapeBefore(pr, u, [x]);
  }

  lemma {:induction false} BracketedShape(n: Node, pr: bool, s: seq<Sym>)
    requires n.Node? && n.kind in {ArrayRef, Group} && Reads(n, pr, s)
    ensures Shape(pr, s)
    decreases |s|, n, 2
  {
    hide Expr, List, Arguments, Keys, Target, NotKept, ReadsGetline, Shape, Leads;
    if n.kind == ArrayRef {
      var u :| s == [Word(Name, n.str), Op(LBracket)] + u + [Op(RBracket)] && List(n.list, 13, pr, u);
      ListShape(n.list, 13, pr, u);
      BracketShape(pr, n.str, u);
    } else {
      var u :| s == [Op(LParen)] + u + [Op(RParen)] && List(n.list, 13, false, u);
      ListShape(n.list, 13, false, u);
      ShapeLeads(false, u);
      ParensShape(pr, false, u);
    }
  }

  lemma {:induction false} ConcatShape(n: Node, pr: bool, s: seq<Sym>)
    requires n.Node? && n.kind == Concat && Reads(n, pr, s)
    ensures Shape(pr, s)
    decreases |s|, n, 2
  {
    hide Expr, List, Arguments, Keys, Target, NotKept, ReadsGetline, Shape, Leads;
    var t, u :| s == t + u && Expr(n.a, 5, pr, t) && Expr(n.b, 4, pr, u);
    assert s == t + [] + u;
    PartShape(n.a, 5, pr, t, s, n);
    PartShape(n.b, 4, pr, u, s, n);
    NothingLeads(pr);
    ShapeBetween(pr, t, [], u);
  }

  lemma {:induction false} InShape(n: Node, pr: bool, s: seq<Sym>)
    requires n.Node? && n.kind == In && Reads(n, pr, s)
    ensures Shape(pr, s)
    decreases |s|, n, 2
  {
    hide Expr, List, Arguments, Keys, Target, NotKept, ReadsGetline, Shape, Leads;
    var u :| s == u + [Op(KwIn), Word(Name, n.str)] && Keys(n.list, pr, u);
    KeysShape(n.list, pr, u);
    NeutralLeads(pr, [Op(KwIn), Word(Name, n.str)], 0);
    ShapeBefore(pr, u, [Op(KwIn), Word(Name, n.str)]);
  }

  lemma {:induction false} TernaryShape(n: Node, pr: bool, s: seq<Sym>)
    requires n.Node? && n.kind == Ternary && Reads(n, pr, s)
    ensures Shape(pr, s)
    decreases |s|, n, 2
  {
    hide Expr, List, Arguments, Keys, Target, NotKept, ReadsGetline, Shape, Leads;
    var t, u, v :| s == t + [Op(Question)] + u + [Op(Colon)] + v
                   && Expr(n.a, 11, pr, t) && Expr(n.b, 12, pr, u) && Expr(n.c, 12, pr, v);
    PartShape(n.a, 11, pr, t, s, n);
    PartShape(n.b, 12, pr, u, s, n);
    PartShape(n.c, 12, pr, v, s, n);
    OneLeads(pr, Op(Question));
    OneLeads(pr, Op(Colon));
    ShapeBetween(pr, t, [Op(Question)], u);
    ShapeBetween(pr, t + [Op(Question)] + u, [Op(Colon)], v);
  }

  lemma {:induction false} OperatorShape(n: Node, pr: bool, s: seq<Sym>)
    requires n.Node? && Reads(n, pr, s)
    requires n.kind !in {NumLit, StrLit, Regex, VarRef, ArrayRef, Field, PreIncr, PreDecr, Unary, PostIncr, PostDecr}
    requires n.kind !in {Group, Call, Getline, Concat, In, Ternary}
    ensures Shape(pr, s)
    decreases |s|, n, 2
  {
    hide Expr, HasOperator, OperatorOf, LeftMax, RightMax, Shape, Leads;
    var t, u :| s == t + [Op(OperatorOf(n))] + u && Expr(n.a, LeftMax(n), pr, t) && Expr(n.b, RightMax(n), pr, u);
    PartShape(n.a, LeftMax(n), pr, t, s, n);
    PartShape(n.b, RightMax(n), pr, u, s, n);
    OperatorLeads(n, pr);
    ShapeBetween(pr, t, [Op(OperatorOf(n))], u);
  }

  /** A part of a node, with no more tokens than it. */
  lemma PartShape(m: Node, max: nat, pr: bool, t: seq<Sym>, s: seq<Sym>, n: Node)
    requires Expr(m, max, pr, t) && n.Node? && (m == n.a || m == n.b || m == n.c) && |t| <= |s|
    ensures Shape(pr, t)
    decreases |s|, n, 0
  {
    hide Expr, Shape;
    ExprShape(m, max, pr, t);
  }

  lemma NothingLeads(pr: bool)
    ensures Leads(pr, [], 0, 0)
  {
  }

  lemma ShapeLeads(pr: bool, s: seq<Sym>)
    requires Shape(pr, s)
    ensures Leads(pr, s, 0, 0)
  {
    hide Leads;
  }

  lemma OperatorLeads(n: Node, pr: bool)
    requires n.Node? && HasOperator(n, pr)
    ensures Leads(pr, [Op(OperatorOf(n))], 0, 0)
  {
    OneLeads(pr, Op(OperatorOf(n)));
  }

  lemma BracketShape(pr: bool, name: Text, u: seq<Sym>)
    requires Shape(pr, u)
    ensures Shape(pr, [Word(Name, name), Op(LBracket)] + u + [Op(RBracket)])
  {
    hide Leads;
    NeutralLeads(pr, [Word(Name, name), Op(LBracket)], 0);
    OneLeads(pr, Op(RBracket));
    ShapeAfter(pr, [Word(Name, name), Op(LBracket)], u);
    ShapeBefore(pr, [Word(Name, name), Op(LBracket)] + u, [Op(RBracket)]);
  }

  lemma {:induction false} CallShape(n: Node, pr: bool, s: seq<Sym>)
    requires n.Node? && n.kind == Call && Reads(n, pr, s)
    ensures Shape(pr, s)
    decreases |s|, n, 2
  {
    hide Expr, List, Arguments, Keys, Target, NotKept, ReadsGetline, Shape, Leads;
    if n.isBuiltin && n.list == [] && s == [Word(BuiltinFunc, n.str)] {
      AtomShape(pr, s[0]);
    } else {
      var w := Word(if n.isBuiltin then BuiltinFunc else FuncName, n.str);
      var u :| s == [w, Op(LParen)] + u + [Op(RParen)] && Arguments(n.list, u);
      ArgumentsLead(n.list, u);
      CalledShape(pr, w, u);
      assert s == [w] + ([Op(LParen)] + u + [Op(RParen)]);
    }
  }

  lemma CalledShape(pr: bool, w: Sym, u: seq<Sym>)
    requires w.typ in {BuiltinFunc, FuncName} && Leads(false, u, 0, 0)
    ensures Shape(pr, [w] + ([Op(LParen)] + u + [Op(RParen)]))
  {
    hide Shape, Leads;
    ParensShape(pr, false, u);
    OneLeads(pr, w);
    ShapeAfter(pr, [w], [Op(LParen)] + u + [Op(RParen)]);
  }

  lemma {:induction false} ArgumentsLead(list: seq<Node>, u: seq<Sym>)
    requires Arguments(list, u)
    ensures Leads(false, u, 0, 0)
    decreases |u|, list, 3
  {
    hide List, Shape;
    NothingLeads(false);
    if List(list, 13, false, u) {
      ListShape(list, 13, false, u);
      ShapeLeads(false, u);
    }
  }

  lemma {:induction false} ListShape(list: seq<Node>, max: nat, pr: bool, s: seq<Sym>)
    requires List(list, max, pr, s)
    ensures Shape(pr, s)
    decreases |s|, list, 2
  {
    hide Expr, Shape, Leads;
    if |list| == 1 {
      ExprShape(list[0], max, pr, s);
    } else {
      var t, u :| s == t + [Op(Comma)] + u && List(list[..|list| - 1], max, pr, t) && Expr(list[|list| - 1], max, pr, u);
      ListShape(list[..|list| - 1], max, pr, t);
      ExprShape(list[|list| - 1], max, pr, u);
      OneLeads(pr, Op(Comma));
      ShapeBetween(pr, t, [Op(Comma)], u);
    }
  }

  lemma {:induction false} KeysShape(list: seq<Node>, pr: bool, s: seq<Sym>)
    requires Keys(list, pr, s)
    ensures Shape(pr, s)
    decreases |s|, list, 3
  {
    hide Expr, List, Shape, Leads;
    if |list| == 1 && Expr(list[0], 9, pr, s) {
      ExprShape(list[0], 9, pr, s);
    } else {
      var u :| s == [Op(LParen)] + u + [Op(RParen)] && List(list, 13, false, u);
      ListShape(list, 13, false, u);
      ShapeLeads(false, u);
      ParensShape(pr, false, u);
    }
  }

  lemma {:induction false} GetlineShape(n: Node, pr: bool, s: seq<Sym>)
    requires n.Node? && ReadsGetline(n, pr, s)
    ensures Shape(pr, s)
    decreases |s|, n, 0
  {
    hide Expr, Target, NotKept, Shape, Leads;
    var g := [Op(KwGetline)];
    AtomShape(pr, Op(KwGetline));
    if n.source == FromMain {
      var t :| s == g + t && Target(n.a, pr, t);
      WithTarget(n, pr, g, t, s);
    } else if n.source == FromFile {
      var t, u :| s == g + t + [Op(Less)] + u && Target(n.a, pr, t) && Expr(n.b, 12, pr, u);
      WithTarget(n, pr, g, t, s);
      ExprShape(n.b, 12, pr, u);
      OneLeads(pr, Op(Less));
      ShapeBetween(pr, g + t, [Op(Less)], u);
    } else {
      var c, t, u :| s == c + [Op(Pipe), Op(KwGetline)] + t + u
                     && Expr(n.b, 7, pr, c) && Target(n.a, pr, t) && NotKept(u);
      ExprShape(n.b, 7, pr, c);
      OneLeads(pr, Op(Pipe));
      ShapeBetween(pr, c, [Op(Pipe)], g);
      assert c + [Op(Pipe)] + g == c + [Op(Pipe), Op(KwGetline)];
      WithTarget(n, pr, c + [Op(Pipe), Op(KwGetline)], t, s);
      WithDropped(pr, c + [Op(Pipe), Op(KwGetline)] + t, u);
    }
  }

  lemma {:induction false} WithTarget(n: Node, pr: bool, g: seq<Sym>, t: seq<Sym>, s: seq<Sym>)
    requires n.Node? && Target(n.a, pr, t) && Shape(pr, g) && |g| + |t| <= |s|
    ensures Shape(pr, g + t)
    decreases |s|, n, -1
  {
    hide Expr, Shape, Leads;
    if t == [] {
      assert g + t == g;
    } else {
      ExprShape(n.a, 0, pr, t);
      NothingLeads(pr);
      ShapeBetween(pr, g, [], t);
      assert g + [] + t == g + t;
    }
  }

  lemma {:induction false} WithDropped(pr: bool, g: seq<Sym>, u: seq<Sym>)
    requires NotKept(u) && Shape(pr, g) && g != [] && !pr
    ensures Shape(pr, g + u)
    decreases |u|
  {
    hide Expr, Shape, Leads;
    if u == [] {
      assert g + u == g;
    } else {
      var file: Node, v :| u == [Op(Less)] + v && Expr(file, 12, false, v);
      ExprShape(file, 12, false, v);
      OneLeads(pr, Op(Less));
      ShapeBetween(pr, g, [Op(Less)], v);
      assert g + [Op(Less)] + v == g + u;
    }
  }

  // ---------- `>` in print ----------

  function Turn(x: Sym): int {
    if x.typ == LParen then 1 else if x.typ == RParen then -1 else 0
  }

  /** How many parentheses are open behind the tokens. */
  function Depth(s: seq<Sym>): int {
    if s == [] then 0 else Depth(s[..|s| - 1]) + Turn(s[|s| - 1])
  }

  lemma OneDeeper(front: seq<Sym>, x: Sym)
    ensures Depth(front + [x]) == Depth(front) + Turn(x)
  {
    assert (front + [x])[..|front|] == front;
  }

  lemma LeadsStep(pr: bool, s: seq<Sym>, d: nat, e: nat)
    requires Leads(pr, s, d, e) && s != []
    ensures d + Turn(s[0]) >= 0 && Leads(pr, s[1..], d + Turn(s[0]), e)
    ensures pr && s[0].typ == Greater ==> d > 0
  {
  }

  lemma {:induction false} DepthAlong(pr: bool, front: seq<Sym>, s: seq<Sym>, d: nat, e: nat, k: nat)
    requires Depth(front) == d && Leads(pr, s, d, e) && k < |s|
    ensures Depth(front + s[..k]) >= 0
    ensures pr && s[k].typ == Greater ==> Depth(front + s[..k]) > 0
    decreases |s|
  {
    hide *;
    LeadsStep(pr, s, d, e);
    if k == 0 {
      assert front + s[..k] == front;
    } else {
      OneDeeper(front, s[0]);
      assert front + s[..k] == front + [s[0]] + s[1..][..k - 1];
      DepthAlong(pr, front + [s[0]], s[1..], d + Turn(s[0]), e, k - 1);
    }
  }

  /** What is printed holds a `>` only inside parentheses; no expression closes a
      parenthesis it has not opened. */
  lemma GreaterIsSheltered(n: Node, max: nat, pr: bool, s: seq<Sym>, k: nat)
    requires Expr(n, max, pr, s) && k < |s|
    ensures Depth(s[..k]) >= 0
    ensures pr && s[k].typ == Greater ==> Depth(s[..k]) > 0
  {
    hide Expr, Leads, Depth;
    ExprShape(n, max, pr, s);
    assert Depth([]) == 0 by {
      NoDepth();
    }
    DepthAlong(pr, [], s, 0, 0, k);
    assert [] + s[..k] == s[..k];
  }

  lemma NoDepth()
    ensures Depth([]) == 0
  {
  }

  // ---------- all the trees of `- x ^ y` ----------

  function Num(x: string): Sym {
    Sym(Number, NoText, x)
  }

  predicate IsNumber(n: Node, x: string) {
    n.Node? && n.kind == NumLit && n.num == x
  }

  /** Numbers, minus signs and carets. */
  predicate Arithmetic(s: seq<Sym>) {
    forall k :: 0 <= k < |s| ==> s[k].typ in {Number, Minus, Caret}
  }

  lemma AllArithmetic(s: seq<Sym>, k: nat)
    requires Arithmetic(s) && k < |s|
    ensures s[k].typ in {Number, Minus, Caret}
  {
  }

  lemma OperandShapes(n: Node, pr: bool, s: seq<Sym>) returns (t: seq<Sym>, u: seq<Sym>)
    requires n.Node? && Reads(n, pr, s) && n.kind in {BinOp, Compare, Match, And, Or, Assignment}
    ensures s == t + [Op(OperatorOf(n))] + u && Expr(n.a, LeftMax(n), pr, t) && Expr(n.b, RightMax(n), pr, u)
    ensures HasOperator(n, pr) && HasEnds(t) && HasEnds(u)
  {
    hide Expr, HasEnds;
    t, u :| s == t + [Op(OperatorOf(n))] + u && Expr(n.a, LeftMax(n), pr, t) && Expr(n.b, RightMax(n), pr, u);
    ExprShape(n.a, LeftMax(n), pr, t);
    ExprShape(n.b, RightMax(n), pr, u);
    hide Leads;
  }

  lemma ConcatShapes(n: Node, pr: bool, s: seq<Sym>) returns (t: seq<Sym>, u: seq<Sym>)
    requires n.Node? && Reads(n, pr, s) && n.kind == Concat
    ensures s == t + u && Expr(n.a, 5, pr, t) && Expr(n.b, 4, pr, u) && HasEnds(t) && HasEnds(u)
  {
    hide Expr, HasEnds;
    t, u :| s == t + u && Expr(n.a, 5, pr, t) && Expr(n.b, 4, pr, u);
    ExprShape(n.a, 5, pr, t);
    ExprShape(n.b, 4, pr, u);
    hide Leads;
  }

  /** What an expression of such tokens can be. */
  lemma ArithmeticKinds(n: Node, pr: bool, s: seq<Sym>)
    requires n.Node? && Reads(n, pr, s) && Rank(n) <= 13 && Arithmetic(s)
    ensures n.kind in {NumLit, Unary, BinOp, Concat}
    ensures n.kind == NumLit ==> s == [Num(n.num)]
    ensures n.kind == Unary ==> n.op == Minus && s[0] == Op(Minus) && Expr(n.a, 0, pr, s[1..])
  {
    hide Expr, List, Arguments, Keys, Target, NotKept, HasEnds, Arithmetic, ReadsGetline;
    if n.kind in {StrLit, Regex, VarRef, ArrayRef, Field, PreIncr, PreDecr, Unary, Group, Call} {
      AllArithmetic(s, 0);
    } else if n.kind in {PostIncr, PostDecr, In} {
      AllArithmetic(s, |s| - 1);
    } else if n.kind in {Compare, Match, And, Or, Assignment} {
      var t, u := OperandShapes(n, pr, s);
      AllArithmetic(s, |t|);
    } else if n.kind == Ternary {
      var t, u, v :| s == t + [Op(Question)] + u + [Op(Colon)] + v
                     && Expr(n.a, 11, pr, t) && Expr(n.b, 12, pr, u) && Expr(n.c, 12, pr, v);
      AllArithmetic(s, |t|);
    } else if n.kind == Getline {
      NoGetline(n, pr, s);
    }
  }

  lemma NoGetline(n: Node, pr: bool, s: seq<Sym>)
    requires n.Node? && ReadsGetline(n, pr, s)
    ensures !Arithmetic(s)
  {
    hide Expr, Target, NotKept;
    if n.source == FromCommand {
      var c, t, u :| s == c + [Op(Pipe), Op(KwGetline)] + t + u
                     && Expr(n.b, 7, pr, c) && Target(n.a, pr, t) && NotKept(u);
      assert s[|c|] == Op(Pipe);
    } else {
      assert s[0] == Op(KwGetline);
    }
  }

  /** A single number has one tree. */
  lemma OneNumber(n: Node, max: nat, pr: bool, x: string)
    requires max <= 13
    ensures Expr(n, max, pr, [Num(x)]) <==> IsNumber(n, x)
  {
    hide Reads, Expr;
    var s := [Num(x)];
    if IsNumber(n, x) {
      NumberReads(n, max, pr, x);
    }
    if Expr(n, max, pr, s) {
      ExprReads(n, max, pr, s);
      ArithmeticKinds(n, pr, s);
      if n.kind == BinOp {
        var t, u := OperandShapes(n, pr, s);
      } else if n.kind == Concat {
        var t, u := ConcatShapes(n, pr, s);
      }
    }
  }

  lemma ExprReads(n: Node, max: nat, pr: bool, s: seq<Sym>)
    requires Expr(n, max, pr, s)
    ensures n.Node? && Rank(n) <= max <= 13 && Reads(n, pr, s)
  {
    hide Reads, Rank;
  }

  lemma NumberReads(n: Node, max: nat, pr: bool, x: string)
    requires IsNumber(n, x) && max <= 13
    ensures Expr(n, max, pr, [Num(x)])
  {
  }

  predicate IsNegated(n: Node, x: string) {
    n.Node? && n.kind == Unary && n.op == Minus && IsNumber(n.a, x)
  }

  /** A sign and a number have one tree. */
  lemma OneNegated(n: Node, max: nat, pr: bool, x: string)
    requires max <= 13
    ensures Expr(n, max, pr, [Op(Minus), Num(x)]) <==> IsNegated(n, x)
  {
    hide Reads, Expr;
    var s := [Op(Minus), Num(x)];
    assert s[1..] == [Num(x)];
    if IsNegated(n, x) {
      OneNumber(n.a, 0, pr, x);
      NegatedReads(n, max, pr, s);
    }
    if Expr(n, max, pr, s) {
      ExprReads(n, max, pr, s);
      ArithmeticKinds(n, pr, s);
      if n.kind == Unary {
        OneNumber(n.a, 0, pr, x);
      } else if n.kind == BinOp {
        var t, u := OperandShapes(n, pr, s);
      } else if n.kind == Concat {
        var t, u := ConcatShapes(n, pr, s);
      }
    }
  }

  lemma NegatedReads(n: Node, max: nat, pr: bool, s: seq<Sym>)
    requires n.Node? && n.kind == Unary && n.op == Minus && s != [] && s[0] == Op(Minus) && Expr(n.a, 0, pr, s[1..]) && max <= 13
    ensures Expr(n, max, pr, s)
  {
    hide Expr, List, Arguments, Keys, ReadsGetline;
    assert s == [Op(LeadOf(n))] + s[1..] && Expr(n.a, OperandMax(n), pr, s[1..]);
    NegatedIsExpr(n, max, pr, s);
  }

  lemma NegatedIsExpr(n: Node, max: nat, pr: bool, s: seq<Sym>)
    requires n.Node? && n.kind == Unary && Reads(n, pr, s) && max <= 13
    ensures Expr(n, max, pr, s)
  {
    hide Reads;
  }

  /** A power is no operand of a sign. */
  lemma NoPrimaryPower(n: Node, pr: bool, x: string, y: string)
    ensures !Expr(n, 0, pr, [Num(x), Op(Caret), Num(y)])
  {
    hide Reads, Expr;
    var s := [Num(x), Op(Caret), Num(y)];
    if Expr(n, 0, pr, s) {
      ExprReads(n, 0, pr, s);
      ArithmeticKinds(n, pr, s);
    }
  }

  predicate IsPower(n: Node, x: string, y: string) {
    n.Node? && n.kind == BinOp && n.op == Caret && IsNegated(n.a, x) && IsNumber(n.b, y)
  }

  /** `- x ^ y` has one tree: the power of the negated number, not the negated power. */
  lemma SignedPowerIff(n: Node, max: nat, pr: bool, x: string, y: string)
    requires 2 <= max <= 13
    ensures Expr(n, max, pr, [Op(Minus), Num(x), Op(Caret), Num(y)]) <==> IsPower(n, x, y)
  {
    hide *;
    if IsPower(n, x, y) {
      PowerReads(n, max, pr, x, y);
    }
    if Expr(n, max, pr, [Op(Minus), Num(x), Op(Caret), Num(y)]) {
      OnlyPowerReads(n, max, pr, x, y);
    }
  }

  lemma PowerReads(n: Node, max: nat, pr: bool, x: string, y: string)
    requires 2 <= max <= 13 && IsPower(n, x, y)
    ensures Expr(n, max, pr, [Op(Minus), Num(x), Op(Caret), Num(y)])
  {
    hide Reads, Expr, IsNegated, IsNumber;
    var s := [Op(Minus), Num(x), Op(Caret), Num(y)];
    OneNegated(n.a, 1, pr, x);
    OneNumber(n.b, 2, pr, y);
    BinaryReads(pr, n, [Op(Minus), Num(x)], [Num(y)]);
    assert [Op(Minus), Num(x)] + [Op(Caret)] + [Num(y)] == s;
    ExprRises(n, 2, max, pr, s);
  }

  lemma OnlyPowerReads(n: Node, max: nat, pr: bool, x: string, y: string)
    requires Expr(n, max, pr, [Op(Minus), Num(x), Op(Caret), Num(y)])
    ensures IsPower(n, x, y)
  {
    hide *;
    var s := [Op(Minus), Num(x), Op(Caret), Num(y)];
    assert Arithmetic(s) by {
      PowerIsArithmetic(x, y);
    }
    ExprReads(n, max, pr, s);
    ArithmeticKinds(n, pr, s);
    if n.kind == Unary {
      assert s[1..] == [Num(x), Op(Caret), Num(y)];
      NoPrimaryPower(n.a, pr, x, y);
    } else if n.kind == Concat {
      var t, u := ConcatShapes(n, pr, s);
      NoCutHere(x, y, t, u);
    } else if n.kind == BinOp {
      OnlyPowerOperands(n, pr, x, y);
    }
  }

  lemma PowerIsArithmetic(x: string, y: string)
    ensures Arithmetic([Op(Minus), Num(x), Op(Caret), Num(y)])
    ensures |[Op(Minus), Num(x), Op(Caret), Num(y)]| == 4
  {
  }

  lemma OnlyPowerOperands(n: Node, pr: bool, x: string, y: string)
    requires n.Node? && n.kind == BinOp && Reads(n, pr, [Op(Minus), Num(x), Op(Caret), Num(y)])
    ensures IsPower(n, x, y)
  {
    hide Reads, Expr, IsNegated, IsNumber, HasEnds, OperatorOf, LeftMax, RightMax, HasOperator;
    var s := [Op(Minus), Num(x), Op(Caret), Num(y)];
    var t, u := OperandShapes(n, pr, s);
    NotEmpty(t);
    NotEmpty(u);
    BinOpIs(n, pr);
    CutAtCaret(s, t, OperatorOf(n), u);
    OneNegated(n.a, 1, pr, x);
    OneNumber(n.b, 2, pr, y);
  }

  lemma NotEmpty(s: seq<Sym>)
    requires HasEnds(s)
    ensures s != []
  {
  }

  lemma BinOpIs(n: Node, pr: bool)
    requires n.Node? && n.kind == BinOp && HasOperator(n, pr)
    ensures OperatorOf(n) == n.op != Number && (n.op == Caret ==> LeftMax(n) == 1 && RightMax(n) == 2)
  {
  }

  lemma EndsMeet(t: seq<Sym>, u: seq<Sym>)
    requires HasEnds(t) && HasEnds(u)
    ensures |t| > 0 && |u| > 0 && CanEnd((t + u)[|t| - 1].typ) && CanStart((t + u)[|t|].typ)
  {
  }

  lemma NoCutHere(x: string, y: string, t: seq<Sym>, u: seq<Sym>)
    requires HasEnds(t) && HasEnds(u)
    ensures [Op(Minus), Num(x), Op(Caret), Num(y)] != t + u
  {
    hide HasEnds;
    EndsMeet(t, u);
  }

  lemma CutAtCaret(s: seq<Sym>, t: seq<Sym>, op: TokType, u: seq<Sym>)
    requires |s| == 4 && s[0].typ == Minus && s[1].typ == Number && s[2].typ == Caret && s[3].typ == Number
    requires s == t + [Op(op)] + u && t != [] && u != [] && op != Number
    ensures op == Caret && t == [s[0], s[1]] && u == [s[3]]
  {
    assert s[|t|] == Op(op);
    assert |t| == 2;
    assert t == s[..2] && u == s[3..];
  }

  lemma ExprRises(n: Node, max: nat, more: nat, pr: bool, s: seq<Sym>)
    requires Expr(n, max, pr, s) && max <= more <= 13
    ensures Expr(n, more, pr, s)
  {
    hide Reads, Rank;
  }

  // ---------- all the trees of `print x > y` ----------

  /** `print x > y` writes x to the file y; it does not print a comparison. */
  lemma PrintedGreaterIff(n: Node, x: string, y: string)
    ensures Simple(n, [Op(KwPrint), Num(x), Op(Greater), Num(y)]) <==> IsWriting(n, x, y)
  {
    hide *;
    if Simple(n, [Op(KwPrint), Num(x), Op(Greater), Num(y)]) {
      PrintedIsRedirected(n, x, y);
    }
    if IsWriting(n, x, y) {
      WritingReads(n, x, y);
    }
  }

  predicate IsWriting(n: Node, x: string, y: string) {
    n.Node? && n.kind == Print && n.redirect == ToFile && |n.list| == 1 && IsNumber(n.list[0], x) && IsNumber(n.a, y)
  }

  lemma WritingReads(n: Node, x: string, y: string)
    requires IsWriting(n, x, y)
    ensures Simple(n, [Op(KwPrint), Num(x), Op(Greater), Num(y)])
  {
    hide Expr, Reads, IsNumber;
    OneNumber(n.list[0], 12, true, x);
    OneNumber(n.a, 12, false, y);
    ListOne(true, n.list[0], 12, [Num(x)]);
    assert n.list == [n.list[0]];
    hide List;
    assert PrintItems(n.list, [Num(x)]) && Redirected(ToFile, n.a, [Op(Greater)] + [Num(y)]);
    assert [Op(KwPrint), Num(x), Op(Greater), Num(y)] == [Op(KwPrint)] + [Num(x)] + ([Op(Greater)] + [Num(y)]);
  }

  lemma PrintedIsRedirected(n: Node, x: string, y: string)
    requires Simple(n, [Op(KwPrint), Num(x), Op(Greater), Num(y)])
    ensures IsWriting(n, x, y)
  {
    hide *;
    var t, u := PrintParts(n, [Op(KwPrint), Num(x), Op(Greater), Num(y)]);
    assert t + u == [Num(x), Op(Greater), Num(y)] by {
      Behind(KwPrint, t, u, [Num(x), Op(Greater), Num(y)]);
    }
    RedirectStarts(n.redirect, n.a, u);
    ItemsBeforeGreater(n.list, t, u, x, y);
    assert u == [Op(Greater), Num(y)] by {
      AfterOne(Num(x), u, [Op(Greater), Num(y)]);
    }
    IsRedirected(n.redirect, n.a, y);
    OneItem(n.list, x);
    WritingParts(n, x, y);
  }

  lemma WritingParts(n: Node, x: string, y: string)
    requires n.Node? && n.kind == Print && n.redirect == ToFile && |n.list| == 1 && IsNumber(n.list[0], x) && IsNumber(n.a, y)
    ensures IsWriting(n, x, y)
  {
  }

  lemma PrintParts(n: Node, s: seq<Sym>) returns (t: seq<Sym>, u: seq<Sym>)
    requires Simple(n, s) && s != [] && s[0] == Op(KwPrint)
    ensures n.Node? && n.kind == Print && s == [Op(KwPrint)] + t + u && PrintItems(n.list, t) && Redirected(n.redirect, n.a, u)
  {
    NoOtherSimple(n, s);
    hide PrintItems, Redirected;
    t, u :| s == [Op(KwPrint)] + t + u && PrintItems(n.list, t) && Redirected(n.redirect, n.a, u);
  }

  lemma Behind(k: TokType, t: seq<Sym>, u: seq<Sym>, rest: seq<Sym>)
    requires [Op(k)] + t + u == [Op(k)] + rest
    ensures t + u == rest
  {
    assert ([Op(k)] + t + u)[1..] == t + u;
    assert ([Op(k)] + rest)[1..] == rest;
  }

  lemma AfterOne(x: Sym, u: seq<Sym>, rest: seq<Sym>)
    requires [x] + u == [x] + rest
    ensures u == rest
  {
    assert ([x] + u)[1..] == u;
    assert ([x] + rest)[1..] == rest;
  }

  lemma RedirectStarts(r: Redirect, target: Node, u: seq<Sym>)
    requires Redirected(r, target, u)
    ensures u != [] ==> u[0].typ != Number
  {
    hide Expr;
  }

  lemma IsRedirected(r: Redirect, target: Node, y: string)
    requires Redirected(r, target, [Op(Greater), Num(y)])
    ensures r == ToFile && IsNumber(target, y)
  {
    hide Expr, IsNumber;
    var s := [Op(Greater), Num(y)];
    var v :| s == [Op(RedirectSym(r))] + v && Expr(target, 12, false, v);
    assert s[0] == Op(RedirectSym(r)) && v == s[1..] == [Num(y)];
    OneNumber(target, 12, false, y);
  }

  lemma OneItem(list: seq<Node>, x: string)
    requires List(list, 12, true, [Num(x)])
    ensures |list| == 1 && IsNumber(list[0], x)
  {
    hide Expr, Reads, IsNumber;
    if |list| == 1 {
      OneNumber(list[0], 12, true, x);
    }
  }

  /** The items end before a `>` that stands in no parentheses. */
  lemma ItemsBeforeGreater(list: seq<Node>, t: seq<Sym>, u: seq<Sym>, x: string, y: string)
    requires PrintItems(list, t) && t + u == [Num(x), Op(Greater), Num(y)]
    requires u != [] ==> u[0].typ != Number
    ensures t == [Num(x)] && List(list, 12, true, t)
  {
    hide Expr, List;
    var s := t + u;
    assert t == [] ==> u == s;
    if t != [] {
      assert t[0] == s[0];
      ListShape(list, 12, true, t);
      if |t| > 1 {
        assert t[1] == s[1];
        hide HasEnds;
        assert !Leads(true, t, 0, 0) by {
          assert t[1..][0] == t[1];
        }
      }
    }
  }

  lemma NoOtherSimple(n: Node, s: seq<Sym>)
    requires Simple(n, s) && s != [] && s[0] == Op(KwPrint)
    ensures n.Node? && n.kind == Print
  {
    hide Expr, List, PrintItems, Redirected, Shape;
    NoPrintShape(s);
    if n.kind == ExprStmt {
      ExprShape(n.a, 13, false, s);
    }
  }

  lemma NoPrintShape(s: seq<Sym>)
    requires s != [] && s[0] == Op(KwPrint)
    ensures !Shape(false, s)
  {
    hide Leads;
  }
}
