/** Every expression can be written: parentheses where an operand needs them make a
    tree that the parser gives back, and change nothing else. */
module AwkDressing {

  import opened AwkAst
  import opened AwkGrammar
  import opened AwkPrinter
  import opened AwkTokens
  import opened AwkTrees

  /** Just the parts that a node of its kind has; what stands in them is free. */
  predicate HasShape(n: Node)
    requires n.Node?
  {
    match n.kind
    case NumLit => n == var m := NewNode(NumLit); m.(num := n.num)
    case StrLit | Regex | VarRef => n.str.Text? && n == Leaf(n.kind, n.str)
    case ArrayRef | In => n.str.Text? && n == WithList(n.kind, n.str, n.list) && n.list != []
    case Group => n == WithList(Group, NoText, n.list) && n.list != []
    case Call => n.str.Text? && n == CallNode(n.str, n.isBuiltin, n.list)
    case Field | PreIncr | PreDecr => n == OneChild(n.kind, EndOfFile, n.a) && n.a.Node?
    case Unary => n == OneChild(Unary, n.op, n.a) && n.op in {NotTok, Minus, Plus} && n.a.Node?
    case PostIncr | PostDecr => n == OneChild(n.kind, EndOfFile, n.a) && IsLvalue(n.a)
    case Getline =>
      n == GetlineNode(n.a, n.source, n.b) && (n.a.Null? || IsLvalue(n.a)) && (n.source == FromMain <==> n.b.Null?)
    case Concat | And | Or => n == Binary(n.kind, EndOfFile, n.a, n.b) && n.a.Node? && n.b.Node?
    case Match => n == MatchNode(n.negated, n.a, n.b) && n.a.Node? && n.b.Node?
    case Ternary => n == ThreeParts(Ternary, n.a, n.b, n.c) && n.a.Node? && n.b.Node? && n.c.Node?
    case BinOp | Compare | Assignment =>
      n == Binary(n.kind, n.op, n.a, n.b) && HasOperator(n, false) && n.a.Node? && n.b.Node?
    case _ => false
  }

  /** An expression tree, with any expressions as operands. */
  predicate IsExpression(n: Node)
    decreases n
  {
    && n.Node? && HasShape(n)
    && (n.a.Node? ==> IsExpression(n.a)) && (n.b.Node? ==> IsExpression(n.b)) && (n.c.Node? ==> IsExpression(n.c))
    && forall k :: 0 <= k < |n.list| ==> IsExpression(n.list[k])
  }

  /** The operand, in parentheses if it does not fit. */
  function Put(n: Node, level: nat): Node {
    if n.Null? || Fits(false, n, level) then n else WithList(Group, NoText, [n])
  }

  /** The right operand of a concatenation, which also must not begin with a sign or an increment. */
  function PutRight(n: Node): Node {
    if Fits(false, n, 4) && PlainStart(First(n)) then n else WithList(Group, NoText, [n])
  }

  /** The tree with all the parentheses it needs. */
  function Dress(n: Node): Node
    decreases n
  {
    if n.Null? then n
    else
      var list := seq(|n.list|, k requires 0 <= k < |n.list| => Dress(n.list[k]));
      match n.kind
      case ArrayRef | In | Group => WithList(n.kind, n.str, list)
      case Call => CallNode(n.str, n.isBuiltin, list)
      case Field | PreIncr | PreDecr => OneChild(n.kind, EndOfFile, Put(Dress(n.a), 0))
      case Unary => OneChild(Unary, n.op, Put(Dress(n.a), OperandMax(n)))
      case PostIncr | PostDecr => OneChild(n.kind, EndOfFile, Dress(n.a))
      case Getline => GetlineNode(Dress(n.a), n.source, Put(Dress(n.b), if n.source == FromFile then 12 else 7))
      case Concat => Binary(Concat, EndOfFile, Put(Dress(n.a), 5), PutRight(Dress(n.b)))
      case Match => MatchNode(n.negated, Put(Dress(n.a), 8), Put(Dress(n.b), 7))
      case And | Or => Binary(n.kind, EndOfFile, Put(Dress(n.a), LeftMax(n)), Put(Dress(n.b), RightMax(n)))
      case Ternary => ThreeParts(Ternary, Put(Dress(n.a), 11), Put(Dress(n.b), 12), Put(Dress(n.c), 12))
      case BinOp | Compare | Assignment => Binary(n.kind, n.op, Put(Dress(n.a), LeftMax(n)), Put(Dress(n.b), RightMax(n)))
      case _ => n
  }

  /** The tree without parentheses around single expressions. */
  function Bare(n: Node): Node
    decreases n
  {
    if n.Null? then n
    else if n.kind == Group && |n.list| == 1 then Bare(n.list[0])
    else
      n.(a := Bare(n.a), b := Bare(n.b), c := Bare(n.c),
         list := seq(|n.list|, k requires 0 <= k < |n.list| => Bare(n.list[k])))
  }

  lemma GroupOfOne(n: Node)
    requires n.Node? && Canon(false, n)
    ensures var g := WithList(Group, NoText, [n]);
            Canon(false, g) && Rank(g) == 0 && !Open(g) && First(g) == LParen && Bare(g) == Bare(n)
  {
    RankBound(n);
    OneFits(n);
    GroupBare(n);
    hide AllFit, Bare;
  }

  lemma GroupBare(n: Node)
    ensures Bare(WithList(Group, NoText, [n])) == Bare(n)
  {
  }

  lemma RankBound(n: Node)
    requires n.Node? && Canon(false, n)
    ensures Rank(n) <= 13
  {
    hide Fits, AllFit;
  }

  lemma OneFits(n: Node)
    requires n.Node? && Canon(false, n) && Rank(n) <= 13
    ensures AllFit(false, [n])
  {
  }

  lemma PutFits(n: Node, level: nat)
    requires n.Node? && Canon(false, n)
    ensures Fits(false, Put(n, level), level) && Bare(Put(n, level)) == Bare(n)
    ensures IsLvalue(n) ==> Put(n, level) == n
  {
    GroupOfOne(n);
    hide Canon, Rank, Bare;
    if IsLvalue(n) {
      LvalueRank(n);
    }
  }

  lemma LvalueRank(n: Node)
    requires IsLvalue(n)
    ensures Rank(n) == 0 && !Open(n)
  {
  }

  lemma PutRightFits(n: Node)
    requires n.Node? && Canon(false, n)
    ensures var r := PutRight(n); Fits(false, r, 4) && PlainStart(First(r)) && Bare(r) == Bare(n)
  {
    GroupOfOne(n);
    hide Canon, Rank, Bare, First;
  }

  /** What dressing is to make of a node. */
  predicate Dressed(n: Node) {
    var d := Dress(n);
    if n.Null? then d.Null? else d.Node? && d.kind == n.kind && Canon(false, d) && Bare(d) == Bare(n)
  }

  /** The items of a list, dressed one by one. */
  function DressAll(list: seq<Node>): (r: seq<Node>)
    ensures |r| == |list| && forall k :: 0 <= k < |list| ==> r[k] == Dress(list[k])
  {
    seq(|list|, k requires 0 <= k < |list| => Dress(list[k]))
  }

  lemma ListIs(n: Node)
    requires n.Node? && HasShape(n) && n.kind in {ArrayRef, In, Group, Call}
    ensures n.a.Null? && n.b.Null? && n.c.Null? && Dress(n) == n.(list := DressAll(n.list))
  {
    assert DressAll(n.list) == seq(|n.list|, k requires 0 <= k < |n.list| => Dress(n.list[k]));
  }

  lemma ListCanon(n: Node, list: seq<Node>)
    requires n.Node? && HasShape(n) && n.kind in {ArrayRef, In, Group, Call} && AllFit(false, list) && |list| == |n.list|
    ensures Canon(false, n.(list := list))
  {
    hide AllFit;
  }

  lemma ListBare(n: Node, list: seq<Node>)
    requires n.Node? && n.a.Null? && n.b.Null? && n.c.Null? && |list| == |n.list|
    requires forall k :: 0 <= k < |list| ==> Bare(list[k]) == Bare(n.list[k])
    ensures Bare(n.(list := list)) == Bare(n)
  {
    assert seq(|list|, k requires 0 <= k < |list| => Bare(list[k]))
        == seq(|n.list|, k requires 0 <= k < |n.list| => Bare(n.list[k]));
  }

  lemma DressedList(n: Node)
    requires n.Node? && HasShape(n) && n.kind in {ArrayRef, In, Group, Call}
    requires forall k :: 0 <= k < |n.list| ==> n.list[k].Node? && Dressed(n.list[k])
    ensures Dressed(n)
  {
    var list := DressAll(n.list);
    ListIs(n);
    forall k | 0 <= k < |list|
      ensures Fits(false, list[k], 13) && Bare(list[k]) == Bare(n.list[k])
    {
      assert Dressed(n.list[k]);
      RankBound(list[k]);
      hide Canon, Rank, Bare;
    }
    assert AllFit(false, list);
    hide Fits, AllFit, HasShape, Dress, Canon, Bare;
    ListCanon(n, list);
    ListBare(n, list);
  }

  /** A node made again from other children. */
  function Remade(n: Node, a: Node, b: Node, c: Node): Node
    requires n.Node?
  {
    n.(a := a, b := b, c := c)
  }

  lemma RemadeBare(n: Node, a: Node, b: Node, c: Node)
    requires n.Node? && n.kind != Group && Bare(a) == Bare(n.a) && Bare(b) == Bare(n.b) && Bare(c) == Bare(n.c)
    ensures Bare(Remade(n, a, b, c)) == Bare(n)
  {
  }

  lemma MadeDressed(n: Node, a: Node, b: Node, c: Node)
    requires n.Node? && n.kind != Group && Bare(a) == Bare(n.a) && Bare(b) == Bare(n.b) && Bare(c) == Bare(n.c)
    requires Dress(n) == Remade(n, a, b, c) && Canon(false, Remade(n, a, b, c))
    ensures Dressed(n)
  {
    RemadeBare(n, a, b, c);
    hide Canon, Bare, Dress;
  }

  lemma DressedParts(n: Node)
    requires n.Node? && Dressed(n)
    ensures Dress(n).Node? && Dress(n).kind == n.kind && Canon(false, Dress(n)) && Bare(Dress(n)) == Bare(n)
    ensures IsLvalue(n) ==> IsLvalue(Dress(n)) && Fits(false, Dress(n), 0)
  {
    hide Canon, Bare, Dress;
    if IsLvalue(n) {
      LvalueRank(Dress(n));
    }
  }

  function LeftPlace(n: Node): nat
    requires n.Node?
  {
    if n.kind == Match then 8 else if n.kind == Concat then 5 else LeftMax(n)
  }

  function RightPlace(n: Node): nat
    requires n.Node?
  {
    if n.kind == Match then 7 else if n.kind == Concat then 4 else RightMax(n)
  }

  // one operand

  lemma OneIs(n: Node)
    requires n.Node? && HasShape(n) && n.kind in {Field, PreIncr, PreDecr, Unary, PostIncr, PostDecr}
    ensures n.b.Null? && n.c.Null? && n.a.Node? && (n.kind in {PostIncr, PostDecr} ==> IsLvalue(n.a))
    ensures var level := if n.kind == Unary then OperandMax(n) else 0;
            Dress(n) == Remade(n, if n.kind in {PostIncr, PostDecr} then Dress(n.a) else Put(Dress(n.a), level), Null, Null)
  {
    hide Put, OperandMax;
  }

  lemma OneCanon(n: Node, a: Node)
    requires n.Node? && HasShape(n) && n.kind in {Field, PreIncr, PreDecr, Unary, PostIncr, PostDecr}
    requires Fits(false, a, if n.kind == Unary then OperandMax(n) else 0) && (n.kind in {PostIncr, PostDecr} ==> IsLvalue(a))
    ensures Canon(false, Remade(n, a, Null, Null))
  {
    hide Fits;
  }

  lemma DressedOne(n: Node)
    requires n.Node? && HasShape(n) && n.kind in {Field, PreIncr, PreDecr, Unary, PostIncr, PostDecr} && Dressed(n.a)
    ensures Dressed(n)
  {
    OneIs(n);
    hide *;
    DressedParts(n.a);
    var level := if n.kind == Unary then OperandMax(n) else 0;
    PutFits(Dress(n.a), level);
    var a := if n.kind in {PostIncr, PostDecr} then Dress(n.a) else Put(Dress(n.a), level);
    OneCanon(n, a);
    MadeDressed(n, a, Null, Null);
  }

  // two operands

  lemma TwoParts(n: Node)
    requires n.Node? && HasShape(n) && n.kind in {Concat, And, Or, BinOp, Compare, Assignment, Match}
    ensures n.c.Null? && n.list == [] && n.a.Node? && n.b.Node? && (n.kind == Assignment ==> IsLvalue(n.a))
    ensures n == if n.kind == Match then MatchNode(n.negated, n.a, n.b) else Binary(n.kind, n.op, n.a, n.b)
  {
  }

  lemma TwoIs(n: Node)
    requires n.Node? && HasShape(n) && n.kind in {Concat, And, Or, BinOp, Compare, Assignment, Match}
    ensures n.c.Null? && n.a.Node? && n.b.Node? && (n.kind == Assignment ==> IsLvalue(n.a))
    ensures Dress(n) == Remade(n, Put(Dress(n.a), LeftPlace(n)),
                               if n.kind == Concat then PutRight(Dress(n.b)) else Put(Dress(n.b), RightPlace(n)), Null)
  {
    TwoParts(n);
    if n.kind in {Concat, And, Or} {
      ConcatOp(n);
      PlainTwo(n);
    } else {
      OperatorTwo(n);
    }
    hide *;
  }

  lemma PlainTwo(n: Node)
    requires n.Node? && n.kind in {Concat, And, Or} && n == Binary(n.kind, EndOfFile, n.a, n.b)
    ensures Dress(n) == Remade(n, Put(Dress(n.a), LeftPlace(n)),
                               if n.kind == Concat then PutRight(Dress(n.b)) else Put(Dress(n.b), RightPlace(n)), Null)
  {
    hide Put, PutRight, LeftMax, RightMax;
  }

  lemma OperatorTwo(n: Node)
    requires n.Node? && n.kind in {BinOp, Compare, Assignment, Match}
    requires n == if n.kind == Match then MatchNode(n.negated, n.a, n.b) else Binary(n.kind, n.op, n.a, n.b)
    ensures Dress(n) == Remade(n, Put(Dress(n.a), LeftPlace(n)), Put(Dress(n.b), RightPlace(n)), Null)
  {
    hide Put, PutRight, LeftMax, RightMax;
  }

  lemma ConcatOp(n: Node)
    requires n.Node? && HasShape(n) && n.kind in {Concat, And, Or}
    ensures n.op == EndOfFile
  {
  }

  lemma TwoCanon(n: Node, a: Node, b: Node)
    requires n.Node? && HasShape(n) && n.kind in {Concat, And, Or, BinOp, Compare, Assignment, Match}
    requires Fits(false, a, LeftPlace(n)) && Fits(false, b, RightPlace(n)) && (n.kind == Concat ==> PlainStart(First(b)))
    requires n.kind == Assignment ==> IsLvalue(a)
    ensures Canon(false, Remade(n, a, b, Null))
  {
    hide Fits, First;
  }

  lemma DressedTwo(n: Node)
    requires n.Node? && HasShape(n) && n.kind in {Concat, And, Or, BinOp, Compare, Assignment, Match}
    requires Dressed(n.a) && Dressed(n.b)
    ensures Dressed(n)
  {
    TwoIs(n);
    RightOfConcat(n);
    hide *;
    DressedParts(n.a);
    DressedParts(n.b);
    PutFits(Dress(n.a), LeftPlace(n));
    PutFits(Dress(n.b), RightPlace(n));
    PutRightFits(Dress(n.b));
    var a := Put(Dress(n.a), LeftPlace(n));
    var b := if n.kind == Concat then PutRight(Dress(n.b)) else Put(Dress(n.b), RightPlace(n));
    TwoCanon(n, a, b);
    MadeDressed(n, a, b, Null);
  }

  lemma RightOfConcat(n: Node)
    requires n.Node?
    ensures n.kind == Concat ==> RightPlace(n) == 4
  {
  }

  // three operands

  lemma DressedTernary(n: Node)
    requires n.Node? && HasShape(n) && n.kind == Ternary && Dressed(n.a) && Dressed(n.b) && Dressed(n.c)
    ensures Dressed(n)
  {
    TernaryIs(n);
    hide *;
    DressedParts(n.a);
    DressedParts(n.b);
    DressedParts(n.c);
    PutFits(Dress(n.a), 11);
    PutFits(Dress(n.b), 12);
    PutFits(Dress(n.c), 12);
    var a, b, c := Put(Dress(n.a), 11), Put(Dress(n.b), 12), Put(Dress(n.c), 12);
    TernaryCanon(n, a, b, c);
    MadeDressed(n, a, b, c);
  }

  lemma TernaryIs(n: Node)
    requires n.Node? && HasShape(n) && n.kind == Ternary
    ensures n.a.Node? && n.b.Node? && n.c.Node?
    ensures Dress(n) == Remade(n, Put(Dress(n.a), 11), Put(Dress(n.b), 12), Put(Dress(n.c), 12))
  {
    hide Put;
  }

  lemma TernaryCanon(n: Node, a: Node, b: Node, c: Node)
    requires n.Node? && HasShape(n) && n.kind == Ternary && Fits(false, a, 11) && Fits(false, b, 12) && Fits(false, c, 12)
    ensures Canon(false, Remade(n, a, b, c))
  {
    hide Fits;
  }

  // getline

  lemma GetlineIs(n: Node)
    requires n.Node? && HasShape(n) && n.kind == Getline
    ensures n.c.Null? && (n.a.Null? || IsLvalue(n.a)) && (n.b.Null? <==> n.source == FromMain)
    ensures var level := if n.source == FromFile then 12 else 7;
            Dress(n) == Remade(n, Dress(n.a), if n.b.Null? then Null else Put(Dress(n.b), level), Null)
  {
    hide Fits;
  }

  lemma GetlineCanon(n: Node, a: Node, b: Node)
    requires n.Node? && HasShape(n) && n.kind == Getline && TargetFits(false, a)
    requires if n.source == FromMain then b.Null? else Fits(false, b, if n.source == FromFile then 12 else 7)
    ensures Canon(false, Remade(n, a, b, Null))
  {
    hide Fits;
  }

  lemma DressedGetline(n: Node)
    requires n.Node? && HasShape(n) && n.kind == Getline && Dressed(n.a) && Dressed(n.b)
    ensures Dressed(n)
  {
    GetlineIs(n);
    NullDress();
    var level := if n.source == FromFile then 12 else 7;
    if n.b.Node? {
      DressedParts(n.b);
      PutFits(Dress(n.b), level);
    }
    if n.a.Node? {
      DressedParts(n.a);
    }
    hide Canon, Bare, Dress, Put, Fits, HasShape, Dressed;
    var a, b := Dress(n.a), if n.b.Null? then Null else Put(Dress(n.b), level);
    GetlineCanon(n, a, b);
    MadeDressed(n, a, b, Null);
  }

  lemma NullDress()
    ensures Dress(Null) == Null
  {
  }

  /** With its parentheses every expression is a tree that can be written and read back,
      and it is the same expression but for them. */
  lemma {:induction false} DressedFits(n: Node)
    requires IsExpression(n)
    ensures Fits(false, Dress(n), 13) && Bare(Dress(n)) == Bare(n) && Dressed(n)
    decreases n
  {
    ExpressionParts(n);
    hide *;
    if n.a.Node? {
      DressedFits(n.a);
    }
    if n.b.Node? {
      DressedFits(n.b);
    }
    if n.c.Node? {
      DressedFits(n.c);
    }
    forall k | 0 <= k < |n.list|
      ensures n.list[k].Node? && Dressed(n.list[k])
    {
      DressedFits(n.list[k]);
    }
    DressedNull();
    DressedKind(n);
    DressedIs(n);
  }

  lemma DressedNull()
    ensures Dressed(Null)
  {
  }

  lemma DressedIs(n: Node)
    requires n.Node? && Dressed(n)
    ensures Fits(false, Dress(n), 13) && Bare(Dress(n)) == Bare(n)
  {
    RankBound(Dress(n));
    hide Canon, Rank, Bare;
  }

  lemma ExpressionParts(n: Node)
    requires IsExpression(n)
    ensures n.Node? && HasShape(n)
    ensures (n.a.Node? ==> IsExpression(n.a)) && (n.b.Node? ==> IsExpression(n.b)) && (n.c.Node? ==> IsExpression(n.c))
    ensures forall k :: 0 <= k < |n.list| ==> n.list[k].Node? && IsExpression(n.list[k])
  {
    hide HasShape;
  }

  lemma OperandsThere(n: Node)
    requires n.Node? && HasShape(n)
    ensures n.kind in {Field, PreIncr, PreDecr, Unary, PostIncr, PostDecr} ==> n.a.Node?
    ensures n.kind in {Concat, And, Or, BinOp, Compare, Assignment, Match} ==> n.a.Node? && n.b.Node?
    ensures n.kind == Ternary ==> n.a.Node? && n.b.Node? && n.c.Node?
  {
    hide HasOperator;
  }

  /** One step of the induction, by the kind of node. */
  lemma DressedKind(n: Node)
    requires n.Node? && HasShape(n) && Dressed(n.a) && Dressed(n.b) && Dressed(n.c)
    requires forall k :: 0 <= k < |n.list| ==> n.list[k].Node? && Dressed(n.list[k])
    ensures Dressed(n)
  {
    OperandsThere(n);
    ExpressionKinds(n);
    hide *;
    if n.kind in {ArrayRef, In, Group, Call} {
      DressedList(n);
    } else if n.kind in {Field, PreIncr, PreDecr, Unary, PostIncr, PostDecr} {
      DressedOne(n);
    } else if n.kind in {Concat, And, Or, BinOp, Compare, Assignment, Match} {
      DressedTwo(n);
    } else if n.kind == Ternary {
      DressedTernary(n);
    } else if n.kind == Getline {
      DressedGetline(n);
    } else {
      DressedLeaf(n);
    }
  }

  lemma ExpressionKinds(n: Node)
    requires n.Node? && HasShape(n)
    ensures n.kind in {NumLit, StrLit, Regex, VarRef, ArrayRef, In, Group, Call, Field, PreIncr, PreDecr, Unary, PostIncr, PostDecr,
                       Concat, And, Or, BinOp, Compare, Assignment, Match, Ternary, Getline}
  {
  }

  lemma DressedLeaf(n: Node)
    requires n.Node? && HasShape(n) && n.kind in {NumLit, StrLit, Regex, VarRef}
    ensures Dressed(n)
  {
  }
}
