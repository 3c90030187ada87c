/** The tokens that stand for an expression as the parser would build it, and what may
    stand behind them without being taken in. */
module AwkPrinter {

  import opened AwkAst
  import opened AwkGrammar
  import opened AwkTokens
  import opened AwkTrees

  // ---------- printing ----------

  /** A line end, where one may stand and lines are printed. */
  function LineEnd(nl: bool): seq<Sym> {
    if nl then [Op(Newline)] else []
  }

  /** The tokens of `n`, with `rest` behind them. Parentheses are nodes of their own,
      except around the subscripts before `in`. With `nl` the line ends where it may:
      behind an assignment sign and before a colon; inside parentheses and brackets no
      line end is seen. */
  function Show(nl: bool, n: Node, rest: seq<Sym>): seq<Sym>
    decreases n, 0
  {
    if n.Null? then rest
    else
      match n.kind
      case NumLit => [Sym(Number, NoText, n.num)] + rest
      case StrLit => [Word(StringLit, n.str)] + rest
      case Regex => [Word(Ere, n.str)] + rest
      case VarRef => [Word(Name, n.str)] + rest
      case ArrayRef => [Word(Name, n.str)] + ([Op(LBracket)] + ShowList(false, n.list, [Op(RBracket)] + rest))
      case Field | PreIncr | PreDecr | Unary => [Op(LeadOf(n))] + Show(nl, n.a, rest)
      case PostIncr => Show(nl, n.a, [Op(Incr)] + rest)
      case PostDecr => Show(nl, n.a, [Op(Decr)] + rest)
      case Group => [Op(LParen)] + ShowList(false, n.list, [Op(RParen)] + rest)
      case Call =>
        [Word(if n.isBuiltin then BuiltinFunc else FuncName, n.str)] + ([Op(LParen)] + ShowList(false, n.list, [Op(RParen)] + rest))
      case Getline =>
        if n.source == FromMain then [Op(KwGetline)] + Show(nl, n.a, rest)
        else if n.source == FromFile then [Op(KwGetline)] + Show(nl, n.a, [Op(Less)] + Show(nl, n.b, rest))
        else Show(nl, n.b, [Op(Pipe)] + ([Op(KwGetline)] + Show(nl, n.a, rest)))
      case Concat => Show(nl, n.a, Show(nl, n.b, rest))
      case In => [Op(LParen)] + ShowList(false, n.list, [Op(RParen)] + ([Op(KwIn)] + ([Word(Name, n.str)] + rest)))
      case Ternary => Show(nl, n.a, [Op(Question)] + Show(nl, n.b, LineEnd(nl) + ([Op(Colon)] + Show(nl, n.c, rest))))
      case BinOp | Compare | Match | And | Or => Show(nl, n.a, [Op(OperatorOf(n))] + Show(nl, n.b, rest))
      case Assignment => Show(nl, n.a, [Op(n.op)] + (LineEnd(nl) + Show(nl, n.b, rest)))
      case _ => rest
  }

  /** Expressions with commas between them. */
  function ShowList(nl: bool, list: seq<Node>, rest: seq<Sym>): seq<Sym>
    decreases list
  {
    if list == [] then rest
    else if |list| == 1 then Show(nl, list[0], rest)
    else Show(nl, list[0], [Op(Comma)] + ShowList(nl, list[1..], rest))
  }

  /** The type of the first token. */
  function First(n: Node): TokType {
    if n.Null? then EndOfFile
    else
      match n.kind
      case NumLit => Number
      case StrLit => StringLit
      case Regex => Ere
      case VarRef | ArrayRef => Name
      case Field | PreIncr | PreDecr | Unary => LeadOf(n)
      case Group | In => LParen
      case Call => if n.isBuiltin then BuiltinFunc else FuncName
      case Getline => if n.source == FromCommand then First(n.b) else KwGetline
      case PostIncr | PostDecr | Concat | Ternary | BinOp | Compare | Match | And | Or | Assignment => First(n.a)
      case _ => EndOfFile
  }

  predicate Starts(s: seq<Sym>, t: TokType) {
    s != [] && s[0].typ == t
  }

  // ---------- the trees the parser builds ----------

  /** What stands behind it is read into it up to the end of a conditional. */
  predicate Open(n: Node)
    requires n.Node?
  {
    (n.kind == Unary && n.op == NotTok) || (n.kind == Getline && n.source != FromCommand)
  }

  /** `n` may stand where an expression of this level is expected. */
  predicate Fits(pr: bool, n: Node, level: nat)
    decreases n, 1
  {
    n.Node? && Canon(pr, n) && Rank(n) <= level && (Open(n) ==> 12 <= level)
  }

  /** Starts a right operand of a concatenation, and continues nothing. */
  predicate PlainStart(t: TokType) {
    t in {Number, StringLit, Ere, Name, FuncName, BuiltinFunc, Dollar, LParen}
  }

  predicate AllFit(pr: bool, list: seq<Node>)
    decreases list
  {
    forall k :: 0 <= k < |list| ==> Fits(pr, list[k], 13)
  }

  /** A node with just what the parser puts into it, whose operands need no more
      parentheses than they have. */
  predicate Canon(pr: bool, n: Node)
    requires n.Node?
    decreases n, 0
  {
    match n.kind
    case NumLit => n == var m := NewNode(NumLit); m.(num := n.num)
    case StrLit | Regex | VarRef => n.str.Text? && n == Leaf(n.kind, n.str)
    case ArrayRef => n.str.Text? && n == WithList(ArrayRef, n.str, n.list) && n.list != [] && AllFit(pr, n.list)
    case Field | PreIncr | PreDecr => n == OneChild(n.kind, EndOfFile, n.a) && Fits(pr, n.a, 0)
    case Unary => n == OneChild(Unary, n.op, n.a) && n.op in {NotTok, Minus, Plus} && Fits(pr, n.a, OperandMax(n))
    case PostIncr | PostDecr => n == OneChild(n.kind, EndOfFile, n.a) && IsLvalue(n.a) && Fits(pr, n.a, 0)
    case Group => n == WithList(Group, NoText, n.list) && n.list != [] && AllFit(false, n.list)
    case Call => n.str.Text? && n == CallNode(n.str, n.isBuiltin, n.list) && AllFit(false, n.list)
    case Getline =>
      && n == GetlineNode(n.a, n.source, n.b) && (n.a.Null? || (IsLvalue(n.a) && Fits(pr, n.a, 0)))
      && (n.source == FromMain ==> n.b.Null?)
      && (n.source == FromFile ==> Fits(pr, n.b, 12))
      && (n.source == FromCommand ==> !pr && Fits(pr, n.b, 7))
    case Concat => n == Binary(Concat, EndOfFile, n.a, n.b) && Fits(pr, n.a, 5) && Fits(pr, n.b, 4) && PlainStart(First(n.b))
    case In => n.str.Text? && n == WithList(In, n.str, n.list) && n.list != [] && AllFit(false, n.list)
    case Match => n == MatchNode(n.negated, n.a, n.b) && Fits(pr, n.a, 8) && Fits(pr, n.b, 7)
    case And | Or => n == Binary(n.kind, EndOfFile, n.a, n.b) && Fits(pr, n.a, LeftMax(n)) && Fits(pr, n.b, RightMax(n))
    case Ternary => n == ThreeParts(Ternary, n.a, n.b, n.c) && Fits(pr, n.a, 11) && Fits(pr, n.b, 12) && Fits(pr, n.c, 12)
    case BinOp | Compare | Assignment =>
      n == Binary(n.kind, n.op, n.a, n.b) && HasOperator(n, pr) && Fits(pr, n.a, LeftMax(n)) && Fits(pr, n.b, RightMax(n))
    case _ => false
  }

  // ---------- what may stand behind ----------

  /** A token of this type goes on with an expression of this level. */
  predicate Continues(pr: bool, t: TokType, level: nat) {
    || t == LBracket
    || (level >= 1 && t in {Incr, Decr})
    || (level >= 2 && t == Caret)
    || (level >= 3 && t in {Star, Slash, Percent})
    || (level >= 4 && t in {Plus, Minus})
    || (level >= 5 && t in {Number, StringLit, Ere, Name, FuncName, BuiltinFunc, Dollar, LParen, NotTok})
    || (level >= 6 && (t in {Less, LessEq, GreaterEq, Equal, NotEqual} || (t == Greater && !pr)))
    || (level >= 7 && t == Pipe && !pr)
    || (level >= 8 && t in {MatchTok, NoMatch})
    || (level >= 9 && t == KwIn)
    || (level >= 10 && t == AndAnd)
    || (level >= 11 && t == OrOr)
    || (level >= 12 && t == Question)
    || (level >= 13 && t in {AssignTok, AddAssign, SubAssign, MulAssign, DivAssign, ModAssign, PowAssign})
  }

  /** An expression of this level ends before these tokens. */
  predicate Stops(pr: bool, level: nat, rest: seq<Sym>) {
    rest == [] || !Continues(pr, rest[0].typ, level)
  }

  /** `n` with `rest` behind it is what a parser of this level is to read. */
  predicate Wanted(pr: bool, n: Node, level: nat, rest: seq<Sym>) {
    n.Node? && Canon(pr, n) && Rank(n) <= level && Stops(pr, level, rest) && (Open(n) ==> Stops(pr, 12, rest))
  }

  lemma ContinuesMore(pr: bool, t: TokType, level: nat, more: nat)
    requires Continues(pr, t, level) && level <= more
    ensures Continues(pr, t, more)
  {
  }

  lemma StopsSooner(pr: bool, level: nat, more: nat, rest: seq<Sym>)
    requires Stops(pr, more, rest) && level <= more
    ensures Stops(pr, level, rest)
  {
    hide Continues;
    if rest != [] && Continues(pr, rest[0].typ, level) {
      ContinuesMore(pr, rest[0].typ, level, more);
    }
  }

  /** What fits at a level is wanted there if the tokens behind stop it. */
  lemma FitsIsWanted(pr: bool, n: Node, level: nat, rest: seq<Sym>)
    requires Fits(pr, n, level) && Stops(pr, level, rest)
    ensures Wanted(pr, n, level, rest)
  {
    hide Canon, Rank, Continues, Stops;
    if Open(n) {
      StopsSooner(pr, 12, level, rest);
    }
  }

  lemma WantedSooner(pr: bool, n: Node, level: nat, more: nat, rest: seq<Sym>)
    requires Wanted(pr, n, more, rest) && Rank(n) <= level <= more
    ensures Wanted(pr, n, level, rest)
  {
    hide Canon, Rank, Stops;
    StopsSooner(pr, level, more, rest);
  }

  // ---------- operators that associate to the left ----------

  /** `n` has its operator at this level, where the parser loops. */
  predicate Infix(n: Node, level: nat) {
    n.Node? && Rank(n) == level && level in {3, 4, 5, 7, 8, 10, 11}
  }

  /** The tokens with which the loop of this level goes on. */
  predicate Loops(pr: bool, t: TokType, level: nat) {
    if level == 3 then t in {Star, Slash, Percent}
    else if level == 4 then t in {Plus, Minus}
    else if level == 5 then t in {Number, StringLit, Ere, Name, FuncName, BuiltinFunc, Dollar, LParen, NotTok, Incr, Decr, Minus, Plus}
    else if level == 7 then t == Pipe && !pr
    else if level == 8 then t in {MatchTok, NoMatch}
    else if level == 10 then t == AndAnd
    else if level == 11 then t == OrOr
    else false
  }

  function LeftOf(n: Node): Node
    requires n.Node?
  {
    if n.kind == Getline then n.b else n.a
  }

  /** The tokens behind the left operand. */
  function Tail(nl: bool, n: Node, rest: seq<Sym>): seq<Sym>
    requires n.Node?
  {
    if n.kind == Concat then Show(nl, n.b, rest)
    else if n.kind == Getline then [Op(Pipe)] + ([Op(KwGetline)] + Show(nl, n.a, rest))
    else [Op(OperatorOf(n))] + Show(nl, n.b, rest)
  }

  /** How many operators of this level stand one inside the other's left operand. */
  function Spine(n: Node, level: nat): nat
    decreases n
  {
    if Infix(n, level) then 1 + Spine(LeftOf(n), level) else 0
  }

  function Down(n: Node, level: nat, k: nat): Node
    requires k <= Spine(n, level)
  {
    if k == 0 then n else Down(LeftOf(n), level, k - 1)
  }

  /** The tokens behind the operand `k` steps down. */
  function Tails(nl: bool, n: Node, level: nat, k: nat, rest: seq<Sym>): seq<Sym>
    requires k <= Spine(n, level)
  {
    if k == 0 then rest else Tails(nl, LeftOf(n), level, k - 1, Tail(nl, n, rest))
  }

  lemma InfixParts(nl: bool, pr: bool, n: Node, level: nat, rest: seq<Sym>)
    requires n.Node? && Canon(pr, n) && Infix(n, level)
    ensures Fits(pr, LeftOf(n), level) && !Open(n) && Show(nl, n, rest) == Show(nl, LeftOf(n), Tail(nl, n, rest))
    ensures level != 7 ==> Fits(pr, n.b, level - 1)
    ensures level == 7 ==> !pr && n.kind == Getline && n.source == FromCommand && (n.a.Null? || (IsLvalue(n.a) && Fits(pr, n.a, 0)))
  {
  }

  /** The kinds of node that begin with their left operand. */
  predicate BeginsLeft(n: Node)
    requires n.Node?
  {
    || n.kind in {PostIncr, PostDecr, Concat, Ternary, BinOp, Compare, Match, And, Or, Assignment}
    || (n.kind == Getline && n.source == FromCommand)
  }

  lemma LeftShown(nl: bool, n: Node, rest: seq<Sym>) returns (behind: seq<Sym>)
    requires n.Node? && BeginsLeft(n)
    ensures Show(nl, n, rest) == Show(nl, LeftOf(n), behind) && First(n) == First(LeftOf(n)) && LeftOf(n) < n
  {
    behind :=
      if n.kind in {PostIncr, PostDecr} then [Op(if n.kind == PostIncr then Incr else Decr)] + rest
      else if n.kind == Ternary then [Op(Question)] + Show(nl, n.b, LineEnd(nl) + ([Op(Colon)] + Show(nl, n.c, rest)))
      else if n.kind == Assignment then [Op(n.op)] + (LineEnd(nl) + Show(nl, n.b, rest))
      else Tail(nl, n, rest);
  }

  lemma LeftIsCanon(pr: bool, n: Node)
    requires n.Node? && Canon(pr, n) && BeginsLeft(n)
    ensures LeftOf(n).Node? && Canon(pr, LeftOf(n))
  {
    hide AllFit, Rank, HasOperator, LeftMax, RightMax, OperandMax, PlainStart, First;
  }

  lemma LeafStarts(nl: bool, pr: bool, n: Node, rest: seq<Sym>)
    requires n.Node? && Canon(pr, n) && !BeginsLeft(n)
    ensures Show(nl, n, rest) != [] && Show(nl, n, rest)[0].typ == First(n)
  {
    hide ShowList, Fits, AllFit, HasOperator, LeftMax, RightMax, OperandMax;
  }

  lemma {:induction false} ShowStarts(nl: bool, pr: bool, n: Node, rest: seq<Sym>)
    requires n.Node? && Canon(pr, n)
    ensures Show(nl, n, rest) != [] && Show(nl, n, rest)[0].typ == First(n)
    decreases n
  {
    hide *;
    if BeginsLeft(n) {
      var behind := LeftShown(nl, n, rest);
      LeftIsCanon(pr, n);
      ShowStarts(nl, pr, LeftOf(n), behind);
    } else {
      LeafStarts(nl, pr, n, rest);
    }
  }

  lemma PlainStarts(pr: bool, t: TokType)
    requires PlainStart(t)
    ensures !Continues(pr, t, 4) && Loops(pr, t, 5)
  {
  }

  lemma OperatorLoops(pr: bool, n: Node, level: nat)
    requires n.Node? && Canon(pr, n) && Infix(n, level) && n.kind !in {Concat, Getline}
    ensures Loops(pr, OperatorOf(n), level) && !Continues(pr, OperatorOf(n), level - 1)
  {
    hide Fits;
  }

  lemma TailStops(nl: bool, pr: bool, n: Node, level: nat, rest: seq<Sym>)
    requires n.Node? && Canon(pr, n) && Infix(n, level)
    ensures level > 0 && Tail(nl, n, rest) != [] && Loops(pr, Tail(nl, n, rest)[0].typ, level) && Stops(pr, level - 1, Tail(nl, n, rest))
  {
    hide *;
    InfixLevel(n, level);
    if n.kind == Concat {
      ConcatParts(pr, n, level);
      ConcatTail(nl, n, rest);
      ShowStarts(nl, pr, n.b, rest);
      PlainStarts(pr, First(n.b));
    } else if n.kind == Getline {
      GetlineOutside(pr, n, level);
      GetlineTail(nl, pr, n, rest);
    } else {
      OperatorLoops(pr, n, level);
      OperatorTail(nl, n, rest);
    }
    StartStops(pr, Tail(nl, n, rest), level - 1);
  }

  lemma InfixLevel(n: Node, level: nat)
    requires Infix(n, level)
    ensures level > 0 && (n.kind == Getline ==> level == 7)
  {
  }

  /** A command is piped into getline outside print only. */
  lemma GetlineOutside(pr: bool, n: Node, level: nat)
    requires n.Node? && Canon(pr, n) && Infix(n, level) && n.kind == Getline
    ensures !pr
  {
  }

  lemma GetlineTail(nl: bool, pr: bool, n: Node, rest: seq<Sym>)
    requires n.Node? && n.kind == Getline && !pr
    ensures Tail(nl, n, rest) != [] && Loops(pr, Tail(nl, n, rest)[0].typ, 7) && !Continues(pr, Tail(nl, n, rest)[0].typ, 6)
  {
    hide Show;
  }

  lemma OperatorTail(nl: bool, n: Node, rest: seq<Sym>)
    requires n.Node? && n.kind !in {Concat, Getline}
    ensures Tail(nl, n, rest) != [] && Tail(nl, n, rest)[0].typ == OperatorOf(n)
  {
    hide Show;
  }

  lemma ConcatParts(pr: bool, n: Node, level: nat)
    requires n.Node? && Canon(pr, n) && Infix(n, level) && n.kind == Concat
    ensures level == 5 && n.b.Node? && Canon(pr, n.b) && PlainStart(First(n.b))
  {
  }

  lemma ConcatTail(nl: bool, n: Node, rest: seq<Sym>)
    requires n.Node? && n.kind == Concat
    ensures Tail(nl, n, rest) == Show(nl, n.b, rest)
  {
  }

  lemma StartStops(pr: bool, s: seq<Sym>, level: nat)
    requires s != [] && !Continues(pr, s[0].typ, level)
    ensures Stops(pr, level, s)
  {
  }

  /** What the loop of a level reads: `n` itself may go on at that level. */
  predicate Looped(pr: bool, n: Node, level: nat, rest: seq<Sym>) {
    && n.Node? && Canon(pr, n) && Rank(n) <= level && level in {3, 4, 5, 7, 8, 10, 11}
    && Stops(pr, level - 1, rest) && (Open(n) ==> Stops(pr, 12, rest))
  }

  lemma WantedLooped(pr: bool, n: Node, level: nat, rest: seq<Sym>)
    requires Wanted(pr, n, level, rest) && level in {3, 4, 5, 7, 8, 10, 11}
    ensures Looped(pr, n, level, rest)
  {
    hide Canon, Rank, Stops;
    StopsSooner(pr, level - 1, level, rest);
  }

  lemma LoopedLeft(nl: bool, pr: bool, n: Node, level: nat, rest: seq<Sym>)
    requires Looped(pr, n, level, rest) && Infix(n, level)
    ensures Looped(pr, LeftOf(n), level, Tail(nl, n, rest)) && Show(nl, n, rest) == Show(nl, LeftOf(n), Tail(nl, n, rest))
  {
    InfixParts(nl, pr, n, level, rest);
    TailStops(nl, pr, n, level, rest);
    hide Canon, Rank, Show, Tail, Stops, LeftOf;
  }

  /** The innermost left operand, which the loop's first call reads. */
  lemma {:induction false} SpineEnd(nl: bool, pr: bool, n: Node, level: nat, rest: seq<Sym>)
    requires Looped(pr, n, level, rest)
    ensures var k := Spine(n, level);
            level > 0 && Down(n, level, k).Node? && Wanted(pr, Down(n, level, k), level - 1, Tails(nl, n, level, k, rest))
            && Show(nl, n, rest) == Show(nl, Down(n, level, k), Tails(nl, n, level, k, rest))
    decreases n
  {
    hide Canon, Show, Tail, Stops, LeftOf;
    if Infix(n, level) {
      LoopedLeft(nl, pr, n, level, rest);
      LeftIsSmaller(n);
      SpineEnd(nl, pr, LeftOf(n), level, Tail(nl, n, rest));
    } else {
      hide Rank;
    }
  }

  lemma LeftIsSmaller(n: Node)
    requires n.Node?
    ensures LeftOf(n) < n
  {
  }

  /** One turn of the loop: the operand k steps down is the left one of the node k - 1 steps down. */
  lemma {:induction false} SpineTurn(nl: bool, pr: bool, n: Node, level: nat, k: nat, rest: seq<Sym>)
    requires Looped(pr, n, level, rest) && 0 < k <= Spine(n, level)
    ensures var p := Down(n, level, k - 1);
            && Looped(pr, p, level, Tails(nl, n, level, k - 1, rest)) && Infix(p, level) && LeftOf(p) == Down(n, level, k)
            && Tails(nl, n, level, k, rest) == Tail(nl, p, Tails(nl, n, level, k - 1, rest))
    decreases n
  {
    hide Canon, Show, Tail, Stops, LeftOf, Rank;
    if k > 1 {
      LoopedLeft(nl, pr, n, level, rest);
      LeftIsSmaller(n);
      SpineTurn(nl, pr, LeftOf(n), level, k - 1, Tail(nl, n, rest));
    }
  }

  /** The loop goes on exactly as long as there are operators left. */
  lemma SpineLoops(nl: bool, pr: bool, n: Node, level: nat, k: nat, rest: seq<Sym>)
    requires Wanted(pr, n, level, rest) && level in {3, 4, 5, 7, 8, 10, 11} && k <= Spine(n, level)
    ensures var s := Tails(nl, n, level, k, rest); k > 0 <==> s != [] && Loops(pr, s[0].typ, level)
  {
    WantedLooped(pr, n, level, rest);
    if k > 0 {
      SpineTurn(nl, pr, n, level, k, rest);
      hide Canon, Show, Tail, Stops, LeftOf, Rank, Infix;
      TailStops(nl, pr, Down(n, level, k - 1), level, Tails(nl, n, level, k - 1, rest));
    } else if rest != [] && Loops(pr, rest[0].typ, level) {
      hide Canon, Show, Rank;
      LoopsContinues(pr, rest[0].typ, level);
    }
  }

  lemma LoopsContinues(pr: bool, t: TokType, level: nat)
    requires Loops(pr, t, level)
    ensures Continues(pr, t, level)
  {
  }

  /** The right operand, which the loop's other call reads. */
  lemma SpineRight(nl: bool, pr: bool, p: Node, level: nat, rest: seq<Sym>)
    requires Looped(pr, p, level, rest) && Infix(p, level) && level != 7
    ensures p.b.Node? && Wanted(pr, p.b, level - 1, rest)
  {
    InfixParts(nl, pr, p, level, rest);
    hide Canon, Rank, Show, Stops;
    FitsIsWanted(pr, p.b, level - 1, rest);
  }

  // ---------- the parts of a node, as they are read ----------

  function PartA(n: Node): Node {
    if n.Node? then n.a else Null
  }

  function PartB(n: Node): Node {
    if n.Node? then n.b else Null
  }

  function PartC(n: Node): Node {
    if n.Node? then n.c else Null
  }

  function ItemsOf(n: Node): seq<Node> {
    if n.Node? then n.list else []
  }

  lemma PartsAre(n: Node)
    ensures n.Node? ==> PartA(n) == n.a && PartB(n) == n.b && PartC(n) == n.c && ItemsOf(n) == n.list
    ensures n.Null? ==> PartA(n) == Null && PartB(n) == Null && PartC(n) == Null && ItemsOf(n) == []
  {
  }

  lemma WantedIs(pr: bool, n: Node, level: nat, rest: seq<Sym>)
    requires Wanted(pr, n, level, rest)
    ensures n.Node? && Canon(pr, n) && Rank(n) <= level && Stops(pr, level, rest) && (Open(n) ==> Stops(pr, 12, rest))
  {
    hide Canon, Rank, Stops;
  }

  lemma PrimaryKinds(pr: bool, n: Node)
    requires n.Node? && Canon(pr, n) && Rank(n) == 0
    ensures n.kind in {NumLit, StrLit, Regex, VarRef, ArrayRef, Field, PreIncr, PreDecr, Unary, Group, Call, Getline}
    ensures n.kind == Unary ==> n.op in {NotTok, Minus, Plus}
    ensures n.kind == Getline ==> n.source != FromCommand
  {
    hide Fits, AllFit;
  }

  /** Which primary it is shows in its first token. */
  lemma FirstTells(pr: bool, n: Node)
    requires n.Node? && Canon(pr, n) && Rank(n) == 0
    ensures First(n) == Number <==> n.kind == NumLit
    ensures First(n) == StringLit <==> n.kind == StrLit
    ensures First(n) == Ere <==> n.kind == Regex
    ensures First(n) == NotTok <==> n.kind == Unary && n.op == NotTok
    ensures First(n) in {Dollar, Incr, Decr, Minus, Plus}
            <==> n.kind in {Field, PreIncr, PreDecr} || (n.kind == Unary && n.op != NotTok)
    ensures First(n) == LParen <==> n.kind == Group
    ensures First(n) == KwGetline <==> n.kind == Getline
    ensures First(n) == BuiltinFunc <==> n.kind == Call && n.isBuiltin
    ensures First(n) == FuncName <==> n.kind == Call && !n.isBuiltin
    ensures First(n) == Name <==> n.kind in {VarRef, ArrayRef}
    ensures n.kind == Getline ==> n.source != FromCommand
  {
    PrimaryKinds(pr, n);
    hide Canon, Rank;
  }

  lemma {:induction false} FirstStarts(pr: bool, n: Node)
    requires n.Node? && Canon(pr, n)
    ensures First(n) in {Number, StringLit, Ere, NotTok, Dollar, Incr, Decr, Minus, Plus, LParen, KwGetline, BuiltinFunc, FuncName, Name}
  {
    hide AllFit, Rank, HasOperator, LeftMax, RightMax, OperandMax, PlainStart;
    if n.kind in {PostIncr, PostDecr, Concat, Ternary, BinOp, Compare, Match, And, Or, Assignment} {
      FirstStarts(pr, n.a);
    } else if n.kind == Getline && n.source == FromCommand {
      FirstStarts(pr, n.b);
    }
  }

  function LeafSym(n: Node): Sym
    requires n.Node?
  {
    if n.kind == NumLit then Sym(Number, NoText, n.num)
    else Word(if n.kind == StrLit then StringLit else if n.kind == Regex then Ere else Name, n.str)
  }

  lemma LiteralShown(nl: bool, pr: bool, n: Node, rest: seq<Sym>)
    requires n.Node? && Canon(pr, n) && n.kind in {NumLit, StrLit, Regex}
    ensures Show(nl, n, rest) == [LeafSym(n)] + rest
    ensures forall tok: Token :: Sym(tok.typ, tok.text, tok.num) == LeafSym(n) ==> Literal(tok) == n
  {
  }

  lemma FitsNode(pr: bool, n: Node, level: nat)
    requires Fits(pr, n, level)
    ensures n.Node?
  {
  }

  lemma PrefixShown(nl: bool, pr: bool, n: Node, rest: seq<Sym>)
    requires n.Node? && Canon(pr, n) && (n.kind in {Field, PreIncr, PreDecr} || (n.kind == Unary && n.op != NotTok))
    ensures First(n) in {Dollar, Incr, Decr, Minus, Plus}
    ensures Show(nl, n, rest) == [Op(First(n))] + Show(nl, n.a, rest) && n == Prefix(First(n), n.a) && n.a.Node? && Fits(pr, n.a, 0)
  {
    PrefixParts(pr, n);
    PrefixTokens(nl, n, rest);
    hide Canon, Fits, Show;
    FitsNode(pr, n.a, 0);
  }

  lemma PrefixTokens(nl: bool, n: Node, rest: seq<Sym>)
    requires n.Node? && n.kind in {Field, PreIncr, PreDecr, Unary}
    ensures Show(nl, n, rest) == [Op(First(n))] + Show(nl, n.a, rest) && First(n) == LeadOf(n)
  {
  }

  lemma PrefixParts(pr: bool, n: Node)
    requires n.Node? && Canon(pr, n) && (n.kind in {Field, PreIncr, PreDecr} || (n.kind == Unary && n.op != NotTok))
    ensures Fits(pr, n.a, 0) && n == OneChild(n.kind, if n.kind == Unary then n.op else EndOfFile, n.a)
    ensures n.kind == Unary ==> n.op in {Minus, Plus}
  {
    hide Fits;
  }

  lemma NotShown(nl: bool, pr: bool, n: Node, rest: seq<Sym>)
    requires n.Node? && Canon(pr, n) && n.kind == Unary && n.op == NotTok
    ensures Show(nl, n, rest) == [Op(NotTok)] + Show(nl, n.a, rest) && n == OneChild(Unary, NotTok, n.a)
    ensures n.a.Node? && Fits(pr, n.a, 12)
  {
    hide Fits;
    FitsNode(pr, n.a, 12);
  }

  lemma NotAsked(nl: bool, pr: bool, n: Node, rest: seq<Sym>)
    requires Wanted(pr, n, 0, rest) && n.kind == Unary && n.op == NotTok
    ensures Show(nl, n, rest) == [Op(NotTok)] + Show(nl, n.a, rest) && n == OneChild(Unary, NotTok, n.a)
    ensures n.a.Node? && Wanted(pr, n.a, 12, rest)
  {
    NotShown(nl, pr, n, rest);
    hide Canon, Show, Rank, Stops;
    FitsIsWanted(pr, n.a, 12, rest);
  }

  lemma GroupShown(nl: bool, pr: bool, n: Node, rest: seq<Sym>)
    requires n.Node? && Canon(pr, n) && n.kind == Group
    ensures Show(nl, n, rest) == [Op(LParen)] + ShowList(false, n.list, [Op(RParen)] + rest)
    ensures n == WithList(Group, NoText, n.list) && n.list != [] && AllFit(false, n.list)
  {
    hide AllFit, ShowList;
  }

  function CallSym(n: Node): Sym
    requires n.Node?
  {
    Word(if n.isBuiltin then BuiltinFunc else FuncName, n.str)
  }

  lemma CallShown(nl: bool, pr: bool, n: Node, rest: seq<Sym>)
    requires n.Node? && Canon(pr, n) && n.kind == Call
    ensures Show(nl, n, rest) == [CallSym(n)] + ([Op(LParen)] + ShowList(false, n.list, [Op(RParen)] + rest))
    ensures n == CallNode(n.str, n.isBuiltin, n.list) && AllFit(false, n.list)
  {
    hide AllFit, ShowList;
  }

  lemma NameShown(nl: bool, pr: bool, n: Node, rest: seq<Sym>)
    requires n.Node? && Canon(pr, n) && n.kind in {VarRef, ArrayRef}
    ensures n.kind == VarRef ==> Show(nl, n, rest) == [Word(Name, n.str)] + rest && n == Leaf(VarRef, n.str)
    ensures n.kind == ArrayRef ==>
              && Show(nl, n, rest) == [Word(Name, n.str)] + ([Op(LBracket)] + ShowList(false, n.list, [Op(RBracket)] + rest))
              && n == WithList(ArrayRef, n.str, n.list) && n.list != [] && AllFit(pr, n.list)
  {
    hide AllFit, ShowList;
  }

  /** What getline reads into, or nothing. */
  predicate TargetFits(pr: bool, n: Node) {
    n.Null? || (IsLvalue(n) && Fits(pr, n, 0))
  }

  lemma GetlineShown(nl: bool, pr: bool, n: Node, rest: seq<Sym>)
    requires n.Node? && Canon(pr, n) && n.kind == Getline
    ensures n == GetlineNode(n.a, n.source, n.b) && TargetFits(pr, n.a)
    ensures n.source == FromMain ==> n.b.Null? && Show(nl, n, rest) == [Op(KwGetline)] + Show(nl, n.a, rest)
    ensures n.source == FromFile ==>
              Fits(pr, n.b, 12) && Show(nl, n, rest) == [Op(KwGetline)] + Show(nl, n.a, [Op(Less)] + Show(nl, n.b, rest))
  {
    hide Fits;
  }

  lemma PostShown(nl: bool, pr: bool, n: Node, rest: seq<Sym>)
    requires n.Node? && Canon(pr, n) && Rank(n) == 1
    ensures n.kind in {PostIncr, PostDecr} && IsLvalue(n.a) && Fits(pr, n.a, 0)
    ensures n == OneChild(n.kind, EndOfFile, n.a)
    ensures Show(nl, n, rest) == Show(nl, n.a, [Op(if n.kind == PostIncr then Incr else Decr)] + rest)
  {
    hide Fits, AllFit;
  }

  lemma InShown(nl: bool, pr: bool, n: Node, rest: seq<Sym>)
    requires n.Node? && Canon(pr, n) && Rank(n) == 9
    ensures n == WithList(In, n.str, n.list) && n.list != [] && AllFit(false, n.list)
    ensures Show(nl, n, rest) == [Op(LParen)] + ShowList(false, n.list, [Op(RParen)] + ([Op(KwIn)] + ([Word(Name, n.str)] + rest)))
  {
    hide Fits, AllFit, ShowList;
  }

  /** The subscripts before `in` are read as a group first. */
  lemma KeysAsGroup(nl: bool, pr: bool, list: seq<Node>, rest: seq<Sym>)
    requires list != [] && AllFit(false, list)
    ensures var g := WithList(Group, NoText, list);
            Fits(pr, g, 0) && KeysOf(g) == list && Show(nl, g, rest) == [Op(LParen)] + ShowList(false, list, [Op(RParen)] + rest)
  {
    hide AllFit, ShowList;
  }

  lemma TernaryShown(nl: bool, pr: bool, n: Node, rest: seq<Sym>)
    requires n.Node? && Canon(pr, n) && Rank(n) == 12
    ensures n == ThreeParts(Ternary, n.a, n.b, n.c) && Fits(pr, n.a, 11) && Fits(pr, n.b, 12) && Fits(pr, n.c, 12)
    ensures Show(nl, n, rest) == Show(nl, n.a, [Op(Question)] + Show(nl, n.b, LineEnd(nl) + ([Op(Colon)] + Show(nl, n.c, rest))))
  {
    hide Fits, AllFit;
  }

  /** The node of an operator of a looping level, from its two operands. */
  lemma InfixMade(pr: bool, n: Node, level: nat)
    requires n.Node? && Canon(pr, n) && Infix(n, level) && level != 7
    ensures level in {3, 4} ==> n == Binary(BinOp, n.op, n.a, n.b) && OperatorOf(n) == n.op
    ensures level == 5 ==> n == Binary(Concat, EndOfFile, n.a, n.b)
    ensures level == 8 ==> n == MatchNode(n.negated, n.a, n.b) && OperatorOf(n) == if n.negated then NoMatch else MatchTok
    ensures level == 10 ==> n == Binary(And, EndOfFile, n.a, n.b) && OperatorOf(n) == AndAnd
    ensures level == 11 ==> n == Binary(Or, EndOfFile, n.a, n.b) && OperatorOf(n) == OrOr
    ensures level == 5 <==> n.kind == Concat
    ensures n.kind != Getline
  {
    hide Fits, AllFit;
  }

  // ---------- lists ----------

  /** What ends a list of expressions. */
  predicate EndsList(rest: seq<Sym>) {
    rest != [] && rest[0].typ in {RParen, RBracket}
  }

  function ItemAt(list: seq<Node>, i: nat): Node {
    if i < |list| then list[i] else Null
  }

  /** The tokens from the i-th item on. */
  function ListRest(nl: bool, list: seq<Node>, i: nat, rest: seq<Sym>): seq<Sym> {
    if i < |list| then ShowList(nl, list[i..], rest) else rest
  }

  /** The tokens behind the i-th item. */
  function ItemRest(nl: bool, list: seq<Node>, i: nat, rest: seq<Sym>): seq<Sym> {
    if i + 1 < |list| then [Op(Comma)] + ListRest(nl, list, i + 1, rest) else rest
  }

  lemma CommaStops(nl: bool, pr: bool, list: seq<Node>, i: nat, rest: seq<Sym>)
    requires EndsList(rest)
    ensures Stops(pr, 13, ItemRest(nl, list, i, rest))
  {
    hide ShowList;
  }

  lemma ItemShown(nl: bool, pr: bool, list: seq<Node>, i: nat, rest: seq<Sym>)
    requires i < |list| && AllFit(pr, list) && EndsList(rest)
    ensures list[i].Node? && Wanted(pr, list[i], 13, ItemRest(nl, list, i, rest))
    ensures ListRest(nl, list, i, rest) == Show(nl, list[i], ItemRest(nl, list, i, rest))
  {
    assert Fits(pr, list[i], 13);
    assert list[i..][0] == list[i] && list[i..][1..] == list[i + 1..];
    CommaStops(nl, pr, list, i, rest);
    hide Fits, AllFit, Show, Rank, Stops;
    FitsIsWanted(pr, list[i], 13, ItemRest(nl, list, i, rest));
  }

  lemma ClosingEnds(t: TokType, rest: seq<Sym>)
    requires t in {RParen, RBracket}
    ensures EndsList([Op(t)] + rest)
  {
  }

  lemma ItemAtIs(list: seq<Node>, i: nat)
    ensures i < |list| ==> ItemAt(list, i) == list[i]
    ensures i >= |list| ==> ItemAt(list, i) == Null
  {
  }

  lemma ItemsSoFar(list: seq<Node>, i: nat)
    ensures i < |list| ==> list[..i] + [list[i]] == list[..i + 1]
    ensures list != [] ==> list[..1] == [list[0]]
  {
  }

  lemma NoMoreItems(nl: bool, list: seq<Node>, rest: seq<Sym>)
    ensures list[..|list|] == list && ListRest(nl, list, |list|, rest) == rest
    ensures ListRest(nl, [], 0, rest) == rest
  {
  }

  /** The tokens behind the name of a variable or an element. */
  function NameRest(n: Node, rest: seq<Sym>): seq<Sym>
    requires n.Node?
  {
    if n.kind == ArrayRef then [Op(LBracket)] + ListRest(false, n.list, 0, [Op(RBracket)] + rest) else rest
  }

  lemma NamedShown(nl: bool, pr: bool, n: Node, rest: seq<Sym>)
    requires n.Node? && Canon(pr, n) && n.kind in {VarRef, ArrayRef}
    ensures Show(nl, n, rest) == [Word(Name, n.str)] + NameRest(n, rest)
    ensures n.kind == VarRef ==> n == Leaf(VarRef, n.str)
    ensures n.kind == ArrayRef ==> n == WithList(ArrayRef, n.str, n.list) && n.list != [] && AllFit(pr, n.list)
  {
    NameShown(nl, pr, n, rest);
    WholeList(false, n.list, [Op(RBracket)] + rest);
    hide Show, Canon, ListRest, ShowList, AllFit;
  }

  lemma WholeList(nl: bool, list: seq<Node>, rest: seq<Sym>)
    ensures ListRest(nl, list, 0, rest) == ShowList(nl, list, rest)
  {
    assert list[0..] == list;
  }

  // ---------- operators that do not associate to the left ----------

  /** `n` has its operator at this level, where the parser looks for one only. */
  predicate Once(n: Node, level: nat) {
    n.Node? && Rank(n) == level && level in {2, 6, 13}
  }

  predicate OnceOp(pr: bool, t: TokType, level: nat) {
    if level == 2 then t == Caret
    else if level == 6 then t in {Less, LessEq, GreaterEq, Equal, NotEqual} || (t == Greater && !pr)
    else if level == 13 then t in {AssignTok, AddAssign, SubAssign, MulAssign, DivAssign, ModAssign, PowAssign}
    else false
  }

  function HeadOf(n: Node, level: nat): Node {
    if Once(n, level) then n.a else n
  }

  function Operand(n: Node, level: nat): Node {
    if Once(n, level) then n.b else Null
  }

  /** The tokens behind the left operand, and behind the operator. */
  function HeadRest(nl: bool, n: Node, level: nat, rest: seq<Sym>): seq<Sym> {
    if Once(n, level) then [Op(n.op)] + OperandRest(nl, n, level, rest) else rest
  }

  function OperandRest(nl: bool, n: Node, level: nat, rest: seq<Sym>): seq<Sym> {
    if !Once(n, level) then rest
    else if level == 13 then LineEnd(nl) + Show(nl, n.b, rest)
    else Show(nl, n.b, rest)
  }

  lemma OnceParts(nl: bool, pr: bool, n: Node, level: nat, rest: seq<Sym>)
    requires n.Node? && Canon(pr, n) && Once(n, level)
    ensures n == Binary(if level == 2 then BinOp else if level == 6 then Compare else Assignment, n.op, n.a, n.b)
    ensures OnceOp(pr, n.op, level) && !Continues(pr, n.op, level - 1) && !Open(n)
    ensures Fits(pr, n.a, level - 1) && Fits(pr, n.b, if level == 6 then 5 else level)
    ensures level == 13 ==> IsLvalue(n.a)
    ensures Show(nl, n, rest) == Show(nl, n.a, [Op(n.op)] + OperandRest(nl, n, level, rest))
  {
    hide Fits, AllFit;
  }

  lemma OnceContinues(pr: bool, t: TokType, level: nat)
    requires OnceOp(pr, t, level)
    ensures Continues(pr, t, level)
  {
  }

  lemma OnceShown(nl: bool, pr: bool, n: Node, level: nat, rest: seq<Sym>)
    requires Wanted(pr, n, level, rest) && level in {2, 6, 13}
    ensures HeadOf(n, level).Node? && Wanted(pr, HeadOf(n, level), level - 1, HeadRest(nl, n, level, rest))
    ensures Show(nl, n, rest) == Show(nl, HeadOf(n, level), HeadRest(nl, n, level, rest))
    ensures Once(n, level) ==>
              && n.b.Node? && Wanted(pr, n.b, if level == 6 then 5 else level, rest)
              && OnceOp(pr, n.op, level) && (level == 13 ==> IsLvalue(n.a))
              && n == Binary(if level == 2 then BinOp else if level == 6 then Compare else Assignment, n.op, n.a, n.b)
    ensures !Once(n, level) && rest != [] ==> !OnceOp(pr, rest[0].typ, level)
  {
    if Once(n, level) {
      OnceParts(nl, pr, n, level, rest);
      hide Canon, Fits, Rank, Show, Continues;
      StartStops(pr, HeadRest(nl, n, level, rest), level - 1);
      FitsIsWanted(pr, n.a, level - 1, HeadRest(nl, n, level, rest));
      StopsSooner(pr, if level == 6 then 5 else level, level, rest);
      FitsIsWanted(pr, n.b, if level == 6 then 5 else level, rest);
    } else {
      hide Canon, Fits, Show, Continues;
      WantedSooner(pr, n, level - 1, level, rest);
      if rest != [] && OnceOp(pr, rest[0].typ, level) {
        OnceContinues(pr, rest[0].typ, level);
      }
    }
  }

  // ---------- one turn of a loop ----------

  /** The node whose right operand is read next. */
  function Upper(n: Node, level: nat, k: nat): Node {
    if 0 < k <= Spine(n, level) then Down(n, level, k - 1) else Null
  }

  function Behind(nl: bool, n: Node, level: nat, k: nat, rest: seq<Sym>): seq<Sym> {
    if 0 < k <= Spine(n, level) then Tails(nl, n, level, k - 1, rest) else rest
  }

  lemma TurnShown(nl: bool, pr: bool, n: Node, level: nat, k: nat, rest: seq<Sym>)
    requires Wanted(pr, n, level, rest) && level in {3, 4, 5, 7, 8, 10, 11} && 0 < k <= Spine(n, level)
    ensures var p := Upper(n, level, k);
            && p.Node? && Canon(pr, p) && Infix(p, level) && LeftOf(p) == Down(n, level, k)
            && Tails(nl, n, level, k, rest) == Tail(nl, p, Behind(nl, n, level, k, rest))
            && Stops(pr, level - 1, Behind(nl, n, level, k, rest))
            && (level != 7 ==> p.b.Node? && Wanted(pr, p.b, level - 1, Behind(nl, n, level, k, rest)))
  {
    WantedLooped(pr, n, level, rest);
    SpineTurn(nl, pr, n, level, k, rest);
    hide Canon, Show, Tail, Stops, LeftOf, Rank, Infix;
    if level != 7 {
      SpineRight(nl, pr, Upper(n, level, k), level, Behind(nl, n, level, k, rest));
    }
  }

  lemma TurnIs(nl: bool, n: Node, level: nat, k: nat, rest: seq<Sym>)
    ensures 0 < k <= Spine(n, level) ==>
              Upper(n, level, k) == Down(n, level, k - 1) && Behind(nl, n, level, k, rest) == Tails(nl, n, level, k - 1, rest)
  {
    hide Spine, Down, Tails;
  }

  lemma SpineOfNull(nl: bool, level: nat, rest: seq<Sym>)
    ensures Spine(Null, level) == 0 && Down(Null, level, 0) == Null && Tails(nl, Null, level, 0, rest) == rest
  {
  }

  lemma UpperOfNull(n: Node, level: nat, k: nat)
    ensures n.Null? ==> Upper(n, level, k) == Null
  {
  }

  lemma LoopDone(nl: bool, n: Node, level: nat, rest: seq<Sym>)
    ensures Down(n, level, 0) == n && Tails(nl, n, level, 0, rest) == rest
  {
  }

  lemma LoopTokens(pr: bool, t: TokType)
    ensures Loops(pr, t, 3) <==> t == Star || t == Slash || t == Percent
    ensures Loops(pr, t, 4) <==> t == Plus || t == Minus
    ensures Loops(pr, t, 7) <==> t == Pipe && !pr
    ensures Loops(pr, t, 8) <==> t == MatchTok || t == NoMatch
    ensures Loops(pr, t, 10) <==> t == AndAnd
    ensures Loops(pr, t, 11) <==> t == OrOr
  {
  }

  lemma OnceIs(nl: bool, n: Node, level: nat, rest: seq<Sym>)
    ensures Once(n, level) ==>
              n.Node? && HeadOf(n, level) == n.a && Operand(n, level) == n.b && OperandRest(nl, n, level, rest) == if level == 13 then LineEnd(nl) + Show(nl, n.b, rest) else Show(nl, n.b, rest)
    ensures !Once(n, level) ==> HeadOf(n, level) == n && Operand(n, level) == Null && OperandRest(nl, n, level, rest) == rest
    ensures n.Null? ==> !Once(n, level) && HeadRest(nl, n, level, rest) == rest
  {
    hide Show;
  }

  lemma OnceOps(pr: bool, t: TokType)
    ensures OnceOp(pr, t, 2) <==> t == Caret
    ensures OnceOp(pr, t, 6) <==> t == Less || t == LessEq || t == GreaterEq || t == NotEqual || t == Equal || (t == Greater && !pr)
    ensures OnceOp(pr, t, 13) <==> t in {AssignTok, AddAssign, SubAssign, MulAssign, DivAssign, ModAssign, PowAssign}
  {
  }

  // ---------- getline ----------

  predicate EndsTarget(rest: seq<Sym>) {
    rest == [] || rest[0].typ !in {Name, Dollar, LBracket}
  }

  /** A getline from the input or a file. */
  predicate GetlineFits(pr: bool, n: Node, rest: seq<Sym>) {
    && n.Node? && n.kind == Getline && n.source != FromCommand && Canon(pr, n)
    && Stops(pr, 6, rest) && (n.source == FromFile ==> Stops(pr, 12, rest))
  }

  /** The tokens behind the target, and behind the `<` if there is one. */
  function TargetRest(nl: bool, n: Node, rest: seq<Sym>): seq<Sym> {
    if n.Node? && n.source == FromFile then [Op(Less)] + Show(nl, n.b, rest) else rest
  }

  function FileRest(nl: bool, n: Node, rest: seq<Sym>): seq<Sym> {
    if n.Node? && n.source == FromFile then Show(nl, n.b, rest) else rest
  }

  lemma StopsTarget(pr: bool, rest: seq<Sym>)
    requires Stops(pr, 6, rest)
    ensures EndsTarget(rest) && (rest != [] ==> rest[0].typ != Less)
  {
  }

  lemma GetlineAsked(nl: bool, pr: bool, n: Node, rest: seq<Sym>)
    requires GetlineFits(pr, n, rest)
    ensures TargetFits(pr, n.a) && EndsTarget(TargetRest(nl, n, rest))
    ensures n.source != FromCommand && n == GetlineNode(n.a, n.source, n.b)
    ensures FileRest(nl, n, rest) == if n.source == FromFile then Show(nl, n.b, rest) else rest
    ensures Show(nl, n, rest) == [Op(KwGetline)] + Show(nl, n.a, TargetRest(nl, n, rest))
    ensures if n.source == FromFile then n.b.Node? && Wanted(pr, n.b, 12, rest) else n.b.Null?
  {
    GetlineShown(nl, pr, n, rest);
    StopsTarget(pr, rest);
    hide Canon, Fits, Show, Stops, Rank;
    if n.source == FromFile {
      FitsIsWanted(pr, n.b, 12, rest);
    }
  }

  lemma PrimaryGetline(pr: bool, n: Node, rest: seq<Sym>)
    requires Wanted(pr, n, 0, rest) && n.kind == Getline && n.source != FromCommand
    ensures GetlineFits(pr, n, rest)
  {
    hide Canon, Rank, Stops;
    StopsSooner(pr, 6, 12, rest);
  }

  lemma TargetKinds(pr: bool, n: Node, rest: seq<Sym>)
    requires n.Node? && TargetFits(pr, n) && EndsTarget(rest)
    ensures n.kind in {VarRef, ArrayRef, Field} && Canon(pr, n) && Rank(n) == 0 && Wanted(pr, n, 0, rest)
    ensures First(n) == if n.kind == Field then Dollar else Name
  {
    hide Canon;
  }

  /** A field is read as its sign and its number. */
  lemma FieldShown(nl: bool, pr: bool, n: Node, rest: seq<Sym>)
    requires n.Node? && n.kind == Field && Wanted(pr, n, 0, rest)
    ensures Show(nl, n, rest) == [Op(Dollar)] + Show(nl, n.a, rest) && n == Prefix(Dollar, n.a) && n.a.Node? && Wanted(pr, n.a, 0, rest)
  {
    PrefixShown(nl, pr, n, rest);
    assert First(n) == Dollar;
    hide Canon, Show, Rank, Stops;
    FitsIsWanted(pr, n.a, 0, rest);
  }

  /** A command piped into getline. */
  lemma PipedShown(nl: bool, pr: bool, n: Node, rest: seq<Sym>)
    requires n.Node? && Canon(pr, n) && Infix(n, 7)
    ensures n == GetlineNode(n.a, FromCommand, n.b) && Fits(pr, n.b, 7)
    ensures var g := GetlineNode(n.a, FromMain, Null);
            g.a == n.a && Canon(pr, g) && Show(nl, g, rest) == [Op(KwGetline)] + Show(nl, n.a, rest)
    ensures Tail(nl, n, rest) == [Op(Pipe)] + ([Op(KwGetline)] + Show(nl, n.a, rest))
  {
    hide Fits, AllFit;
  }

  /** The getline that a command is piped into, as it is read on its own. */
  function Piped(n: Node): Node {
    if n.Node? then GetlineNode(n.a, FromMain, Null) else Null
  }

  lemma PipedTurn(nl: bool, pr: bool, n: Node, k: nat, rest: seq<Sym>)
    requires Wanted(pr, n, 7, rest) && 0 < k <= Spine(n, 7)
    ensures var p, r := Upper(n, 7, k), Behind(nl, n, 7, k, rest);
            && p.Node? && Piped(p).Node? && GetlineFits(pr, Piped(p), r)
            && p == GetlineNode(Piped(p).a, FromCommand, Down(n, 7, k))
            && Show(nl, Piped(p), r) == [Op(KwGetline)] + Show(nl, p.a, r)
            && Tails(nl, n, 7, k, rest) == [Op(Pipe)] + ([Op(KwGetline)] + Show(nl, p.a, r))
  {
    hide *;
    TurnShown(nl, pr, n, 7, k, rest);
    var p, r := Upper(n, 7, k), Behind(nl, n, 7, k, rest);
    PipedShown(nl, pr, p, r);
    PipedFits(nl, pr, p, r);
  }

  lemma PipedFits(nl: bool, pr: bool, p: Node, r: seq<Sym>)
    requires p.Node? && Canon(pr, p) && Infix(p, 7) && Stops(pr, 6, r)
    ensures var g := GetlineNode(p.a, FromMain, Null);
            Piped(p) == g && g.a == p.a && g.Node? && GetlineFits(pr, g, r) && LeftOf(p) == p.b
  {
    PipedShown(nl, pr, p, r);
    InfixParts(nl, pr, p, 7, r);
    hide Canon, Show, Stops, Infix;
  }

  lemma PipedNull(n: Node)
    ensures n.Null? ==> Piped(n) == Null
  {
  }

  // ---------- the rest of a call ----------

  predicate EndsArguments(rest: seq<Sym>) {
    rest != [] && rest[0].typ == RParen
  }

  lemma ParenEnds(rest: seq<Sym>)
    ensures EndsArguments([Op(RParen)] + rest)
  {
  }

  lemma CallStarts(n: Node)
    requires n.Node?
    ensures CallSym(n) == Word(if n.isBuiltin then BuiltinFunc else FuncName, n.str)
  {
  }

  lemma FirstArgument(nl: bool, pr: bool, list: seq<Node>, rest: seq<Sym>)
    requires AllFit(pr, list) && EndsArguments(rest)
    ensures EndsList(rest) && ListRest(nl, list, 0, rest) == ShowList(nl, list, rest)
    ensures ShowList(nl, list, rest) != [] && (ShowList(nl, list, rest)[0].typ == RParen <==> list == [])
  {
    WholeList(nl, list, rest);
    if list != [] {
      ItemShown(nl, pr, list, 0, rest);
      assert Fits(pr, list[0], 13);
      ShowStarts(nl, pr, list[0], ItemRest(nl, list, 0, rest));
      FirstStarts(pr, list[0]);
      hide Canon, Show, ShowList, First;
    }
  }

  // ---------- increments behind ----------

  function PostRest(n: Node, rest: seq<Sym>): seq<Sym> {
    [Op(if n.Node? && n.kind == PostIncr then Incr else Decr)] + rest
  }

  lemma PostAsked(nl: bool, pr: bool, n: Node, rest: seq<Sym>)
    requires Wanted(pr, n, 1, rest)
    ensures Rank(n) == 1 ==>
              && n.a.Node? && Wanted(pr, n.a, 0, PostRest(n, rest)) && Show(nl, n, rest) == Show(nl, n.a, PostRest(n, rest)) && IsLvalue(n.a)
              && n == OneChild(if n.kind == PostIncr then PostIncr else PostDecr, EndOfFile, n.a)
    ensures Rank(n) != 1 ==> Wanted(pr, n, 0, rest)
    ensures rest != [] ==> rest[0].typ !in {Incr, Decr}
  {
    if Rank(n) == 1 {
      PostShown(nl, pr, n, rest);
      hide Canon, Fits, Show, Rank;
      FitsIsWanted(pr, n.a, 0, PostRest(n, rest));
    } else {
      hide Canon, Rank;
      WantedSooner(pr, n, 0, 1, rest);
    }
  }

  // ---------- membership ----------

  function GroupOf(n: Node): Node {
    if n.Node? then WithList(Group, NoText, n.list) else Null
  }

  function InRest(n: Node, rest: seq<Sym>): seq<Sym> {
    [Op(KwIn)] + ([Word(Name, if n.Node? then n.str else NoText)] + rest)
  }

  lemma InAsked(nl: bool, pr: bool, n: Node, rest: seq<Sym>)
    requires Wanted(pr, n, 9, rest)
    ensures Rank(n) == 9 ==>
              && Wanted(pr, GroupOf(n), 8, InRest(n, rest)) && Show(nl, n, rest) == Show(nl, GroupOf(n), InRest(n, rest))
              && GroupOf(n).Node? && n == WithList(In, n.str, KeysOf(GroupOf(n)))
    ensures Rank(n) != 9 ==> Wanted(pr, n, 8, rest)
    ensures rest != [] ==> rest[0].typ != KwIn
  {
    hide *;
    WantedIs(pr, n, 9, rest);
    InStops(pr, rest);
    if Rank(n) == 9 {
      InShown(nl, pr, n, rest);
      KeysAsGroup(nl, pr, n.list, InRest(n, rest));
      InRestIs(pr, n, rest);
      GroupFits(pr, GroupOf(n));
      FitsIsWanted(pr, GroupOf(n), 8, InRest(n, rest));
    } else {
      WantedSooner(pr, n, 8, 9, rest);
    }
  }

  lemma InStops(pr: bool, rest: seq<Sym>)
    requires Stops(pr, 9, rest)
    ensures rest != [] ==> rest[0].typ != KwIn
  {
  }

  lemma InRestIs(pr: bool, n: Node, rest: seq<Sym>)
    requires n.Node?
    ensures InRest(n, rest) == [Op(KwIn)] + ([Word(Name, n.str)] + rest) && Stops(pr, 8, InRest(n, rest))
    ensures GroupOf(n) == WithList(Group, NoText, n.list)
  {
  }

  lemma GroupFits(pr: bool, n: Node)
    requires Fits(pr, n, 0)
    ensures Fits(pr, n, 8)
  {
    hide Canon, Rank;
  }

  // ---------- conditionals ----------

  function ArmsRest(nl: bool, n: Node, rest: seq<Sym>): seq<Sym> {
    if n.Node? then Show(nl, n.b, LineEnd(nl) + ([Op(Colon)] + Show(nl, n.c, rest))) else rest
  }

  predicate ArmsFit(nl: bool, pr: bool, n: Node, rest: seq<Sym>) {
    n.Node? && Wanted(pr, n.b, 12, LineEnd(nl) + ([Op(Colon)] + Show(nl, n.c, rest))) && Wanted(pr, n.c, 12, rest)
  }

  lemma TernaryAsked(nl: bool, pr: bool, n: Node, rest: seq<Sym>)
    requires Wanted(pr, n, 12, rest)
    ensures Rank(n) == 12 ==>
              && n.a.Node? && Wanted(pr, n.a, 11, [Op(Question)] + ArmsRest(nl, n, rest)) && ArmsFit(nl, pr, n, rest)
              && Show(nl, n, rest) == Show(nl, n.a, [Op(Question)] + ArmsRest(nl, n, rest)) && n == ThreeParts(Ternary, n.a, n.b, n.c)
    ensures Rank(n) != 12 ==> Wanted(pr, n, 11, rest)
    ensures rest != [] ==> rest[0].typ != Question
  {
    if Rank(n) == 12 {
      TernaryShown(nl, pr, n, rest);
      MarksStop(pr);
      hide Canon, Fits, Show, Rank, Continues;
      FitsIsWanted(pr, n.a, 11, [Op(Question)] + ArmsRest(nl, n, rest));
      FitsIsWanted(pr, n.b, 12, LineEnd(nl) + ([Op(Colon)] + Show(nl, n.c, rest)));
      FitsIsWanted(pr, n.c, 12, rest);
    } else {
      hide Canon, Rank;
      WantedSooner(pr, n, 11, 12, rest);
    }
  }

  lemma MarksStop(pr: bool)
    ensures !Continues(pr, Question, 11) && !Continues(pr, Colon, 12) && !Continues(pr, Newline, 12)
  {
  }

  lemma ArmsAre(nl: bool, pr: bool, n: Node, rest: seq<Sym>)
    requires ArmsFit(nl, pr, n, rest)
    ensures n.Node? && n.b.Node? && n.c.Node?
    ensures Wanted(pr, n.b, 12, LineEnd(nl) + ([Op(Colon)] + Show(nl, n.c, rest))) && Wanted(pr, n.c, 12, rest)
    ensures ArmsRest(nl, n, rest) == Show(nl, n.b, LineEnd(nl) + ([Op(Colon)] + Show(nl, n.c, rest)))
  {
    hide Canon, Rank, Stops, Show;
  }

  // ---------- line ends ----------

  /** No expression begins with a line end. */
  lemma ShowIsNoLine(nl: bool, pr: bool, n: Node, rest: seq<Sym>)
    requires n.Node? && Canon(pr, n)
    ensures !Starts(Show(nl, n, rest), Newline)
  {
    hide Canon, Show, First;
    ShowStarts(nl, pr, n, rest);
    FirstStarts(pr, n);
  }

  lemma WantedIsNoLine(nl: bool, pr: bool, n: Node, level: nat, rest: seq<Sym>)
    requires n.Node? && Wanted(pr, n, level, rest)
    ensures !Starts(Show(nl, n, rest), Newline)
  {
    hide *;
    WantedIs(pr, n, level, rest);
    ShowIsNoLine(nl, pr, n, rest);
  }

  lemma ListIsNoLine(nl: bool, pr: bool, list: seq<Node>, i: nat, rest: seq<Sym>)
    requires AllFit(pr, list) && EndsList(rest)
    ensures !Starts(ListRest(nl, list, i, rest), Newline) && !Starts(ItemRest(nl, list, i, rest), Newline)
  {
    ItemRestIsNoLine(nl, list, i, rest);
    if i < |list| {
      ItemShown(nl, pr, list, i, rest);
      hide *;
      WantedIsNoLine(nl, pr, list[i], 13, ItemRest(nl, list, i, rest));
    }
  }

  lemma ItemRestIsNoLine(nl: bool, list: seq<Node>, i: nat, rest: seq<Sym>)
    requires EndsList(rest)
    ensures !Starts(ItemRest(nl, list, i, rest), Newline) && (i >= |list| ==> !Starts(ListRest(nl, list, i, rest), Newline))
  {
    hide ShowList;
  }

  lemma ArgumentsAreNoLine(nl: bool, pr: bool, list: seq<Node>, rest: seq<Sym>)
    requires AllFit(pr, list) && EndsArguments(rest)
    ensures !Starts(ShowList(nl, list, rest), Newline)
  {
    FirstArgument(nl, pr, list, rest);
    hide AllFit, ShowList;
    ListIsNoLine(nl, pr, list, 0, rest);
  }

  lemma LineEndIs(nl: bool, r: seq<Sym>)
    ensures LineEnd(nl) + r == if nl then [Op(Newline)] + r else r
  {
  }

  lemma MarksAreNoLine(r: seq<Sym>)
    ensures !Starts([Op(Colon)] + r, Newline)
  {
  }
}
