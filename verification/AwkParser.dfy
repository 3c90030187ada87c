/** The awk parser (src/awk_parser.c): recursive descent with one token of
    lookahead. Each function returns a tree for the tokens it has taken, as the
    grammar relates them, and one measure, the bytes left and whether a token is
    at hand, goes down through all of them. */
module AwkParser {

  import AwkArrayParams
  import opened AwkAst
  import opened AwkGrammar
  import opened AwkLexer
  import opened AwkListing
  import opened AwkPrinter
  import opened AwkTokens
  import opened AwkTrees
  import opened Wrappers

  // ---------- the tokens of a text ----------

  /** A token as the grammar sees it: ends of lines and of the text are not seen. */
  function SymsOf(tok: Token): seq<Sym> {
    if tok.typ == EndOfFile || tok.typ == Newline then [] else [Sym(tok.typ, tok.text, tok.num)]
  }

  /** The tokens from a lexer state on, up to the first end of the text. */
  function LexAll(src: string, st: State): seq<Sym>
    requires st.pos <= |src| + 1
    decreases |src| + 1 - st.pos
  {
    LexMovesOn(src, st);
    var (tok, next) := Lex(src, st);
    if tok.typ == EndOfFile then [] else SymsOf(tok) + LexAll(src, next)
  }

  function SymOf(tok: Token): Sym {
    Sym(tok.typ, tok.text, tok.num)
  }

  /** All the tokens from a lexer state on, with the ends of lines. */
  function LexLines(src: string, st: State): seq<Sym>
    requires st.pos <= |src| + 1
    decreases |src| + 1 - st.pos
  {
    LexMovesOn(src, st);
    var (tok, next) := Lex(src, st);
    if tok.typ == EndOfFile then [] else [SymOf(tok)] + LexLines(src, next)
  }

  /** Names, calls and literals carry their text, numbers their digits, others nothing. */
  predicate Shaped(tok: Token) {
    if tok.typ == Number then tok.text.NoText?
    else tok.num == "" && (tok.text.Text? <==> tok.typ in {Name, FuncName, BuiltinFunc, StringLit, Ere})
  }

  lemma LexIsShaped(src: string, st: State)
    ensures Shaped(Lex(src, st).0)
  {
    hide SkipGap, NewlineSuppressed, After, LexToken;
    var g := SkipGap(src, st.pos);
    if g.end < |src| {
      TokenIsShaped(src, st.(pos := g.end, line := st.line + g.lines));
    }
  }

  lemma TokenIsShaped(src: string, st: State)
    requires st.pos < |src|
    ensures Shaped(LexToken(src, st).0)
  {
    hide LexWord, LexNumber, LexString, LexEre, LexOperator, StartsNumber, StartsWord, Shaped;
    if StartsWord(src[st.pos]) {
      WordIsShaped(src, st);
      return;
    }
    LiteralIsShaped(src, st);
    OperatorIsShaped(src, st);
  }

  lemma LiteralIsShaped(src: string, st: State)
    requires st.pos < |src|
    ensures StartsNumber(src, st.pos) ==> Shaped(LexNumber(src, st).0)
    ensures Shaped(LexString(src, st).0) && Shaped(LexEre(src, st).0)
  {
    hide StartsNumber, StringBody, NumberEnd, EreEnd, PastClose, After, CString;
  }

  lemma WordIsShaped(src: string, st: State)
    requires st.pos < |src|
    ensures StartsWord(src[st.pos]) ==> Shaped(LexWord(src, st).0)
  {
    if StartsWord(src[st.pos]) {
      var q := RunEnd(src, st.pos, InWord);
      WordTypeIs(src[st.pos..q], At(src, q) == '(');
    }
    hide WordType, After, RunEnd, StartsWord;
  }

  lemma OperatorIsShaped(src: string, st: State)
    requires st.pos < |src|
    ensures Shaped(LexOperator(src, st).0)
  {
  }

  predicate IsWord(t: TokType) {
    t in {Name, FuncName, BuiltinFunc, StringLit, Ere}
  }

  /** A token that is nothing but its type. */
  predicate IsPlain(t: TokType) {
    !IsWord(t) && t != Number && t != Newline && t != EndOfFile
  }

  predicate StartsOperand(t: TokType) {
    t in {Number, StringLit, Ere, Name, FuncName, BuiltinFunc, Dollar, LParen, NotTok, Incr, Decr, Minus, Plus}
  }

  predicate IsAssignment(t: TokType) {
    t in {AssignTok, AddAssign, SubAssign, MulAssign, DivAssign, ModAssign, PowAssign}
  }

  lemma OperandLoops(pr: bool, t: TokType)
    ensures StartsOperand(t) <==> Loops(pr, t, 5)
    ensures IsAssignment(t) <==> OnceOp(pr, t, 13)
  {
  }

  lemma OperandIsToken(t: TokType)
    ensures StartsOperand(t) ==> t != EndOfFile
  {
  }

  lemma AssignmentIsPlain(t: TokType)
    ensures IsAssignment(t) ==> IsPlain(t) && t in {AssignTok, AddAssign, SubAssign, MulAssign, DivAssign, ModAssign, PowAssign}
  {
  }

  lemma PlainMarks()
    ensures IsPlain(LBrace) && IsPlain(RBrace) && IsPlain(LParen) && IsPlain(RParen) && IsPlain(LBracket) && IsPlain(RBracket)
    ensures IsPlain(Semi) && IsPlain(Comma) && IsPlain(Dollar) && IsPlain(NotTok) && IsPlain(Question) && IsPlain(Colon)
    ensures IsPlain(Plus) && IsPlain(Minus) && IsPlain(Star) && IsPlain(Slash) && IsPlain(Percent) && IsPlain(Caret)
    ensures IsPlain(Incr) && IsPlain(Decr) && IsPlain(OrOr) && IsPlain(AndAnd) && IsPlain(MatchTok) && IsPlain(NoMatch)
    ensures IsPlain(Less) && IsPlain(LessEq) && IsPlain(Greater) && IsPlain(GreaterEq) && IsPlain(Equal) && IsPlain(NotEqual)
    ensures IsPlain(Append) && IsPlain(Pipe)
  {
  }

  lemma PlainKeywords()
    ensures IsPlain(KwIn) && IsPlain(KwGetline) && IsPlain(KwDelete) && IsPlain(KwElse) && IsPlain(KwPrint) && IsPlain(KwPrintf)
    ensures IsPlain(KwIf) && IsPlain(KwWhile) && IsPlain(KwDo) && IsPlain(KwFor) && IsPlain(KwReturn) && IsPlain(KwFunction)
    ensures IsPlain(KwBreak) && IsPlain(KwContinue) && IsPlain(KwNext) && IsPlain(KwNextFile) && IsPlain(KwExit)
    ensures IsPlain(KwBegin) && IsPlain(KwEnd)
    ensures IsWord(Name) && IsWord(FuncName) && IsWord(BuiltinFunc) && IsWord(StringLit) && IsWord(Ere)
  {
  }

  /** Marks and keywords are nothing but their type. */
  lemma PlainTokens()
    ensures IsPlain(LBrace) && IsPlain(RBrace) && IsPlain(LParen) && IsPlain(RParen) && IsPlain(LBracket) && IsPlain(RBracket)
    ensures IsPlain(Semi) && IsPlain(Comma) && IsPlain(Dollar) && IsPlain(NotTok) && IsPlain(Question) && IsPlain(Colon)
    ensures IsPlain(Plus) && IsPlain(Minus) && IsPlain(Star) && IsPlain(Slash) && IsPlain(Percent) && IsPlain(Caret)
    ensures IsPlain(Incr) && IsPlain(Decr) && IsPlain(OrOr) && IsPlain(AndAnd) && IsPlain(MatchTok) && IsPlain(NoMatch)
    ensures IsPlain(Less) && IsPlain(LessEq) && IsPlain(Greater) && IsPlain(GreaterEq) && IsPlain(Equal) && IsPlain(NotEqual)
    ensures IsPlain(Append) && IsPlain(Pipe)
    ensures IsPlain(KwIn) && IsPlain(KwGetline) && IsPlain(KwDelete) && IsPlain(KwElse) && IsPlain(KwPrint) && IsPlain(KwPrintf)
    ensures IsPlain(KwIf) && IsPlain(KwWhile) && IsPlain(KwDo) && IsPlain(KwFor) && IsPlain(KwReturn) && IsPlain(KwFunction)
    ensures IsPlain(KwBreak) && IsPlain(KwContinue) && IsPlain(KwNext) && IsPlain(KwNextFile) && IsPlain(KwExit)
    ensures IsPlain(KwBegin) && IsPlain(KwEnd)
    ensures IsWord(Name) && IsWord(FuncName) && IsWord(BuiltinFunc) && IsWord(StringLit) && IsWord(Ere)
  {
    hide *;
    PlainMarks();
    PlainKeywords();
  }

  /** One token of the text, and what is behind it. */
  lemma LexAllStep(src: string, st: State)
    requires st.pos <= |src| + 1
    ensures var (tok, next) := Lex(src, st);
            && next.pos <= |src| + 1
            && LexAll(src, st) == (if tok.typ == EndOfFile then [] else SymsOf(tok) + LexAll(src, next))
            && LexLines(src, st) == (if tok.typ == EndOfFile then [] else [SymOf(tok)] + LexLines(src, next))
  {
    LexMovesOn(src, st);
    hide Lex, SymsOf;
  }

  lemma SeenToken(tok: Token)
    requires tok.typ != EndOfFile && tok.typ != Newline
    ensures SymsOf(tok) == [SymOf(tok)]
  {
  }

  lemma NextToken(src: string, st: State, y: Sym, r: seq<Sym>)
    requires st.pos <= |src| + 1 && LexLines(src, st) == [y] + r
    ensures Lex(src, st).0.typ == y.typ
  {
    hide *;
    LexAllStep(src, st);
    var (tok, next) := Lex(src, st);
    if tok.typ != EndOfFile {
      SameFirst(SymOf(tok), LexLines(src, next), y, r);
      SymHasType(tok);
    }
  }

  lemma SameFirst(x: Sym, s: seq<Sym>, y: Sym, r: seq<Sym>)
    requires [x] + s == [y] + r
    ensures x == y && s == r
  {
    assert ([x] + s)[0] == x && ([y] + r)[0] == y;
    assert ([x] + s)[1..] == s && ([y] + r)[1..] == r;
  }

  lemma OpHasType(t: TokType)
    ensures Op(t).typ == t
  {
  }

  lemma LiteralIs(pr: bool, w: Node, tok: Token)
    requires w.Node? && Canon(pr, w) && w.kind in {NumLit, StrLit, Regex} && SymOf(tok) == LeafSym(w)
    ensures Literal(tok) == w
  {
    LiteralShown(false, pr, w, []);
  }

  lemma SymHasType(tok: Token)
    ensures SymOf(tok).typ == tok.typ
  {
  }

  // ---------- regrouping ----------

  lemma Took(t: seq<Sym>, s: seq<Sym>, x: seq<Sym>)
    ensures (t + s) + x == t + (s + x)
  {
  }

  lemma Took3(t: seq<Sym>, s: seq<Sym>, x: seq<Sym>, y: seq<Sym>)
    ensures ((t + s) + x) + y == t + ((s + x) + y)
  {
  }

  lemma TookNothing(t: seq<Sym>)
    ensures t + [] == t && [] + t == t
  {
  }

  lemma IfTokens(z: seq<Sym>, k: seq<Sym>, c: seq<Sym>, t: seq<Sym>, m: seq<Sym>, e: seq<Sym>)
    ensures ((((z + k) + c) + t) + m) + e == z + (k + c + t + m + e)
  {
  }

  lemma ForHead(z: seq<Sym>, u: seq<Sym>)
    ensures ((z + [Op(KwFor)]) + [Op(LParen)]) + u == z + ([Op(KwFor)] + [Op(LParen)] + u)
  {
  }

  lemma ForPieces(z: seq<Sym>, i: seq<Sym>, c: seq<Sym>, p: seq<Sym>, t: seq<Sym>)
    ensures ((((((z + i) + [Op(Semi)]) + c) + [Op(Semi)]) + p) + [Op(RParen)]) + t
         == z + (i + [Op(Semi)] + c + [Op(Semi)] + p + [Op(RParen)] + t)
  {
  }

  lemma ForInPieces(z: seq<Sym>, x: seq<Sym>, y: seq<Sym>, t: seq<Sym>)
    ensures ((((z + x) + [Op(KwIn)]) + y) + [Op(RParen)]) + t == z + (x + [Op(KwIn)] + y + [Op(RParen)] + t)
  {
  }

  lemma FuncTokens(z: seq<Sym>, w: seq<Sym>, u: seq<Sym>, v: seq<Sym>)
    ensures (((((z + [Op(KwFunction)]) + w) + [Op(LParen)]) + u) + [Op(RParen)]) + v
         == z + ([Op(KwFunction)] + w + [Op(LParen)] + u + [Op(RParen)] + v)
  {
  }

  lemma OneItem(items: seq<Node>)
    requires |items| == 1
    ensures items == [items[0]] && items != []
  {
  }

  lemma ParensAre(e: Node, u: seq<Sym>)
    requires Tree(e, 13, false, u)
    ensures InParens(e, [Op(LParen)] + u + [Op(RParen)])
  {
    hide Tree;
  }

  function RedirectFor(t: TokType): Redirect {
    if t == Append then ToAppend else if t == Pipe then ToPipe else ToFile
  }

  lemma RedirectTokens()
    ensures RedirectSym(RedirectFor(Greater)) == Greater && RedirectSym(RedirectFor(Append)) == Append
    ensures RedirectSym(RedirectFor(Pipe)) == Pipe
    ensures forall t :: RedirectFor(t) != NoRedirect
  {
  }

  lemma NoParameters()
    ensures Parameters([], [])
  {
  }

  lemma OneParameter(name: Text)
    requires name.Text?
    ensures Parameters([name.chars], [Word(Name, name)])
  {
  }

  lemma CallTokens(t: seq<Sym>, s: seq<Sym>, u: seq<Sym>)
    ensures (((t + s) + [Op(LParen)]) + u) + [Op(RParen)] == t + (s + [Op(LParen)] + u + [Op(RParen)])
  {
  }

  lemma TernaryTokens(t: seq<Sym>, s: seq<Sym>, u: seq<Sym>, v: seq<Sym>)
    ensures ((((t + s) + [Op(Question)]) + u) + [Op(Colon)]) + v == t + (s + [Op(Question)] + u + [Op(Colon)] + v)
  {
  }

  lemma PlainNotEnd(t: TokType)
    ensures IsPlain(t) ==> t != EndOfFile
  {
  }

  lemma LiteralTokens(tok: Token)
    requires tok.typ == Number || ((tok.typ == StringLit || tok.typ == Ere) && tok.text.Text?)
    ensures IsLiteral(tok)
  {
  }

  lemma TreesAreArguments(list: seq<Node>, u: seq<Sym>)
    requires Trees(list, 13, false, u)
    ensures ArgumentTrees(list, u)
  {
    hide List;
  }

  lemma NameIsLvalue(name: Text, list: seq<Node>)
    ensures IsLvalue(WithList(ArrayRef, name, list)) && IsLvalue(Leaf(VarRef, name))
  {
  }

  lemma FieldIsTarget(pr: bool, a: Node, s: seq<Sym>)
    requires Tree(Prefix(Dollar, a), 0, pr, s)
    ensures TargetTree(Prefix(Dollar, a), pr, s)
  {
    hide Tree;
    TargetOf(pr, Prefix(Dollar, a), s);
  }

  // ---------- the parser ----------

  class Parser {
    const lx: Lexer
    var cur: Token
    var printCtx: bool
    var error: bool
    /** Whether the tree that is asked for is printed with line ends where they may stand. */
    ghost var lines: bool
    /** The tokens taken so far, and all the tokens of the text. */
    ghost var taken: seq<Sym>
    ghost const all: seq<Sym>

    constructor (src: string, ghost lines: bool := false)
      requires NulFree(src)
      ensures Valid() && fresh(lx) && !error && !printCtx && taken == [] && all == LexAll(src, START)
      ensures At(LexLines(src, START)) && this.lines == lines
    {
      lx := new Lexer(src);
      printCtx, error := false, false;
      taken, all := [], LexAll(src, START);
      this.lines := lines;
      new;
      LexIsShaped(lx.src, lx.St());
      LexMovesOn(lx.src, lx.St());
      LexAllStep(src, START);
      cur := lx.Next();
      TookNothing(Ahead());
    }

    /** The tokens still to come, beginning with the one at hand. */
    ghost function Ahead(): seq<Sym>
      requires lx.pos <= |lx.src| + 1
      reads this`cur, lx
    {
      if cur.typ == EndOfFile then [] else SymsOf(cur) + LexAll(lx.src, lx.St())
    }

    /** The same, with the ends of lines. */
    ghost function LinesAhead(): seq<Sym>
      requires lx.pos <= |lx.src| + 1
      reads this`cur, lx
    {
      if cur.typ == EndOfFile then [] else [SymOf(cur)] + LexLines(lx.src, lx.St())
    }

    /** Without an error, nothing of the text is lost between taken and ahead. */
    ghost predicate Valid()
      reads this`cur, this`error, this`taken, lx
    {
      lx.Valid() && Shaped(cur) && (!error ==> taken + Ahead() == all)
    }

    // ----- reading back a tree that is known -----
    // The ghost arguments `w` and `rest` of the methods below are a tree that may be
    // asked for and the tokens behind it; Null, or an empty list, asks for nothing.

    /** No error so far, and just these tokens ahead, ends of lines included. */
    ghost predicate At(s: seq<Sym>)
      reads this`cur, this`error, lx
    {
      lx.pos <= |lx.src| + 1 && !error && LinesAhead() == s
    }

    /** The token at hand, and these behind it. */
    ghost predicate AtThen(r: seq<Sym>)
      reads this`cur, this`error, lx
    {
      cur.typ != EndOfFile && At([SymOf(cur)] + r)
    }

    lemma HereIs(x: Sym, r: seq<Sym>)
      requires At([x] + r)
      ensures cur.typ == x.typ && cur.text == x.text && cur.num == x.num && SymOf(cur) == x && AtThen(r)
    {
      hide Lex, LexLines;
      assert ([x] + r)[0] == x;
      assert cur.typ != EndOfFile;
      assert LinesAhead()[0] == SymOf(cur);
    }

    lemma OpHere(x: TokType, r: seq<Sym>)
      requires At([Op(x)] + r)
      ensures cur.typ == x && AtThen(r)
    {
      hide At, AtThen;
      HereIs(Op(x), r);
    }

    lemma WordHere(x: TokType, text: Text, r: seq<Sym>)
      requires At([Word(x, text)] + r)
      ensures cur.typ == x && cur.text == text && AtThen(r)
    {
      hide At, AtThen;
      HereIs(Word(x, text), r);
    }

    lemma HereStarts(s: seq<Sym>)
      requires At(s)
      ensures if s == [] then cur.typ == EndOfFile else cur.typ == s[0].typ
    {
      hide Lex, LexLines;
      assert cur.typ != EndOfFile ==> |LinesAhead()| > 0 && LinesAhead()[0] == SymOf(cur);
    }

    lemma NextIs(x: Sym, y: Sym, r: seq<Sym>)
      requires At([x] + ([y] + r))
      ensures Lex(lx.src, lx.St()).0.typ == y.typ
    {
      hide Lex, LexLines;
      HereIs(x, [y] + r);
      SameFirst(SymOf(cur), LexLines(lx.src, lx.St()), x, [y] + r);
      NextToken(lx.src, lx.St(), y, r);
    }

    /** A name is followed by a bracket exactly if it has subscripts. */
    lemma NameHere(w: Node, rest: seq<Sym>)
      requires w.Node? && w.kind in {VarRef, ArrayRef} && At(NameRest(w, rest)) && Stops(printCtx, 0, rest)
      ensures cur.typ == LBracket <==> w.kind == ArrayRef
      ensures w.kind == ArrayRef ==> AtThen(ListRest(false, w.list, 0, [Op(RBracket)] + rest))
      ensures w.kind == VarRef ==> At(rest)
    {
      hide At, AtThen, ListRest;
      if w.kind == ArrayRef {
        OpHere(LBracket, ListRest(false, w.list, 0, [Op(RBracket)] + rest));
      } else {
        HereStarts(rest);
      }
    }

    /** Behind the i-th expression of a list stands a comma exactly if there are more. */
    lemma BehindItem(ws: seq<Node>, i: nat, rest: seq<Sym>)
      requires i < |ws| && EndsList(rest) && At(ItemRest(lines, ws, i, rest))
      ensures cur.typ == Comma <==> i + 1 < |ws|
      ensures if i + 1 < |ws| then AtThen(ListRest(lines, ws, i + 1, rest)) else At(ListRest(lines, ws, i + 1, rest))
    {
      hide ShowList, At, AtThen;
      if i + 1 < |ws| {
        OpHere(Comma, ListRest(lines, ws, i + 1, rest));
      } else {
        HereStarts(rest);
      }
    }

    /** The first token of what is to be read. */
    lemma StartsHere(w: Node, rest: seq<Sym>)
      requires w.Node? && Canon(printCtx, w) && At(Show(lines, w, rest))
      ensures cur.typ == First(w)
    {
      hide *;
      ShowStarts(lines, printCtx, w, rest);
      HereStarts(Show(lines, w, rest));
    }

    /** The token at hand tells whether the loop of a level goes on. */
    lemma LoopHere(w: Node, level: nat, k: nat, rest: seq<Sym>)
      requires w.Node? && Wanted(printCtx, w, level, rest) && level in {3, 4, 5, 7, 8, 10, 11} && k <= Spine(w, level)
      requires At(Tails(lines, w, level, k, rest))
      ensures k > 0 <==> Loops(printCtx, cur.typ, level)
    {
      hide *;
      SpineLoops(lines, printCtx, w, level, k, rest);
      HereStarts(Tails(lines, w, level, k, rest));
      NoLoopAtEnd(printCtx, level);
    }

    static lemma NoLoopAtEnd(pr: bool, level: nat)
      ensures !Loops(pr, EndOfFile, level)
    {
    }

    /** One more turn: the operator is at hand and its right operand behind it. */
    lemma TurnHere(w: Node, level: nat, k: nat, rest: seq<Sym>)
      requires w.Node? && Wanted(printCtx, w, level, rest) && level in {3, 4, 5, 8, 10, 11} && 0 < k <= Spine(w, level)
      requires At(Tails(lines, w, level, k, rest))
      ensures var p, r := Upper(w, level, k), Behind(lines, w, level, k, rest);
              && p.Node? && Canon(printCtx, p) && Infix(p, level) && p.a == Down(w, level, k) && p.b.Node? && Wanted(printCtx, p.b, level - 1, r)
              && if level == 5 then At(Show(lines, p.b, r)) else cur.typ == OperatorOf(p) && AtThen(Show(lines, p.b, r))
    {
      hide At, AtThen, Canon, Show, Wanted, Spine, Down, Tails, Infix, Upper, Behind, OperatorOf;
      TurnShown(lines, printCtx, w, level, k, rest);
      var p, r := Upper(w, level, k), Behind(lines, w, level, k, rest);
      InfixMade(printCtx, p, level);
      if level != 5 {
        OpHere(OperatorOf(p), Show(lines, p.b, r));
      }
    }

    /** What a loop's first call is to read: the innermost left operand. */
    lemma LoopStart(w: Node, level: nat, rest: seq<Sym>)
      requires level in {3, 4, 5, 7, 8, 10, 11}
      requires w.Node? ==> Wanted(printCtx, w, level, rest) && At(Show(lines, w, rest))
      ensures var k := Spine(w, level);
              if w.Null? then Down(w, level, k).Null?
              else
                && Down(w, level, k).Node? && Wanted(printCtx, Down(w, level, k), level - 1, Tails(lines, w, level, k, rest))
                && At(Show(lines, Down(w, level, k), Tails(lines, w, level, k, rest)))
    {
      hide *;
      SpineOfNull(lines, level, rest);
      if w.Node? {
        WantedLooped(printCtx, w, level, rest);
        SpineEnd(lines, printCtx, w, level, rest);
      }
    }

    /** The loop stops where the tree that is asked for is complete. */
    lemma LoopStop(w: Node, level: nat, k: nat, rest: seq<Sym>)
      requires level in {3, 4, 5, 7, 8, 10, 11} && k <= Spine(w, level)
      requires w.Node? ==>
                 Wanted(printCtx, w, level, rest) && At(Tails(lines, w, level, k, rest)) && !Loops(printCtx, cur.typ, level)
      ensures w.Node? ==> Down(w, level, k) == w && At(rest)
    {
      hide *;
      if w.Node? {
        LoopHere(w, level, k, rest);
        LoopDone(lines, w, level, rest);
      }
    }

    /** One more turn of a loop: what its call is to read, and what it makes. */
    lemma TurnReady(w: Node, level: nat, k: nat, rest: seq<Sym>)
      requires level in {3, 4, 5, 8, 10, 11} && k <= Spine(w, level)
      requires w.Node? ==> Wanted(printCtx, w, level, rest) && At(Tails(lines, w, level, k, rest)) && Loops(printCtx, cur.typ, level)
      ensures var p, r := Upper(w, level, k), Behind(lines, w, level, k, rest);
              if w.Null? then PartB(p).Null?
              else
                && k > 0 && PartB(p).Node? && Wanted(printCtx, PartB(p), level - 1, r) && Tails(lines, w, level, k - 1, rest) == r
                && (if level == 5 then At(Show(lines, PartB(p), r)) else AtThen(Show(lines, PartB(p), r)))
                && (level in {3, 4} ==> Down(w, level, k - 1) == Binary(BinOp, cur.typ, Down(w, level, k), PartB(p)))
                && (level == 5 ==> Down(w, level, k - 1) == Binary(Concat, EndOfFile, Down(w, level, k), PartB(p)))
                && (level == 8 ==> Down(w, level, k - 1) == MatchNode(cur.typ == NoMatch, Down(w, level, k), PartB(p)))
                && (level == 10 ==> Down(w, level, k - 1) == Binary(And, EndOfFile, Down(w, level, k), PartB(p)))
                && (level == 11 ==> Down(w, level, k - 1) == Binary(Or, EndOfFile, Down(w, level, k), PartB(p)))
    {
      hide *;
      var p := Upper(w, level, k);
      PartsAre(p);
      UpperOfNull(w, level, k);
      if w.Node? {
        LoopHere(w, level, k, rest);
        TurnHere(w, level, k, rest);
        InfixMade(printCtx, p, level);
        TurnIs(lines, w, level, k, rest);
      }
    }

    /** The token at hand tells whether the operator that is looked for once is there. */
    lemma OnceHere(w: Node, level: nat, rest: seq<Sym>)
      requires level in {2, 6, 13} && w.Node? && Wanted(printCtx, w, level, rest) && At(HeadRest(lines, w, level, rest))
      ensures Once(w, level) <==> OnceOp(printCtx, cur.typ, level)
      ensures Once(w, level) ==> cur.typ == w.op && AtThen(OperandRest(lines, w, level, rest))
      ensures !Once(w, level) ==> At(OperandRest(lines, w, level, rest))
    {
      hide At, AtThen, Wanted, Once, Show;
      OnceShown(lines, printCtx, w, level, rest);
      if Once(w, level) {
        OpHere(w.op, OperandRest(lines, w, level, rest));
      } else {
        HereStarts(rest);
        NoOnceAtEnd(printCtx, level);
      }
    }

    static lemma NoOnceAtEnd(pr: bool, level: nat)
      ensures !OnceOp(pr, EndOfFile, level)
    {
    }

    lemma NoErrorHere(s: seq<Sym>)
      requires At(s) || AtThen(s)
      ensures !error
    {
      hide LexLines;
    }

    /** Behind what getline reads into stands `<` exactly if it names a file. */
    lemma FileHere(w: Node, rest: seq<Sym>)
      requires GetlineFits(printCtx, w, rest) && At(TargetRest(lines, w, rest))
      ensures cur.typ == Less <==> w.source == FromFile
      ensures if w.source == FromFile then AtThen(FileRest(lines, w, rest)) else At(FileRest(lines, w, rest))
    {
      hide At, AtThen, Canon, Show, Stops;
      StopsTarget(printCtx, rest);
      if w.source == FromFile {
        OpHere(Less, Show(lines, w.b, rest));
      } else {
        HereStarts(rest);
      }
    }

    lemma TargetHere(w: Node, rest: seq<Sym>)
      requires TargetFits(printCtx, w) && EndsTarget(rest) && At(Show(lines, w, rest))
      ensures w.Node? <==> cur.typ == Name || cur.typ == Dollar
      ensures w.Null? ==> At(rest)
    {
      hide At, Canon, Rank;
      if w.Node? {
        TargetKinds(printCtx, w, rest);
        StartsHere(w, rest);
      } else {
        HereStarts(rest);
      }
    }

    lemma ArgumentsHere(ws: seq<Node>, rest: seq<Sym>)
      requires AllFit(printCtx, ws) && EndsArguments(rest) && At(ShowList(lines, ws, rest))
      ensures EndsList(rest) && At(ListRest(lines, ws, 0, rest)) && (cur.typ == RParen <==> ws == []) && (ws == [] ==> At(rest))
    {
      hide At, AllFit, ListRest;
      FirstArgument(lines, printCtx, ws, rest);
      HereStarts(ShowList(lines, ws, rest));
    }

    /** The token at hand tells whether an increment is still to come. */
    lemma PostHere(w: Node, rest: seq<Sym>, todo: bool)
      requires Wanted(printCtx, w, 1, rest) && At(if todo then PostRest(w, rest) else rest) && (todo ==> Rank(w) == 1)
      ensures todo <==> cur.typ == Incr || cur.typ == Decr
      ensures todo ==> AtThen(rest) && (cur.typ == Incr <==> w.kind == PostIncr)
    {
      hide At, AtThen, Wanted, Rank;
      PostAsked(lines, printCtx, w, rest);
      if todo {
        OpHere(if w.Node? && w.kind == PostIncr then Incr else Decr, rest);
      } else {
        HereStarts(rest);
      }
    }

    lemma InHere(w: Node, rest: seq<Sym>, todo: bool)
      requires Wanted(printCtx, w, 9, rest) && At(if todo then InRest(w, rest) else rest)
      ensures todo <==> cur.typ == KwIn
      ensures todo ==> AtThen([Word(Name, if w.Node? then w.str else NoText)] + rest)
    {
      hide At, AtThen, Wanted, Rank, Word;
      InAsked(lines, printCtx, w, rest);
      if todo {
        OpHere(KwIn, [Word(Name, if w.Node? then w.str else NoText)] + rest);
      } else {
        HereStarts(rest);
      }
    }

    lemma TernaryHere(w: Node, rest: seq<Sym>)
      requires Wanted(printCtx, w, 12, rest) && At(if Rank(w) == 12 then [Op(Question)] + ArmsRest(lines, w, rest) else rest)
      ensures Rank(w) == 12 <==> cur.typ == Question
      ensures if Rank(w) == 12 then AtThen(ArmsRest(lines, w, rest)) else At(rest)
    {
      hide At, AtThen, Wanted, Rank, ArmsRest;
      WantedIs(printCtx, w, 12, rest);
      TernaryAsked(lines, printCtx, w, rest);
      if Rank(w) == 12 {
        OpHere(Question, ArmsRest(lines, w, rest));
      } else {
        HereStarts(rest);
      }
    }

    /** One more command piped into getline: what is read for it, and what it makes. */
    lemma PipeReady(w: Node, k: nat, rest: seq<Sym>)
      requires w.Node? && Wanted(printCtx, w, 7, rest) && k <= Spine(w, 7) && At(Tails(lines, w, 7, k, rest)) && IsPiped()
      ensures var p, r := Piped(Upper(w, 7, k)), Behind(lines, w, 7, k, rest);
              && k > 0 && p.Node? && GetlineFits(printCtx, p, r) && AtThen(Show(lines, p, r))
              && Down(w, 7, k - 1) == GetlineNode(p.a, FromCommand, Down(w, 7, k)) && Tails(lines, w, 7, k - 1, rest) == r
    {
      hide *;
      PipeHere(w, k, rest);
      PipedTurn(lines, printCtx, w, k, rest);
      TurnIs(lines, w, 7, k, rest);
    }

    /** One more turn of the loop, whether a tree is asked for or not. */
    lemma PipeNext(w: Node, k: nat, rest: seq<Sym>)
      requires k <= Spine(w, 7) && IsPiped() && (w.Node? ==> Wanted(printCtx, w, 7, rest) && At(Tails(lines, w, 7, k, rest)))
      ensures !printCtx && cur.typ == Pipe && Lex(lx.src, lx.St()).0.typ == KwGetline
      ensures var p, r := Piped(Upper(w, 7, k)), Behind(lines, w, 7, k, rest);
              if w.Null? then p.Null?
              else
                && k > 0 && p.Node? && GetlineFits(printCtx, p, r) && AtThen(Show(lines, p, r))
                && Down(w, 7, k - 1) == GetlineNode(p.a, FromCommand, Down(w, 7, k)) && Tails(lines, w, 7, k - 1, rest) == r
    {
      hide *;
      PipedNow();
      if w.Node? {
        PipeReady(w, k, rest);
      } else {
        NoPipe(w, k);
      }
    }

    static lemma NoPipe(w: Node, k: nat)
      requires w.Null?
      ensures Piped(Upper(w, 7, k)) == Null
    {
      UpperOfNull(w, 7, k);
      PipedNull(Null);
    }

    /** What is ahead tells whether another command is piped into getline. */
    lemma PipeHere(w: Node, k: nat, rest: seq<Sym>)
      requires w.Node? && Wanted(printCtx, w, 7, rest) && k <= Spine(w, 7) && At(Tails(lines, w, 7, k, rest))
      ensures k > 0 <==> IsPiped()
      ensures k > 0 ==> AtThen(Show(lines, Piped(Upper(w, 7, k)), Behind(lines, w, 7, k, rest)))
      ensures k == 0 ==> At(rest)
    {
      hide *;
      PipedNow();
      LoopHere(w, 7, k, rest);
      LoopTokens(printCtx, cur.typ);
      LoopDone(lines, w, 7, rest);
      if k > 0 {
        PipedTurn(lines, printCtx, w, k, rest);
        var p, r := Upper(w, 7, k), Behind(lines, w, 7, k, rest);
        OpHere(Pipe, [Op(KwGetline)] + Show(lines, p.a, r));
        NextIs(Op(Pipe), Op(KwGetline), Show(lines, p.a, r));
        OpHasType(KwGetline);
      }
    }

    // ----- reading back a statement that is known -----

    /** The tokens `r` are ahead, or what ends a statement and then `r`. */
    ghost predicate Past(r: seq<Sym>)
      reads this`cur, this`error, lx
    {
      At([Op(Semi)] + r) || At([Op(Newline)] + r) || At(r)
    }

    lemma PastTerm(r: seq<Sym>)
      requires At([Op(Term(lines))] + r)
      ensures Past(r)
    {
      hide At;
    }

    lemma PastHere(r: seq<Sym>)
      requires At(r)
      ensures Past(r)
    {
      hide At;
    }

    lemma TermHere(r: seq<Sym>)
      requires Past(r) && !Starts(r, Semi) && !Starts(r, Newline)
      ensures if cur.typ == Semi || cur.typ == Newline then AtThen(r) else At(r)
    {
      hide At, AtThen;
      if At(r) {
        HereStarts(r);
      } else if At([Op(Semi)] + r) {
        OpHere(Semi, r);
      } else {
        OpHere(Newline, r);
      }
    }

    /** Behind the end of one statement stands no other. */
    lemma NotAgain(r: seq<Sym>)
      requires At(r) && !Starts(r, Semi) && !Starts(r, Newline)
      ensures cur.typ != Newline && cur.typ != Semi
    {
      hide At;
      HereStarts(r);
    }

    lemma PrintedHere(ws: seq<Node>, rest: seq<Sym>)
      requires AllPlain(ws) && EndsPrinted(ws, rest) && At(ShowList(lines, ws, rest))
      ensures cur.typ in {Greater, Append, Pipe, Semi, Newline, RBrace, EndOfFile} <==> ws == []
      ensures At(ListRest(lines, ws, 0, rest)) && (ws == [] ==> At(rest))
    {
      PrintedStarts(lines, ws, rest);
      NoMoreItems(lines, ws, rest);
      hide At, AllPlain, ShowList, ListRest;
      HereStarts(ShowList(lines, ws, rest));
    }

    lemma BehindPrinted(ws: seq<Node>, i: nat, rest: seq<Sym>)
      requires i < |ws| && EndsPrinted(ws, rest) && At(ItemRest(lines, ws, i, rest))
      ensures cur.typ == Comma <==> i + 1 < |ws|
      ensures if i + 1 < |ws| then AtThen(ListRest(lines, ws, i + 1, rest)) else At(ListRest(lines, ws, i + 1, rest))
    {
      hide ShowList, At, AtThen;
      if i + 1 < |ws| {
        OpHere(Comma, ListRest(lines, ws, i + 1, rest));
      } else {
        HereStarts(rest);
      }
    }

    lemma RedirectHere(r: Redirect, w: Node, rest: seq<Sym>)
      requires CanonRedirect(r, w) && EndsSimple(rest) && At(ShowRedirect(lines, r, w, rest))
      ensures cur.typ in {Greater, Append, Pipe} <==> r != NoRedirect
      ensures if r == NoRedirect then w.Null? && At(rest)
              else RedirectFor(cur.typ) == r && AtThen(Show(lines, w, rest)) && w.Node? && Wanted(false, w, 12, rest)
    {
      RedirectShown(lines, r, w, rest);
      hide At, AtThen, Show, CanonRedirect, ShowRedirect, Wanted;
      if r == NoRedirect {
        HereStarts(rest);
      } else {
        OpHere(RedirectSym(r), Show(lines, w, rest));
      }
    }

    lemma DeletedHere(w: Node, rest: seq<Sym>)
      requires w.Node? && w.kind in {Delete, DeleteAll} && EndsSimple(rest) && At(DeletedTail(w, rest))
      ensures cur.typ == LBracket <==> w.kind == Delete
      ensures w.kind == Delete ==> AtThen(ListRest(false, w.list, 0, [Op(RBracket)] + rest))
      ensures w.kind == DeleteAll ==> At(rest) && cur.typ != LParen
    {
      hide At, AtThen, ListRest;
      if w.kind == Delete {
        OpHere(LBracket, ListRest(false, w.list, 0, [Op(RBracket)] + rest));
      } else {
        HereStarts(rest);
      }
    }

    lemma SimpleHere(w: Node, rest: seq<Sym>)
      requires SimpleFits(w, rest) && At(ShowSimple(lines, w, rest))
      ensures w.Node? && (cur.typ == KwPrint <==> w.kind == Print) && (cur.typ == KwPrintf <==> w.kind == Printf)
      ensures cur.typ == KwDelete <==> w.kind in {Delete, DeleteAll}
      ensures cur.typ !in {EndOfFile, Newline, Semi, RParen}
      ensures w.kind !in {Print, Printf, Delete, DeleteAll} ==>
                && w == OneChild(ExprStmt, EndOfFile, w.a) && w.a.Node? && Wanted(false, w.a, 13, rest) && At(Show(lines, w.a, rest))
    {
      SimpleStarts(lines, w, rest);
      hide At, SimpleFits, ShowSimple, Show, Wanted;
      HereStarts(ShowSimple(lines, w, rest));
    }

    lemma ElseHere(w: Node, r: seq<Sym>)
      requires (w.Null? ==> !Starts(r, KwElse)) && At(ShowElse(lines, w, r))
      ensures cur.typ == KwElse <==> w.Node?
      ensures w.Node? ==> AtThen(ShowStmt(lines, w, r))
      ensures w.Null? ==> Past(r)
    {
      hide At, AtThen, ShowStmt;
      if w.Node? {
        OpHere(KwElse, ShowStmt(lines, w, r));
      } else {
        HereStarts(r);
      }
    }

    /** A second token tells `for (x in a)` from the other loops. */
    lemma ForKindHere(w: Node, r: seq<Sym>)
      requires w.Node? && w.kind in {For, ForIn} && StmtFits(w, r) && At(ForHeadOf(lines, w, r))
      ensures w.kind == ForIn ==> cur.typ == Name && Lex(lx.src, lx.St()).0.typ == KwIn
      ensures w.kind == For ==> (cur.typ == Name ==> Lex(lx.src, lx.St()).0.typ != KwIn) && At(ForInit(lines, w, r))
    {
      if w.kind == ForIn {
        ForInShown(lines, w, r);
        hide *;
        var body := [Word(Name, w.str2)] + ([Op(RParen)] + (LineEnd(lines) + ShowStmt(lines, w.a, r)));
        WordHere(Name, w.str, [Op(KwIn)] + body);
        NextIs(Word(Name, w.str), Op(KwIn), body);
        OpHasType(KwIn);
      } else {
        ForShown(lines, w, r);
        InitIsNotIn(lines, w, r);
        hide *;
        var s := ForInit(lines, w, r);
        HereStarts(s);
        if cur.typ == Name {
          TwoApart(s);
          NextIs(s[0], s[1], s[2..]);
        }
      }
    }

    static lemma TwoApart(s: seq<Sym>)
      requires |s| >= 2
      ensures s == [s[0]] + ([s[1]] + s[2..])
    {
    }

    lemma PartHere(stop: TokType, w: Node, r: seq<Sym>)
      requires !lines && stop in {Semi, RParen} && (w.Null? || SimpleFits(w, [Op(stop)] + r)) && At(ShowPart(w, [Op(stop)] + r))
      ensures cur.typ == stop <==> w.Null?
      ensures w.Node? ==> SimpleFits(w, [Op(stop)] + r) && At(ShowSimple(lines, w, [Op(stop)] + r))
      ensures w.Null? ==> At([Op(stop)] + r)
    {
      hide At, AtThen, SimpleFits, ShowSimple;
      if w.Node? {
        SimpleHere(w, [Op(stop)] + r);
      } else {
        OpHere(stop, r);
      }
    }

    lemma MaybeHere(w: Node, r: seq<Sym>)
      requires (w.Null? || Fits(false, w, 13)) && At(ShowMaybe(lines, w, [Op(Semi)] + r))
      ensures cur.typ == Semi <==> w.Null?
      ensures w.Node? ==> Wanted(false, w, 13, [Op(Semi)] + r) && At(Show(lines, w, [Op(Semi)] + r))
      ensures w.Null? ==> At([Op(Semi)] + r)
    {
      ValueHere(Semi, w, r);
      hide *;
    }

    lemma ValueHere(stop: TokType, w: Node, r: seq<Sym>)
      requires stop in {Semi, Newline} && (w.Null? || Fits(false, w, 13)) && At(ShowMaybe(lines, w, [Op(stop)] + r))
      ensures w.Node? ==> Wanted(false, w, 13, [Op(stop)] + r) && At(Show(lines, w, [Op(stop)] + r)) && cur.typ == First(w)
      ensures w.Node? ==> (StartsOperand(cur.typ) || cur.typ == KwGetline) && cur.typ != stop
      ensures w.Null? ==> At([Op(stop)] + r) && cur.typ == stop && !StartsOperand(cur.typ)
    {
      hide At, AtThen, Fits, Show, Wanted, First;
      if w.Node? {
        ExpressionStarts(lines, w, [Op(stop)] + r);
        HereStarts(Show(lines, w, [Op(stop)] + r));
      } else {
        OpHere(stop, r);
      }
    }

    /** The token at hand tells what kind of statement is to be read. */
    lemma StatementHere(w: Node, r: seq<Sym>)
      requires StmtFits(w, r) && w.Node? && At(ShowStmt(lines, w, r))
      ensures cur.typ !in {EndOfFile, Newline, Semi, RBrace, KwElse}
      ensures cur.typ == LBrace <==> w.kind == Block
      ensures cur.typ == KwIf <==> w.kind == If
      ensures cur.typ == KwWhile <==> w.kind == While
      ensures cur.typ == KwDo <==> w.kind == DoWhile
      ensures cur.typ == KwFor <==> w.kind in {For, ForIn}
      ensures cur.typ in {KwBreak, KwContinue, KwNext, KwNextFile, KwExit, KwReturn} <==> IsJump(w)
      ensures w.kind == Block ==> IsBlock(w) && At(ShowBlock(lines, w, [Op(Term(lines))] + r))
      ensures w.kind !in {Block, If, While, DoWhile, For, ForIn} && !IsJump(w) ==>
                SimpleFits(w, [Op(Term(lines))] + r) && At(ShowSimple(lines, w, [Op(Term(lines))] + r))
    {
      hide *;
      StatementStarts(lines, w, r);
      HereStarts(ShowStmt(lines, w, r));
    }

    /** The token at hand tells whether another statement of the list is to be read. */
    lemma StmtsHere(ws: seq<Node>, i: nat, rest: seq<Sym>)
      requires AllStmts(ws) && i <= |ws| && Starts(rest, RBrace) && At(StmtsFrom(lines, ws, i, rest))
      ensures (cur.typ == RBrace <==> i == |ws|) && cur.typ != EndOfFile && !error
      ensures i == |ws| ==> At(rest) && ws[..i] == ws
    {
      hide At, AllStmts, StmtsFrom;
      StmtsStart(lines, ws, i, rest);
      HereStarts(StmtsFrom(lines, ws, i, rest));
      NoErrorHere(StmtsFrom(lines, ws, i, rest));
    }

    lemma PatternHere(w: Node, r: seq<Sym>)
      requires PatternFits(w, r) && At(ShowPattern(lines, w, r))
      ensures w.Node? && (cur.typ == KwBegin <==> w.pattern == PatBegin) && (cur.typ == KwEnd <==> w.pattern == PatEnd)
      ensures (cur.typ == LBrace <==> w.pattern == PatAlways) && cur.typ !in {EndOfFile, Newline, Semi}
      ensures w.pattern in {PatBegin, PatEnd} ==> AtThen(r)
      ensures w.pattern == PatAlways ==> At(r)
      ensures w.pattern !in {PatExpr, PatRange} ==> w.a.Null? && w.b.Null?
    {
      PatternStarts(lines, w, r);
      hide At, AtThen, PatternFits, ShowPattern;
      HereStarts(ShowPattern(lines, w, r));
      if w.pattern == PatBegin {
        OpHere(KwBegin, r);
      } else if w.pattern == PatEnd {
        OpHere(KwEnd, r);
      }
    }

    lemma RangeHere(w: Node, r: seq<Sym>)
      requires PatternFits(w, r) && w.pattern in {PatExpr, PatRange}
      requires At(if w.pattern == PatRange then [Op(Comma)] + Show(lines, w.b, r) else r)
      ensures cur.typ == Comma <==> w.pattern == PatRange
      ensures w.pattern == PatRange ==> AtThen(Show(lines, w.b, r))
    {
      PatternShown(lines, w, r);
      hide At, AtThen, PatternFits, Show, Wanted;
      if w.pattern == PatRange {
        OpHere(Comma, Show(lines, w.b, r));
      } else {
        HereStarts(r);
      }
    }

    lemma ActionHere(c: Node, r: seq<Sym>)
      requires (c.Null? || IsBlock(c)) && EndsItem(r) && (c.Null? ==> !Starts(r, Newline)) && At(ShowAction(lines, c, r))
      ensures cur.typ == LBrace <==> c.Node?
      ensures c.Node? ==> At(ShowBlock(lines, c, r))
      ensures c.Null? ==> At(r)
    {
      ActionShown(lines, c, r);
      hide At, IsBlock, ShowBlock, ShowAction;
      HereStarts(ShowAction(lines, c, r));
    }

    lemma ParametersHere(ps: seq<string>, rest: seq<Sym>)
      requires Starts(rest, RParen) && At(ShowParameters(ps, rest))
      ensures ps == [] ==> cur.typ == RParen && At(rest)
      ensures ps != [] ==> cur.typ == Name && cur.text == Text(ps[0]) && AtThen(BehindParameter(ps, 0, rest))
    {
      ParametersAll(ps, rest);
      hide At, AtThen, ShowParameters, ParametersFrom, BehindParameter;
      if ps == [] {
        HereStarts(rest);
      } else {
        ParameterHere(ps, 0, rest);
      }
    }

    lemma ParameterHere(ps: seq<string>, i: nat, rest: seq<Sym>)
      requires i < |ps| && At(ParametersFrom(ps, i, rest))
      ensures cur.typ == Name && cur.text == Text(ps[i]) && AtThen(BehindParameter(ps, i, rest))
    {
      ParameterShown(ps, i, rest);
      hide *;
      WordHere(Name, Text(ps[i]), BehindParameter(ps, i, rest));
    }

    lemma CommaHere(ps: seq<string>, i: nat, rest: seq<Sym>)
      requires i < |ps| && Starts(rest, RParen) && At(BehindParameter(ps, i, rest))
      ensures cur.typ == Comma <==> i + 1 < |ps|
      ensures if i + 1 < |ps| then AtThen(ParametersFrom(ps, i + 1, rest)) else At(ParametersFrom(ps, i + 1, rest))
    {
      ParameterShown(ps, i, rest);
      hide At, AtThen, ParametersFrom;
      if i + 1 < |ps| {
        OpHere(Comma, ParametersFrom(ps, i + 1, rest));
      } else {
        HereStarts(rest);
      }
    }

    lemma ItemHere(w: Node, r: seq<Sym>)
      requires ItemFits(w, r) && w.Node? && At(ShowItem(lines, w, r))
      ensures w.kind in {Rule, Func} && (cur.typ == KwFunction <==> w.kind == Func)
    {
      ItemStarts(lines, w, r);
      hide At, ItemFits, ShowItem;
      HereStarts(ShowItem(lines, w, r));
    }

    /** The token at hand tells whether another item is to be read. */
    lemma ItemsHere(ws: seq<Node>, i: nat)
      requires AllItems(ws) && i <= |ws| && At(ItemsFrom(lines, ws, i))
      ensures (cur.typ == EndOfFile <==> i == |ws|) && !error
      ensures i == |ws| ==> ws[..i] == ws
    {
      hide At, AllItems, ItemsFrom;
      ItemsStart(lines, ws, i);
      HereStarts(ItemsFrom(lines, ws, i));
      NoErrorHere(ItemsFrom(lines, ws, i));
    }

    lemma PastItem(ws: seq<Node>, i: nat)
      requires AllItems(ws) && i < |ws| && At(BehindItemOf(lines, ws, i))
      ensures Past(ItemsFrom(lines, ws, i + 1))
    {
      ItemShownAt(lines, ws, i);
      ItemTerms(lines, ws[i]);
      hide At, AllItems, ItemsFrom, BehindItemOf;
    }

    ghost function Rem(): nat
      requires Valid()
      reads this`cur, this`error, this`taken, lx
    {
      |lx.src| + 1 - lx.pos + if cur.typ != EndOfFile then 1 else 0
    }

    method Advance(ghost r: seq<Sym> := [])
      requires Valid() && (error || cur.typ != EndOfFile)
      modifies this`cur, this`taken, lx
      ensures Valid() && Rem() <= old(Rem()) && printCtx == old(printCtx) && lines == old(lines) && error == old(error)
      ensures old(cur.typ) != EndOfFile ==> Rem() < old(Rem())
      ensures cur == Lex(lx.src, old(lx.St())).0
      ensures IsPlain(old(cur.typ)) ==> taken == old(taken) + [Op(old(cur.typ))]
      ensures IsWord(old(cur.typ)) ==> taken == old(taken) + [Word(old(cur.typ), old(cur.text))]
      ensures old(cur.typ) == Number ==> taken == old(taken) + [Sym(Number, NoText, old(cur.num))]
      ensures old(cur.typ) == Newline ==> taken == old(taken)
      ensures old(AtThen(r)) ==> At(r)
    {
      ghost var was, st := cur, lx.St();
      LexMovesOn(lx.src, st);
      LexIsShaped(lx.src, st);
      AheadIs(was);
      ShapedSyms(was);
      LexAllStep(lx.src, st);
      ghost var asked := AtThen(r);
      if asked {
        BehindHere(r);
      }
      hide Lex, Shaped, SymsOf, LexAll, LexLines, IsPlain, IsWord;
      taken := taken + SymsOf(cur);
      cur := lx.Next();
      Took(old(taken), SymsOf(was), Ahead());
      TookNothing(old(taken));
    }

    lemma BehindHere(r: seq<Sym>)
      requires AtThen(r)
      ensures lx.pos <= |lx.src| + 1 && LexLines(lx.src, lx.St()) == r
    {
      hide LexLines, Lex;
      SameFirst(SymOf(cur), LexLines(lx.src, lx.St()), SymOf(cur), r);
    }

    lemma AheadIs(tok: Token)
      requires Valid() && tok == cur
      ensures cur.typ != EndOfFile ==>
                var (tok2, next) := Lex(lx.src, lx.St());
                next.pos <= |lx.src| + 1
                && Ahead() == SymsOf(tok) + if tok2.typ == EndOfFile then [] else SymsOf(tok2) + LexAll(lx.src, next)
    {
      LexMovesOn(lx.src, lx.St());
      hide Lex, SymsOf;
    }

    lemma ShapedSyms(tok: Token)
      requires Shaped(tok)
      ensures IsPlain(tok.typ) ==> SymsOf(tok) == [Op(tok.typ)]
      ensures IsWord(tok.typ) ==> SymsOf(tok) == [Word(tok.typ, tok.text)] && tok.text.Text?
      ensures tok.typ == Number ==> SymsOf(tok) == [Sym(Number, NoText, tok.num)]
      ensures tok.typ == Newline ==> SymsOf(tok) == []
    {
    }

    lemma HasText()
      requires Valid()
      ensures IsWord(cur.typ) ==> cur.text.Text?
    {
      ShapedSyms(cur);
    }

    method SyntaxError()
      requires Valid()
      modifies this`error
      ensures Valid() && error && Rem() == old(Rem())
    {
      error := true;
    }

    method Accept(t: TokType, ghost r: seq<Sym> := []) returns (here: bool)
      requires Valid() && IsPlain(t)
      modifies this`cur, this`taken, lx
      ensures Valid() && Rem() <= old(Rem()) && printCtx == old(printCtx) && lines == old(lines) && error == old(error)
      ensures here == (old(cur.typ) == t) && (here ==> Rem() < old(Rem()) && taken == old(taken) + [Op(t)])
      ensures !here ==> cur == old(cur) && taken == old(taken)
      ensures if here then old(AtThen(r)) ==> At(r) else old(At(r)) ==> At(r)
    {
      PlainIsToken(t);
      hide *;
      if cur.typ == t {
        Advance(r);
        return true;
      }
      return false;
    }

    /** Takes the token that has to be here, or reports the error and stays. */
    method Need(t: TokType, ghost r: seq<Sym> := [])
      requires Valid() && IsPlain(t)
      modifies this`cur, this`taken, this`error, lx
      ensures Valid() && Rem() <= old(Rem()) && (old(error) ==> error) && printCtx == old(printCtx) && lines == old(lines)
      ensures old(cur.typ) == t ==> Rem() < old(Rem()) && error == old(error) && taken == old(taken) + [Op(t)]
      ensures old(cur.typ) != t ==> error && cur == old(cur)
      ensures old(cur.typ) == t && old(AtThen(r)) ==> At(r)
    {
      PlainIsToken(t);
      hide *;
      if cur.typ != t {
        SyntaxError();
        return;
      }
      Advance(r);
    }

    lemma PlainIsToken(t: TokType)
      ensures IsPlain(t) ==> t != EndOfFile
    {
    }

    method SkipOptNewlines(ghost r: seq<Sym> := [])
      requires Valid()
      modifies this`cur, this`taken, lx
      ensures Valid() && Rem() <= old(Rem()) && printCtx == old(printCtx) && error == old(error)
      ensures cur.typ != Newline && taken == old(taken)
      ensures old(cur.typ) != Newline ==> cur == old(cur)
      ensures old(At(r) || AtLine(r)) && !Starts(r, Newline) ==> At(r)
    {
      hide *;
      if At(r) {
        AtNoLine(r);
      }
      ghost var asked := AtLine(r) && !Starts(r, Newline);
      if asked {
        LineHere(r);
      }
      while cur.typ == Newline
        modifies this`cur, this`taken, lx
        invariant Valid() && Rem() <= old(Rem()) && taken == old(taken)
        invariant asked ==> if cur.typ == Newline then AtThen(r) else At(r)
        invariant old(cur.typ) != Newline ==> cur == old(cur)
        decreases Rem()
      {
        Advance(r);
        if asked {
          NoNewlineHere(r);
        }
      }
    }

    /** Passes over line ends before an operand. */
    method SkipLineTo(ghost w: Node, ghost level: nat, ghost rest: seq<Sym>)
      requires Valid()
      requires w.Node? ==> Wanted(printCtx, w, level, rest) && AtLine(Show(lines, w, rest))
      modifies this`cur, this`taken, lx
      ensures Valid() && Rem() <= old(Rem()) && printCtx == old(printCtx) && lines == old(lines) && error == old(error)
      ensures taken == old(taken)
      ensures w.Node? ==> At(Show(lines, w, rest))
    {
      hide *;
      if w.Node? {
        WantedIsNoLine(lines, printCtx, w, level, rest);
      }
      SkipOptNewlines(Show(lines, w, rest));
    }

    lemma NoNewlineHere(r: seq<Sym>)
      requires At(r) && !Starts(r, Newline)
      ensures cur.typ != Newline
    {
      hide At;
      HereStarts(r);
    }

    /** The tokens `r` are ahead, or the end of a line and then `r`. */
    ghost predicate AtLine(r: seq<Sym>)
      reads this`cur, this`error, lx
    {
      At([Op(Newline)] + r) || At(r)
    }

    lemma LineHere(r: seq<Sym>)
      requires AtLine(r) && !Starts(r, Newline)
      ensures if cur.typ == Newline then AtThen(r) else At(r)
    {
      hide At, AtThen;
      if At(r) {
        NoNewlineHere(r);
      } else {
        OpHere(Newline, r);
      }
    }

    lemma AtNoLine(r: seq<Sym>)
      requires At(r)
      ensures AtLine(r)
    {
      hide At;
    }

    lemma AtLineEnd(nl: bool, r: seq<Sym>)
      requires At(LineEnd(nl) + r)
      ensures AtLine(r)
    {
      LineEndIs(nl, r);
      hide At, LineEnd;
    }

    /** Passes over newlines and semicolons. */
    method SkipTerms(ghost r: seq<Sym> := []) returns (ghost m: seq<Sym>)
      requires Valid()
      modifies this`cur, this`taken, lx
      ensures Valid() && Rem() <= old(Rem()) && printCtx == old(printCtx) && lines == old(lines) && error == old(error)
      ensures cur.typ != Newline && cur.typ != Semi
      ensures Semis(m) && taken == old(taken) + m
      ensures old(Past(r)) && !Starts(r, Semi) && !Starts(r, Newline) ==> At(r)
    {
      PlainTokens();
      NothingOptional();
      TookNothing(taken);
      hide *;
      ghost var asked := Past(r) && !Starts(r, Semi) && !Starts(r, Newline);
      if asked {
        TermHere(r);
      }
      m := [];
      while cur.typ == Newline || cur.typ == Semi
        modifies this`cur, this`taken, lx
        invariant Valid() && Rem() <= old(Rem())
        invariant Semis(m) && taken == old(taken) + m
        invariant asked ==> if cur.typ == Semi || cur.typ == Newline then AtThen(r) else At(r)
        decreases Rem()
      {
        if cur.typ == Semi {
          OneMoreSemi(m);
          Took(old(taken), m, [Op(Semi)]);
          m := m + [Op(Semi)];
        }
        Advance(r);
        if asked {
          NotAgain(r);
        }
      }
    }

    lemma OneMoreSemi(m: seq<Sym>)
      requires Semis(m)
      ensures Semis(m + [Op(Semi)])
    {
    }

    /** The next token, read with a copy of the lexer. */
    method LookAhead() returns (t: TokType)
      requires Valid()
      ensures t == Lex(lx.src, lx.St()).0.typ
    {
      hide Lex;
      var probe := new Lexer.Clone(lx);
      var tok := probe.Next();
      return tok.typ;
    }

    // ----- expressions -----

    /** A name, an element or a field; null when there is none. */
    method ParseLvalueForGetline(ghost w: Node := Null, ghost rest: seq<Sym> := [])
      returns (n: Node, ghost s: seq<Sym>)
      requires Valid()
      requires w.Node? ==> TargetFits(printCtx, w) && EndsTarget(rest) && At(Show(lines, w, rest))
      modifies this, lx
      ensures Valid() && Rem() <= old(Rem()) && printCtx == old(printCtx) && lines == old(lines) && (old(error) ==> error)
      ensures !error ==> TargetTree(n, printCtx, s) && taken == old(taken) + s
      ensures w.Node? ==> n == w && At(rest)
      decreases Rem(), 1
    {
      hide *;
      PlainTokens();
      NothingThere();
      TookNothing(taken);
      PartsAre(w);
      if w.Node? {
        TargetKinds(printCtx, w, rest);
        StartsHere(w, rest);
        FirstTells(printCtx, w);
      }
      if cur.typ == Dollar {
        if w.Node? {
          FieldShown(lines, printCtx, w, rest);
          OpHere(Dollar, Show(lines, w.a, rest));
        }
        Advance(Show(lines, PartA(w), rest));
        var a, u := ParsePrimary(PartA(w), rest);
        if !error {
          PrefixTree(printCtx, Dollar, a, u);
          FieldIsTarget(printCtx, a, [Op(Dollar)] + u);
          Took(old(taken), [Op(Dollar)], u);
        }
        return Prefix(Dollar, a), [Op(Dollar)] + u;
      }
      if cur.typ == Name {
        n, s := ParseNameOrElement(w, rest);
        if !error {
          TargetOf(printCtx, n, s);
        }
        return;
      }
      return Null, [];
    }

    /** NAME or NAME[subscripts]. */
    method ParseNameOrElement(ghost w: Node := Null, ghost rest: seq<Sym> := [])
      returns (n: Node, ghost s: seq<Sym>)
      requires Valid() && cur.typ == Name
      requires w.Node? ==> Wanted(printCtx, w, 0, rest) && w.kind in {VarRef, ArrayRef} && At(Show(lines, w, rest))
      modifies this, lx
      ensures Valid() && Rem() <= old(Rem()) && printCtx == old(printCtx) && lines == old(lines) && (old(error) ==> error)
      ensures old(cur.typ) != EndOfFile ==> Rem() < old(Rem())
      ensures n.Node? && (!error ==> Tree(n, 0, printCtx, s) && taken == old(taken) + s)
      ensures IsLvalue(n)
      ensures w.Node? ==> n == w && At(rest)
      decreases Rem(), 0
    {
      hide *;
      PlainTokens();
      HasText();
      var name := cur.text;
      s := [Word(Name, name)];
      ghost var ws, behind := if w.Node? && w.kind == ArrayRef then w.list else [], [Op(RBracket)] + rest;
      if w.Node? {
        WantedIs(printCtx, w, 0, rest);
        NamedShown(lines, printCtx, w, rest);
        WordHere(Name, w.str, NameRest(w, rest));
      }
      Advance(if w.Node? then NameRest(w, rest) else []);
      if w.Node? {
        NameHere(w, rest);
      }
      NoMoreItems(false, ws, rest);
      var subscripted := Accept(LBracket, ListRest(false, ws, 0, if ws == [] then rest else behind));
      if !subscripted {
        NameTree(printCtx, name);
        NameIsLvalue(name, []);
        return Leaf(VarRef, name), s;
      }
      var list, u := ParseSubscripts(ws, rest);
      NameIsLvalue(name, list);
      if !error {
        ElementTree(printCtx, name, list, u);
        Took3(old(taken), s, [Op(LBracket)], u);
        Took(old(taken), s + [Op(LBracket)] + u, [Op(RBracket)]);
      }
      return WithList(ArrayRef, name, list), s + [Op(LBracket)] + u + [Op(RBracket)];
    }

    /** What stands between brackets, and the closing one; no line ends there. */
    method ParseSubscripts(ghost ws: seq<Node>, ghost rest: seq<Sym>) returns (list: seq<Node>, ghost u: seq<Sym>)
      requires Valid()
      requires ws != [] ==> AllFit(printCtx, ws) && At(ListRest(false, ws, 0, [Op(RBracket)] + rest))
      modifies this, lx
      ensures Valid() && Rem() <= old(Rem()) && printCtx == old(printCtx) && lines == old(lines) && (old(error) ==> error)
      ensures !error ==> Trees(list, 13, printCtx, u) && taken == (old(taken) + u) + [Op(RBracket)]
      ensures ws != [] ==> list == ws && At(rest)
      decreases Rem(), 21
    {
      hide *;
      PlainTokens();
      ghost var saved := lines;
      ClosingEnds(RBracket, rest);
      lines := false;
      list, u := ParseExprs(false, false, ws, [Op(RBracket)] + rest);
      if ws != [] {
        OpHere(RBracket, rest);
      }
      Need(RBracket, rest);
      lines := saved;
    }

    /** One expression and the comma behind it, if there is one. */
    method ParseItemOfList(newlineBefore: bool, newlineAfter: bool,
                           ghost ws: seq<Node>, ghost i: nat, ghost rest: seq<Sym>)
      returns (n: Node, more: bool, ghost u: seq<Sym>)
      requires Valid()
      requires ws != [] ==> AllFit(printCtx, ws) && EndsList(rest) && i < |ws| && At(ListRest(lines, ws, i, rest))
      modifies this, lx
      ensures Valid() && Rem() <= old(Rem()) && printCtx == old(printCtx) && lines == old(lines) && (old(error) ==> error)
      ensures more || (!newlineAfter && old(cur.typ) != EndOfFile) ==> Rem() < old(Rem())
      ensures !error ==> Tree(n, 13, printCtx, u)
      ensures !error ==> taken == if more then (old(taken) + u) + [Op(Comma)] else old(taken) + u
      ensures ws != [] ==> n == ws[i] && (more <==> i + 1 < |ws|) && At(ListRest(lines, ws, i + 1, rest))
      decreases Rem(), 19
    {
      hide *;
      PlainTokens();
      n, u := ParseItemItself(newlineAfter, ws, i, rest);
      if ws != [] {
        ListIsNoLine(lines, printCtx, ws, i, rest);
      }
      if newlineBefore {
        SkipOptNewlines(ItemRest(lines, ws, i, rest));
      }
      if ws != [] {
        BehindItem(ws, i, rest);
      }
      more := Accept(Comma, ListRest(lines, ws, i + 1, rest));
    }

    method ParseItemItself(newlineAfter: bool, ghost ws: seq<Node>, ghost i: nat, ghost rest: seq<Sym>)
      returns (n: Node, ghost u: seq<Sym>)
      requires Valid()
      requires ws != [] ==> AllFit(printCtx, ws) && EndsList(rest) && i < |ws| && At(ListRest(lines, ws, i, rest))
      modifies this, lx
      ensures Valid() && Rem() <= old(Rem()) && printCtx == old(printCtx) && lines == old(lines) && (old(error) ==> error)
      ensures !newlineAfter && old(cur.typ) != EndOfFile ==> Rem() < old(Rem())
      ensures !error ==> Tree(n, 13, printCtx, u) && taken == old(taken) + u
      ensures ws != [] ==> n == ws[i] && At(ItemRest(lines, ws, i, rest))
      decreases Rem(), 18
    {
      hide *;
      if ws != [] {
        ListIsNoLine(lines, printCtx, ws, i, rest);
      }
      if newlineAfter {
        SkipOptNewlines(ListRest(lines, ws, i, rest));
      }
      ItemAtIs(ws, i);
      if ws != [] {
        ItemShown(lines, printCtx, ws, i, rest);
      }
      n, u := ParseExpr(ItemAt(ws, i), ItemRest(lines, ws, i, rest));
    }

    /** Expressions between commas, with the newlines that may stand around a comma. */
    method ParseExprs(newlineBefore: bool, newlineAfter: bool, ghost ws: seq<Node> := [], ghost rest: seq<Sym> := [])
      returns (list: seq<Node>, ghost u: seq<Sym>)
      requires Valid()
      requires ws != [] ==> AllFit(printCtx, ws) && EndsList(rest) && At(ListRest(lines, ws, 0, rest))
      modifies this, lx
      ensures Valid() && Rem() <= old(Rem()) && printCtx == old(printCtx) && lines == old(lines) && (old(error) ==> error)
      ensures old(cur.typ) != EndOfFile ==> Rem() < old(Rem())
      ensures !error ==> Trees(list, 13, printCtx, u) && taken == old(taken) + u
      ensures ws != [] ==> list == ws && At(rest)
      decreases Rem(), 20
    {
      hide *;
      var first, more, t := ParseItemOfList(newlineBefore, false, ws, 0, rest);
      list, u := [first], t;
      ghost var i := 1;
      ItemsSoFar(ws, 0);
      if !error {
        TreesOne(printCtx, first, 13, t);
      }
      while more
        invariant Valid() && Rem() <= old(Rem()) && printCtx == old(printCtx) && lines == old(lines) && (old(error) ==> error)
        invariant old(cur.typ) != EndOfFile ==> Rem() < old(Rem())
        invariant !error ==> Trees(list, 13, printCtx, u)
        invariant !error ==> taken == if more then (old(taken) + u) + [Op(Comma)] else old(taken) + u
        invariant i > 0 && (ws != [] ==> i <= |ws| && list == ws[..i] && (more <==> i < |ws|) && At(ListRest(lines, ws, i, rest)))
        decreases Rem(), more
      {
        var next;
        ghost var v;
        next, more, v := ParseItemOfList(newlineBefore, newlineAfter, ws, i, rest);
        ItemsSoFar(ws, i);
        if !error {
          TreesMore(printCtx, list, 13, u, next, v);
          Took3(old(taken), u, [Op(Comma)], v);
          Took(old(taken), u + [Op(Comma)] + v, [Op(Comma)]);
        }
        list, u, i := list + [next], u + [Op(Comma)] + v, i + 1;
      }
      NoMoreItems(lines, ws, rest);
    }

    method ParseGetline(ghost w: Node := Null, ghost rest: seq<Sym> := [])
      returns (n: Node, ghost s: seq<Sym>)
      requires Valid() && cur.typ == KwGetline
      requires w.Node? ==> GetlineFits(printCtx, w, rest) && At(Show(lines, w, rest))
      modifies this, lx
      ensures Valid() && Rem() <= old(Rem()) && printCtx == old(printCtx) && lines == old(lines) && (old(error) ==> error)
      ensures old(cur.typ) != EndOfFile ==> Rem() < old(Rem())
      ensures n.Node? && (!error ==> Tree(n, 0, printCtx, s) && taken == old(taken) + s)
      ensures n.kind == Getline && n.source != FromCommand
      ensures w.Node? ==> n == w && At(rest)
      decreases Rem(), 0
    {
      hide *;
      PlainTokens();
      NothingThere();
      PartsAre(w);
      if w.Node? {
        GetlineAsked(lines, printCtx, w, rest);
        OpHere(KwGetline, Show(lines, w.a, TargetRest(lines, w, rest)));
      }
      Need(KwGetline, Show(lines, PartA(w), TargetRest(lines, w, rest)));
      var target, t := ParseTarget(w.Node?, PartA(w), TargetRest(lines, w, rest));
      if w.Node? {
        FileHere(w, rest);
      }
      var redirected := Accept(Less, FileRest(lines, w, rest));
      if !redirected {
        if !error {
          GetlineMainTree(printCtx, target, t);
          Took(old(taken), [Op(KwGetline)], t);
        }
        return GetlineNode(target, FromMain, Null), [Op(KwGetline)] + t;
      }
      var file, u := ParseTernary(PartB(w), rest);
      if !error {
        GetlineFileTree(printCtx, target, t, file, u);
        Took(old(taken), [Op(KwGetline)], t);
        Took3(old(taken), [Op(KwGetline)] + t, [Op(Less)], u);
      }
      return GetlineNode(target, FromFile, file), [Op(KwGetline)] + t + [Op(Less)] + u;
    }

    /** What getline reads into, if anything. */
    method ParseTarget(ghost asked: bool := false, ghost w: Node := Null, ghost rest: seq<Sym> := [])
      returns (n: Node, ghost s: seq<Sym>)
      requires Valid()
      requires asked ==> TargetFits(printCtx, w) && EndsTarget(rest) && At(Show(lines, w, rest))
      modifies this, lx
      ensures Valid() && Rem() <= old(Rem()) && printCtx == old(printCtx) && lines == old(lines) && (old(error) ==> error)
      ensures !error ==> TargetTree(n, printCtx, s) && taken == old(taken) + s
      ensures asked ==> n == w && At(rest)
      decreases Rem(), 2
    {
      hide *;
      NothingThere();
      TookNothing(taken);
      if asked {
        TargetHere(w, rest);
      }
      if cur.typ == Name || cur.typ == Dollar {
        n, s := ParseLvalueForGetline(if asked then w else Null, rest);
        return;
      }
      return Null, [];
    }

    method ParsePrimary(ghost w: Node := Null, ghost rest: seq<Sym> := [])
      returns (n: Node, ghost s: seq<Sym>)
      requires Valid()
      requires w.Node? ==> Wanted(printCtx, w, 0, rest) && At(Show(lines, w, rest))
      modifies this, lx
      ensures Valid() && Rem() <= old(Rem()) && printCtx == old(printCtx) && lines == old(lines) && (old(error) ==> error)
      ensures old(cur.typ) != EndOfFile ==> Rem() < old(Rem())
      ensures n.Node? && (!error ==> Tree(n, 0, printCtx, s) && taken == old(taken) + s)
      ensures w.Node? ==> n == w && At(rest)
      decreases Rem(), 3
    {
      hide *;
      if w.Node? {
        WantedIs(printCtx, w, 0, rest);
        StartsHere(w, rest);
        FirstTells(printCtx, w);
        FirstStarts(printCtx, w);
        if w.kind == Getline {
          PrimaryGetline(printCtx, w, rest);
        }
      }
      if cur.typ == Number || cur.typ == StringLit || cur.typ == Ere {
        n, s := ParseLiteral(w, rest);
      } else if cur.typ == Dollar || cur.typ == Incr || cur.typ == Decr || cur.typ == Minus || cur.typ == Plus {
        n, s := ParsePrefix(w, rest);
      } else if cur.typ == NotTok {
        n, s := ParseNot(w, rest);
      } else if cur.typ == LParen {
        n, s := ParseGroup(w, rest);
      } else if cur.typ == KwGetline {
        n, s := ParseGetline(w, rest);
      } else if cur.typ == BuiltinFunc {
        n, s := ParseBuiltinCall(w, rest);
      } else if cur.typ == FuncName {
        n, s := ParseUserCall(w, rest);
      } else if cur.typ == Name {
        n, s := ParseNameOrElement(w, rest);
      } else {
        SyntaxError();
        Advance();
        return Leaf(NumLit, NoText), [];
      }
    }

    method ParseLiteral(ghost w: Node := Null, ghost rest: seq<Sym> := [])
      returns (n: Node, ghost s: seq<Sym>)
      requires Valid() && (cur.typ == Number || cur.typ == StringLit || cur.typ == Ere)
      requires w.Node? ==> Wanted(printCtx, w, 0, rest) && w.kind in {NumLit, StrLit, Regex} && At(Show(lines, w, rest))
      modifies this, lx
      ensures Valid() && Rem() <= old(Rem()) && printCtx == old(printCtx) && lines == old(lines) && (old(error) ==> error)
      ensures old(cur.typ) != EndOfFile ==> Rem() < old(Rem())
      ensures n.Node? && (!error ==> Tree(n, 0, printCtx, s) && taken == old(taken) + s)
      ensures w.Node? ==> n == w && At(rest)
      decreases Rem(), 0
    {
      hide *;
      PlainTokens();
      HasText();
      var tok := cur;
      LiteralTokens(tok);
      LiteralTree(printCtx, tok);
      if w.Node? {
        WantedIs(printCtx, w, 0, rest);
        LiteralShown(lines, printCtx, w, rest);
        HereIs(LeafSym(w), rest);
        LiteralIs(printCtx, w, tok);
      }
      Advance(rest);
      return Literal(tok), if tok.typ == Number then [Sym(Number, NoText, tok.num)] else [Word(tok.typ, tok.text)];
    }

    /** A field, an increment before its operand, or a sign. */
    method ParsePrefix(ghost w: Node := Null, ghost rest: seq<Sym> := []) returns (n: Node, ghost s: seq<Sym>)
      requires Valid() && cur.typ in {Dollar, Incr, Decr, Minus, Plus}
      requires w.Node? ==> Wanted(printCtx, w, 0, rest) && At(Show(lines, w, rest))
      requires w.Node? ==> w.kind in {Field, PreIncr, PreDecr} || (w.kind == Unary && w.op != NotTok)
      modifies this, lx
      ensures Valid() && Rem() <= old(Rem()) && printCtx == old(printCtx) && lines == old(lines) && (old(error) ==> error)
      ensures old(cur.typ) != EndOfFile ==> Rem() < old(Rem())
      ensures n.Node? && (!error ==> Tree(n, 0, printCtx, s) && taken == old(taken) + s)
      ensures w.Node? ==> n == w && At(rest)
      decreases Rem(), 2
    {
      hide *;
      PlainTokens();
      var op := cur.typ;
      if w.Node? {
        WantedIs(printCtx, w, 0, rest);
        PrefixShown(lines, printCtx, w, rest);
        FitsIsWanted(printCtx, w.a, 0, rest);
        OpHere(First(w), Show(lines, w.a, rest));
      }
      PartsAre(w);
      Advance(Show(lines, PartA(w), rest));
      var a, u := ParsePrimary(PartA(w), rest);
      if !error {
        PrefixTree(printCtx, op, a, u);
        Took(old(taken), [Op(op)], u);
      }
      return Prefix(op, a), [Op(op)] + u;
    }

    method ParseNot(ghost w: Node := Null, ghost rest: seq<Sym> := []) returns (n: Node, ghost s: seq<Sym>)
      requires Valid() && cur.typ == NotTok
      requires w.Node? ==> Wanted(printCtx, w, 0, rest) && w.kind == Unary && w.op == NotTok && At(Show(lines, w, rest))
      modifies this, lx
      ensures Valid() && Rem() <= old(Rem()) && printCtx == old(printCtx) && lines == old(lines) && (old(error) ==> error)
      ensures old(cur.typ) != EndOfFile ==> Rem() < old(Rem())
      ensures n.Node? && (!error ==> Tree(n, 0, printCtx, s) && taken == old(taken) + s)
      ensures w.Node? ==> n == w && At(rest)
      decreases Rem(), 2
    {
      hide *;
      PlainTokens();
      if w.Node? {
        NotAsked(lines, printCtx, w, rest);
        OpHere(NotTok, Show(lines, w.a, rest));
      }
      PartsAre(w);
      Advance(Show(lines, PartA(w), rest));
      var a, u := ParseTernary(PartA(w), rest);
      if !error {
        NotTree(printCtx, a, u);
        Took(old(taken), [Op(NotTok)], u);
      }
      return OneChild(Unary, NotTok, a), [Op(NotTok)] + u;
    }

    /** One expression in parentheses, or a list of them. */
    method ParseGroup(ghost w: Node := Null, ghost rest: seq<Sym> := []) returns (n: Node, ghost s: seq<Sym>)
      requires Valid() && cur.typ == LParen
      requires w.Node? ==> Wanted(printCtx, w, 0, rest) && w.kind == Group && At(Show(lines, w, rest))
      modifies this, lx
      ensures Valid() && Rem() <= old(Rem()) && printCtx == old(printCtx) && lines == old(lines) && (old(error) ==> error)
      ensures old(cur.typ) != EndOfFile ==> Rem() < old(Rem())
      ensures n.Node? && (!error ==> Tree(n, 0, printCtx, s) && taken == old(taken) + s)
      ensures w.Node? ==> n == w && At(rest)
      decreases Rem(), 1
    {
      hide *;
      var savedCtx := printCtx;
      ghost var saved := lines;
      printCtx, lines := false, false;
      n, s := ParseGroupItems(savedCtx, saved, w, rest);
      printCtx, lines := savedCtx, saved;
    }

    method ParseGroupItems(ghost pr: bool, ghost nl: bool, ghost w: Node := Null, ghost rest: seq<Sym> := [])
      returns (n: Node, ghost s: seq<Sym>)
      requires Valid() && cur.typ == LParen && !printCtx && !lines
      requires w.Node? ==> Wanted(pr, w, 0, rest) && w.kind == Group && At(Show(nl, w, rest))
      modifies this, lx
      ensures Valid() && Rem() <= old(Rem()) && printCtx == old(printCtx) && lines == old(lines) && (old(error) ==> error)
      ensures old(cur.typ) != EndOfFile ==> Rem() < old(Rem())
      ensures n.Node? && (!error ==> Tree(n, 0, pr, s) && taken == old(taken) + s)
      ensures w.Node? ==> n == w && At(rest)
      decreases Rem(), 0
    {
      hide *;
      PlainTokens();
      PartsAre(w);
      ghost var ws, behind := ItemsOf(w), [Op(RParen)] + rest;
      if w.Node? {
        WantedIs(pr, w, 0, rest);
        GroupShown(nl, pr, w, rest);
        WholeList(lines, ws, behind);
        ClosingEnds(RParen, rest);
        OpHere(LParen, ListRest(lines, ws, 0, behind));
      }
      Advance(ListRest(lines, ws, 0, behind));
      var list, u := ParseExprs(false, true, ws, behind);
      if w.Node? {
        OpHere(RParen, rest);
      }
      Need(RParen, rest);
      if !error {
        GroupTree(pr, list, u);
        Took(old(taken), [Op(LParen)], u);
        Took(old(taken), [Op(LParen)] + u, [Op(RParen)]);
      }
      return WithList(Group, NoText, list), [Op(LParen)] + u + [Op(RParen)];
    }

    /** A builtin may stand without its parentheses. */
    method ParseBuiltinCall(ghost w: Node := Null, ghost rest: seq<Sym> := [])
      returns (n: Node, ghost s: seq<Sym>)
      requires Valid() && cur.typ == BuiltinFunc
      requires w.Node? ==> Wanted(printCtx, w, 0, rest) && w.kind == Call && w.isBuiltin && At(Show(lines, w, rest))
      modifies this, lx
      ensures Valid() && Rem() <= old(Rem()) && printCtx == old(printCtx) && lines == old(lines) && (old(error) ==> error)
      ensures old(cur.typ) != EndOfFile ==> Rem() < old(Rem())
      ensures n.Node? && (!error ==> Tree(n, 0, printCtx, s) && taken == old(taken) + s)
      ensures w.Node? ==> n == w && At(rest)
      decreases Rem(), 2
    {
      hide *;
      PlainTokens();
      HasText();
      var name := cur.text;
      s := [Word(BuiltinFunc, name)];
      ghost var behind := ShowList(false, ItemsOf(w), [Op(RParen)] + rest);
      PartsAre(w);
      if w.Node? {
        WantedIs(printCtx, w, 0, rest);
        CallShown(lines, printCtx, w, rest);
        CallStarts(w);
        WordHere(BuiltinFunc, w.str, [Op(LParen)] + behind);
      }
      Advance([Op(LParen)] + behind);
      if w.Node? {
        OpHere(LParen, behind);
      }
      var call := Accept(LParen, behind);
      if !call {
        BareCallTree(printCtx, name);
        return CallNode(name, true, []), s;
      }
      var args, u := ParseArguments(w.Node?, ItemsOf(w), rest);
      if !error {
        CallTree(printCtx, name, true, args, u);
        CallTokens(old(taken), s, u);
      }
      return CallNode(name, true, args), s + [Op(LParen)] + u + [Op(RParen)];
    }

    method ParseUserCall(ghost w: Node := Null, ghost rest: seq<Sym> := [])
      returns (n: Node, ghost s: seq<Sym>)
      requires Valid() && cur.typ == FuncName
      requires w.Node? ==> Wanted(printCtx, w, 0, rest) && w.kind == Call && !w.isBuiltin && At(Show(lines, w, rest))
      modifies this, lx
      ensures Valid() && Rem() <= old(Rem()) && printCtx == old(printCtx) && lines == old(lines) && (old(error) ==> error)
      ensures old(cur.typ) != EndOfFile ==> Rem() < old(Rem())
      ensures n.Node? && (!error ==> Tree(n, 0, printCtx, s) && taken == old(taken) + s)
      ensures w.Node? ==> n == w && At(rest)
      decreases Rem(), 2
    {
      hide *;
      PlainTokens();
      HasText();
      var name := cur.text;
      s := [Word(FuncName, name)];
      ghost var behind := ShowList(false, ItemsOf(w), [Op(RParen)] + rest);
      PartsAre(w);
      if w.Node? {
        WantedIs(printCtx, w, 0, rest);
        CallShown(lines, printCtx, w, rest);
        CallStarts(w);
        WordHere(FuncName, w.str, [Op(LParen)] + behind);
      }
      Advance([Op(LParen)] + behind);
      if w.Node? {
        OpHere(LParen, behind);
      }
      Need(LParen, behind);
      var args, u := ParseArguments(w.Node?, ItemsOf(w), rest);
      if !error {
        CallTree(printCtx, name, false, args, u);
        CallTokens(old(taken), s, u);
      }
      return CallNode(name, false, args), s + [Op(LParen)] + u + [Op(RParen)];
    }

    /** The arguments of a call, behind its opening parenthesis. */
    method ParseArguments(ghost asked: bool := false, ghost ws: seq<Node> := [], ghost rest: seq<Sym> := [])
      returns (args: seq<Node>, ghost u: seq<Sym>)
      requires Valid()
      requires asked ==> AllFit(false, ws) && At(ShowList(false, ws, [Op(RParen)] + rest))
      modifies this, lx
      ensures Valid() && Rem() <= old(Rem()) && printCtx == old(printCtx) && lines == old(lines) && (old(error) ==> error)
      ensures !error ==> ArgumentTrees(args, u) && taken == (old(taken) + u) + [Op(RParen)]
      ensures asked ==> args == ws && At(rest)
      decreases Rem(), 23
    {
      hide *;
      var savedCtx := printCtx;
      ghost var saved := lines;
      printCtx, lines := false, false;
      args, u := ParseParenthesized(asked, ws, rest);
      printCtx, lines := savedCtx, saved;
    }

    method ParseParenthesized(ghost asked: bool := false, ghost ws: seq<Node> := [], ghost rest: seq<Sym> := [])
      returns (args: seq<Node>, ghost u: seq<Sym>)
      requires Valid() && !printCtx && !lines
      requires asked ==> AllFit(false, ws) && At(ShowList(false, ws, [Op(RParen)] + rest))
      modifies this, lx
      ensures Valid() && Rem() <= old(Rem()) && printCtx == old(printCtx) && lines == old(lines) && (old(error) ==> error)
      ensures !error ==> ArgumentTrees(args, u) && taken == (old(taken) + u) + [Op(RParen)]
      ensures asked ==> args == ws && At(rest)
      decreases Rem(), 22
    {
      hide *;
      PlainTokens();
      ParenEnds(rest);
      if asked {
        ArgumentsAreNoLine(false, false, ws, [Op(RParen)] + rest);
      }
      SkipOptNewlines(ShowList(false, ws, [Op(RParen)] + rest));
      args, u := ParseArgumentList(asked, ws, [Op(RParen)] + rest);
      if asked {
        OpHere(RParen, rest);
      }
      Need(RParen, rest);
    }

    method ParseArgumentList(ghost asked: bool := false, ghost ws: seq<Node> := [], ghost rest: seq<Sym> := [])
      returns (args: seq<Node>, ghost u: seq<Sym>)
      requires Valid() && !printCtx
      requires asked ==> AllFit(false, ws) && EndsArguments(rest) && At(ShowList(lines, ws, rest))
      modifies this, lx
      ensures Valid() && Rem() <= old(Rem()) && printCtx == old(printCtx) && lines == old(lines) && (old(error) ==> error)
      ensures !error ==> ArgumentTrees(args, u) && taken == old(taken) + u
      ensures asked ==> args == ws && At(rest)
      decreases Rem(), 21
    {
      hide *;
      NothingThere();
      TookNothing(taken);
      if asked {
        ArgumentsHere(ws, rest);
      }
      if cur.typ == RParen {
        return [], [];
      }
      args, u := ParseExprs(true, true, if asked then ws else [], rest);
      if !error {
        TreesAreArguments(args, u);
      }
    }

    method ParsePostfix(ghost w: Node := Null, ghost rest: seq<Sym> := [])
      returns (n: Node, ghost s: seq<Sym>)
      requires Valid()
      requires w.Node? ==> Wanted(printCtx, w, 1, rest) && At(Show(lines, w, rest))
      modifies this, lx
      ensures Valid() && Rem() <= old(Rem()) && printCtx == old(printCtx) && lines == old(lines) && (old(error) ==> error)
      ensures old(cur.typ) != EndOfFile ==> Rem() < old(Rem())
      ensures n.Node? && (!error ==> Tree(n, 1, printCtx, s) && taken == old(taken) + s)
      ensures w.Node? ==> n == w && At(rest)
      decreases Rem(), 4
    {
      hide *;
      PlainTokens();
      ghost var todo := w.Node? && Rank(w) == 1;
      if w.Node? {
        PostAsked(lines, printCtx, w, rest);
      }
      PartsAre(w);
      n, s := ParsePrimary(if todo then PartA(w) else w, if todo then PostRest(w, rest) else rest);
      if !error {
        TreeUp(printCtx, n, 0, 1, s);
      }
      while IsLvalue(n) && (cur.typ == Incr || cur.typ == Decr)
        invariant Valid() && Rem() <= old(Rem()) && printCtx == old(printCtx) && lines == old(lines) && (old(error) ==> error)
        invariant old(cur.typ) != EndOfFile ==> Rem() < old(Rem())
        invariant n.Node? && (!error ==> Tree(n, 1, printCtx, s) && taken == old(taken) + s)
        invariant todo ==> w.Node? && Rank(w) == 1
        invariant w.Node? ==> n == (if todo then w.a else w) && At(if todo then PostRest(w, rest) else rest)
        decreases Rem()
      {
        var increment := cur.typ == Incr;
        if w.Node? {
          PostHere(w, rest, todo);
        }
        Advance(rest);
        todo := false;
        if !error {
          PostTree(printCtx, increment, n, s);
          Took(old(taken), s, [Op(if increment then Incr else Decr)]);
        }
        n, s := OneChild(if increment then PostIncr else PostDecr, EndOfFile, n), s + [Op(if increment then Incr else Decr)];
      }
      if w.Node? {
        PostHere(w, rest, todo);
      }
    }

    method ParsePower(ghost w: Node := Null, ghost rest: seq<Sym> := []) returns (n: Node, ghost s: seq<Sym>)
      requires Valid()
      requires w.Node? ==> Wanted(printCtx, w, 2, rest) && At(Show(lines, w, rest))
      modifies this, lx
      ensures Valid() && Rem() <= old(Rem()) && printCtx == old(printCtx) && lines == old(lines) && (old(error) ==> error)
      ensures old(cur.typ) != EndOfFile ==> Rem() < old(Rem())
      ensures n.Node? && (!error ==> Tree(n, 2, printCtx, s) && taken == old(taken) + s)
      ensures w.Node? ==> n == w && At(rest)
      decreases Rem(), 5
    {
      hide *;
      PlainTokens();
      if w.Node? {
        OnceShown(lines, printCtx, w, 2, rest);
      }
      OnceIs(lines, w, 2, rest);
      n, s := ParsePostfix(HeadOf(w, 2), HeadRest(lines, w, 2, rest));
      if w.Node? {
        OnceHere(w, 2, rest);
      }
      OnceOps(printCtx, cur.typ);
      var power := Accept(Caret, OperandRest(lines, w, 2, rest));
      if power {
        var right, u := ParsePower(Operand(w, 2), rest);
        if !error {
          PowerTree(printCtx, n, s, right, u);
          Took3(old(taken), s, [Op(Caret)], u);
        }
        return Binary(BinOp, Caret, n, right), s + [Op(Caret)] + u;
      }
      if !error {
        TreeUp(printCtx, n, 1, 2, s);
      }
    }

    method ParseUnary(ghost w: Node := Null, ghost rest: seq<Sym> := []) returns (n: Node, ghost s: seq<Sym>)
      requires Valid()
      requires w.Node? ==> Wanted(printCtx, w, 2, rest) && At(Show(lines, w, rest))
      modifies this, lx
      ensures Valid() && Rem() <= old(Rem()) && printCtx == old(printCtx) && lines == old(lines) && (old(error) ==> error)
      ensures old(cur.typ) != EndOfFile ==> Rem() < old(Rem())
      ensures n.Node? && (!error ==> Tree(n, 2, printCtx, s) && taken == old(taken) + s)
      ensures w.Node? ==> n == w && At(rest)
      decreases Rem(), 6
    {
      hide *;
      n, s := ParsePower(w, rest);
    }

    method ParseMultiplicative(ghost w: Node := Null, ghost rest: seq<Sym> := [])
      returns (n: Node, ghost s: seq<Sym>)
      requires Valid()
      requires w.Node? ==> Wanted(printCtx, w, 3, rest) && At(Show(lines, w, rest))
      modifies this, lx
      ensures Valid() && Rem() <= old(Rem()) && printCtx == old(printCtx) && lines == old(lines) && (old(error) ==> error)
      ensures old(cur.typ) != EndOfFile ==> Rem() < old(Rem())
      ensures n.Node? && (!error ==> Tree(n, 3, printCtx, s) && taken == old(taken) + s)
      ensures w.Node? ==> n == w && At(rest)
      decreases Rem(), 7
    {
      hide *;
      PlainTokens();
      ghost var k := Spine(w, 3);
      LoopStart(w, 3, rest);
      n, s := ParseUnary(Down(w, 3, k), Tails(lines, w, 3, k, rest));
      if !error {
        TreeUp(printCtx, n, 2, 3, s);
      }
      while cur.typ == Star || cur.typ == Slash || cur.typ == Percent
        invariant Valid() && Rem() <= old(Rem()) && printCtx == old(printCtx) && lines == old(lines) && (old(error) ==> error)
        invariant old(cur.typ) != EndOfFile ==> Rem() < old(Rem())
        invariant n.Node? && (!error ==> Tree(n, 3, printCtx, s) && taken == old(taken) + s)
        invariant 0 <= k <= Spine(w, 3) && (w.Node? ==> n == Down(w, 3, k) && At(Tails(lines, w, 3, k, rest)))
        decreases Rem()
      {
        LoopTokens(printCtx, cur.typ);
        ghost var p, r := Upper(w, 3, k), Behind(lines, w, 3, k, rest);
        TurnReady(w, 3, k, rest);
        var op := cur.typ;
        Advance(Show(lines, PartB(p), r));
        var right, u := ParseUnary(PartB(p), r);
        if !error {
          FactorTree(printCtx, op, n, s, right, u);
          Took3(old(taken), s, [Op(op)], u);
        }
        n, s := Binary(BinOp, op, n, right), s + [Op(op)] + u;
        k := if w.Node? then k - 1 else 0;
      }
      LoopTokens(printCtx, cur.typ);
      LoopStop(w, 3, k, rest);
    }

    method ParseAdditive(ghost w: Node := Null, ghost rest: seq<Sym> := [])
      returns (n: Node, ghost s: seq<Sym>)
      requires Valid()
      requires w.Node? ==> Wanted(printCtx, w, 4, rest) && At(Show(lines, w, rest))
      modifies this, lx
      ensures Valid() && Rem() <= old(Rem()) && printCtx == old(printCtx) && lines == old(lines) && (old(error) ==> error)
      ensures old(cur.typ) != EndOfFile ==> Rem() < old(Rem())
      ensures n.Node? && (!error ==> Tree(n, 4, printCtx, s) && taken == old(taken) + s)
      ensures w.Node? ==> n == w && At(rest)
      decreases Rem(), 8
    {
      hide *;
      PlainTokens();
      ghost var k := Spine(w, 4);
      LoopStart(w, 4, rest);
      n, s := ParseMultiplicative(Down(w, 4, k), Tails(lines, w, 4, k, rest));
      if !error {
        TreeUp(printCtx, n, 3, 4, s);
      }
      while cur.typ == Plus || cur.typ == Minus
        invariant Valid() && Rem() <= old(Rem()) && printCtx == old(printCtx) && lines == old(lines) && (old(error) ==> error)
        invariant old(cur.typ) != EndOfFile ==> Rem() < old(Rem())
        invariant n.Node? && (!error ==> Tree(n, 4, printCtx, s) && taken == old(taken) + s)
        invariant 0 <= k <= Spine(w, 4) && (w.Node? ==> n == Down(w, 4, k) && At(Tails(lines, w, 4, k, rest)))
        decreases Rem()
      {
        LoopTokens(printCtx, cur.typ);
        ghost var p, r := Upper(w, 4, k), Behind(lines, w, 4, k, rest);
        TurnReady(w, 4, k, rest);
        var op := cur.typ;
        Advance(Show(lines, PartB(p), r));
        var right, u := ParseMultiplicative(PartB(p), r);
        if !error {
          TermTree(printCtx, op, n, s, right, u);
          Took3(old(taken), s, [Op(op)], u);
        }
        n, s := Binary(BinOp, op, n, right), s + [Op(op)] + u;
        k := if w.Node? then k - 1 else 0;
      }
      LoopTokens(printCtx, cur.typ);
      LoopStop(w, 4, k, rest);
    }

    method ParseConcat(ghost w: Node := Null, ghost rest: seq<Sym> := []) returns (n: Node, ghost s: seq<Sym>)
      requires Valid()
      requires w.Node? ==> Wanted(printCtx, w, 5, rest) && At(Show(lines, w, rest))
      modifies this, lx
      ensures Valid() && Rem() <= old(Rem()) && printCtx == old(printCtx) && lines == old(lines) && (old(error) ==> error)
      ensures old(cur.typ) != EndOfFile ==> Rem() < old(Rem())
      ensures n.Node? && (!error ==> Tree(n, 5, printCtx, s) && taken == old(taken) + s)
      ensures w.Node? ==> n == w && At(rest)
      decreases Rem(), 9
    {
      hide *;
      ghost var k := Spine(w, 5);
      LoopStart(w, 5, rest);
      n, s := ParseAdditive(Down(w, 5, k), Tails(lines, w, 5, k, rest));
      if !error {
        TreeUp(printCtx, n, 4, 5, s);
      }
      while StartsOperand(cur.typ)
        invariant Valid() && Rem() <= old(Rem()) && printCtx == old(printCtx) && lines == old(lines) && (old(error) ==> error)
        invariant old(cur.typ) != EndOfFile ==> Rem() < old(Rem())
        invariant n.Node? && (!error ==> Tree(n, 5, printCtx, s) && taken == old(taken) + s)
        invariant 0 <= k <= Spine(w, 5) && (w.Node? ==> n == Down(w, 5, k) && At(Tails(lines, w, 5, k, rest)))
        decreases Rem()
      {
        OperandLoops(printCtx, cur.typ);
        ghost var p, r := Upper(w, 5, k), Behind(lines, w, 5, k, rest);
        TurnReady(w, 5, k, rest);
        OperandIsToken(cur.typ);
        var right, u := ParseAdditive(PartB(p), r);
        if !error {
          ConcatTree(printCtx, n, s, right, u);
          Took(old(taken), s, u);
        }
        n, s := Binary(Concat, EndOfFile, n, right), s + u;
        k := if w.Node? then k - 1 else 0;
      }
      OperandLoops(printCtx, cur.typ);
      LoopStop(w, 5, k, rest);
    }

    method ParseRelational(ghost w: Node := Null, ghost rest: seq<Sym> := [])
      returns (n: Node, ghost s: seq<Sym>)
      requires Valid()
      requires w.Node? ==> Wanted(printCtx, w, 6, rest) && At(Show(lines, w, rest))
      modifies this, lx
      ensures Valid() && Rem() <= old(Rem()) && printCtx == old(printCtx) && lines == old(lines) && (old(error) ==> error)
      ensures old(cur.typ) != EndOfFile ==> Rem() < old(Rem())
      ensures n.Node? && (!error ==> Tree(n, 6, printCtx, s) && taken == old(taken) + s)
      ensures w.Node? ==> n == w && At(rest)
      decreases Rem(), 10
    {
      hide *;
      PlainTokens();
      if w.Node? {
        OnceShown(lines, printCtx, w, 6, rest);
      }
      OnceIs(lines, w, 6, rest);
      n, s := ParseConcat(HeadOf(w, 6), HeadRest(lines, w, 6, rest));
      if w.Node? {
        OnceHere(w, 6, rest);
      }
      OnceOps(printCtx, cur.typ);
      var op := cur.typ;
      var isRel := op == Less || op == LessEq || op == GreaterEq || op == NotEqual || op == Equal || (op == Greater && !printCtx);
      if isRel {
        Advance(OperandRest(lines, w, 6, rest));
        var right, u := ParseConcat(Operand(w, 6), rest);
        if !error {
          CompareTree(printCtx, op, n, s, right, u);
          Took3(old(taken), s, [Op(op)], u);
        }
        return Binary(Compare, op, n, right), s + [Op(op)] + u;
      }
      if !error {
        TreeUp(printCtx, n, 5, 6, s);
      }
    }

    method ParsePipeGetline(ghost w: Node := Null, ghost rest: seq<Sym> := [])
      returns (n: Node, ghost s: seq<Sym>)
      requires Valid()
      requires w.Node? ==> Wanted(printCtx, w, 7, rest) && At(Show(lines, w, rest))
      modifies this, lx
      ensures Valid() && Rem() <= old(Rem()) && printCtx == old(printCtx) && lines == old(lines) && (old(error) ==> error)
      ensures old(cur.typ) != EndOfFile ==> Rem() < old(Rem())
      ensures n.Node? && (!error ==> Tree(n, 7, printCtx, s) && taken == old(taken) + s)
      ensures w.Node? ==> n == w && At(rest)
      decreases Rem(), 11
    {
      hide *;
      ghost var k := Spine(w, 7);
      LoopStart(w, 7, rest);
      n, s := ParseRelational(Down(w, 7, k), Tails(lines, w, 7, k, rest));
      if !error {
        TreeUp(printCtx, n, 6, 7, s);
      }
      n, s := ParsePipes(n, s, old(taken), w, k, rest);
    }

    ghost predicate IsPiped()
      reads this`cur, this`printCtx, lx
    {
      !printCtx && cur.typ == Pipe && Lex(lx.src, lx.St()).0.typ == KwGetline
    }

    /** A `|` counts here only outside print, and only with a getline behind it. */
    method PipesIntoGetline() returns (here: bool)
      requires Valid()
      ensures here <==> IsPiped()
    {
      hide Lex;
      if printCtx || cur.typ != Pipe {
        return false;
      }
      var next := LookAhead();
      return next == KwGetline;
    }

    lemma PipedNow()
      ensures IsPiped() <==> !printCtx && cur.typ == Pipe && Lex(lx.src, lx.St()).0.typ == KwGetline
    {
    }

    /** The commands piped into getline behind `left`, which stands for `c` behind `before`. */
    method ParsePipes(left: Node, ghost c: seq<Sym>, ghost before: seq<Sym>,
                      ghost w: Node, ghost depth: nat, ghost rest: seq<Sym>)
      returns (n: Node, ghost s: seq<Sym>)
      requires Valid() && left.Node? && (!error ==> Tree(left, 7, printCtx, c) && taken == before + c)
      requires depth <= Spine(w, 7)
      requires w.Node? ==> Wanted(printCtx, w, 7, rest) && left == Down(w, 7, depth) && At(Tails(lines, w, 7, depth, rest))
      modifies this, lx
      ensures Valid() && Rem() <= old(Rem()) && printCtx == old(printCtx) && lines == old(lines) && (old(error) ==> error)
      ensures n.Node? && (!error ==> Tree(n, 7, printCtx, s) && taken == before + s)
      ensures w.Node? ==> n == w && At(rest)
      decreases Rem(), 2
    {
      hide *;
      n, s := left, c;
      ghost var k: nat := depth;
      var more := PipesIntoGetline();
      while more
        invariant more <==> IsPiped()
        invariant Valid() && Rem() <= old(Rem()) && printCtx == old(printCtx) && lines == old(lines) && (old(error) ==> error)
        invariant n.Node? && (!error ==> Tree(n, 7, printCtx, s) && taken == before + s)
        invariant k <= Spine(w, 7) && (w.Node? ==> n == Down(w, 7, k) && At(Tails(lines, w, 7, k, rest)))
        decreases Rem()
      {
        n, s, k := ParseNextPipe(n, s, before, w, k, rest);
        more := PipesIntoGetline();
      }
      PipesEnd(w, k, rest);
    }

    /** One turn of the loop. */
    method ParseNextPipe(left: Node, ghost c: seq<Sym>, ghost before: seq<Sym>, ghost w: Node, ghost k: nat, ghost rest: seq<Sym>)
      returns (n: Node, ghost s: seq<Sym>, ghost k': nat)
      requires Valid() && IsPiped() && left.Node? && (!error ==> Tree(left, 7, printCtx, c) && taken == before + c)
      requires k <= Spine(w, 7)
      requires w.Node? ==> Wanted(printCtx, w, 7, rest) && left == Down(w, 7, k) && At(Tails(lines, w, 7, k, rest))
      modifies this, lx
      ensures Valid() && Rem() < old(Rem()) && printCtx == old(printCtx) && lines == old(lines) && (old(error) ==> error)
      ensures n.Node? && (!error ==> Tree(n, 7, printCtx, s) && taken == before + s)
      ensures k' <= Spine(w, 7) && (w.Node? ==> n == Down(w, 7, k') && At(Tails(lines, w, 7, k', rest)))
      decreases Rem(), 1
    {
      hide *;
      PipeNext(w, k, rest);
      n, s := ParsePiped(left, c, before, Piped(Upper(w, 7, k)), Behind(lines, w, 7, k, rest));
      k' := if w.Node? then k - 1 else 0;
    }

    lemma PipesEnd(w: Node, k: nat, rest: seq<Sym>)
      requires k <= Spine(w, 7) && !IsPiped() && (w.Node? ==> Wanted(printCtx, w, 7, rest) && At(Tails(lines, w, 7, k, rest)))
      ensures w.Node? ==> Down(w, 7, k) == w && At(rest)
    {
      hide *;
      if w.Node? {
        PipeHere(w, k, rest);
        LoopDone(lines, w, 7, rest);
      }
    }

    /** One more `| getline` behind the command `left`, which stands for `c` behind `before`. */
    method ParsePiped(left: Node, ghost c: seq<Sym>, ghost before: seq<Sym>, ghost g: Node, ghost r: seq<Sym>)
      returns (n: Node, ghost s: seq<Sym>)
      requires Valid() && cur.typ == Pipe && Lex(lx.src, lx.St()).0.typ == KwGetline && !printCtx
      requires left.Node? && (!error ==> Tree(left, 7, printCtx, c) && taken == before + c)
      requires g.Node? ==> GetlineFits(printCtx, g, r) && AtThen(Show(lines, g, r))
      modifies this, lx
      ensures Valid() && Rem() < old(Rem()) && printCtx == old(printCtx) && lines == old(lines) && (old(error) ==> error)
      ensures n.Node? && (!error ==> Tree(n, 7, printCtx, s) && taken == before + s)
      ensures g.Node? ==> n == GetlineNode(g.a, FromCommand, left) && At(r)
      decreases Rem(), 0
    {
      hide *;
      PlainTokens();
      Advance(Show(lines, g, r));
      var gl, u := ParseGetline(g, r);
      n, s := GetlineNode(gl.a, FromCommand, left), c + [Op(Pipe)] + u;
      if !error {
        PipeTree(left, c, gl, u);
        Took3(before, c, [Op(Pipe)], u);
      }
    }

    method ParseMatch(ghost w: Node := Null, ghost rest: seq<Sym> := []) returns (n: Node, ghost s: seq<Sym>)
      requires Valid()
      requires w.Node? ==> Wanted(printCtx, w, 8, rest) && At(Show(lines, w, rest))
      modifies this, lx
      ensures Valid() && Rem() <= old(Rem()) && printCtx == old(printCtx) && lines == old(lines) && (old(error) ==> error)
      ensures old(cur.typ) != EndOfFile ==> Rem() < old(Rem())
      ensures n.Node? && (!error ==> Tree(n, 8, printCtx, s) && taken == old(taken) + s)
      ensures w.Node? ==> n == w && At(rest)
      decreases Rem(), 12
    {
      hide *;
      PlainTokens();
      ghost var k := Spine(w, 8);
      LoopStart(w, 8, rest);
      n, s := ParsePipeGetline(Down(w, 8, k), Tails(lines, w, 8, k, rest));
      if !error {
        TreeUp(printCtx, n, 7, 8, s);
      }
      while cur.typ == MatchTok || cur.typ == NoMatch
        invariant Valid() && Rem() <= old(Rem()) && printCtx == old(printCtx) && lines == old(lines) && (old(error) ==> error)
        invariant old(cur.typ) != EndOfFile ==> Rem() < old(Rem())
        invariant n.Node? && (!error ==> Tree(n, 8, printCtx, s) && taken == old(taken) + s)
        invariant 0 <= k <= Spine(w, 8) && (w.Node? ==> n == Down(w, 8, k) && At(Tails(lines, w, 8, k, rest)))
        decreases Rem()
      {
        LoopTokens(printCtx, cur.typ);
        ghost var p, r := Upper(w, 8, k), Behind(lines, w, 8, k, rest);
        TurnReady(w, 8, k, rest);
        var neg := cur.typ == NoMatch;
        Advance(Show(lines, PartB(p), r));
        var right, u := ParsePipeGetline(PartB(p), r);
        if !error {
          MatchTree(printCtx, neg, n, s, right, u);
          Took3(old(taken), s, [Op(if neg then NoMatch else MatchTok)], u);
        }
        n, s := MatchNode(neg, n, right), s + [Op(if neg then NoMatch else MatchTok)] + u;
        k := if w.Node? then k - 1 else 0;
      }
      LoopTokens(printCtx, cur.typ);
      LoopStop(w, 8, k, rest);
    }

    method ParseIn(ghost w: Node := Null, ghost rest: seq<Sym> := []) returns (n: Node, ghost s: seq<Sym>)
      requires Valid()
      requires w.Node? ==> Wanted(printCtx, w, 9, rest) && At(Show(lines, w, rest))
      modifies this, lx
      ensures Valid() && Rem() <= old(Rem()) && printCtx == old(printCtx) && lines == old(lines) && (old(error) ==> error)
      ensures old(cur.typ) != EndOfFile ==> Rem() < old(Rem())
      ensures n.Node? && (!error ==> Tree(n, 9, printCtx, s) && taken == old(taken) + s)
      ensures w.Node? ==> n == w && At(rest)
      decreases Rem(), 13
    {
      hide *;
      PlainTokens();
      ghost var todo := w.Node? && Rank(w) == 9;
      if w.Node? {
        InAsked(lines, printCtx, w, rest);
      }
      n, s := ParseMatch(if todo then GroupOf(w) else w, if todo then InRest(w, rest) else rest);
      if !error {
        TreeUp(printCtx, n, 8, 9, s);
      }
      while cur.typ == KwIn
        invariant Valid() && Rem() <= old(Rem()) && printCtx == old(printCtx) && lines == old(lines) && (old(error) ==> error)
        invariant old(cur.typ) != EndOfFile ==> Rem() < old(Rem())
        invariant n.Node? && (!error ==> Tree(n, 9, printCtx, s) && taken == old(taken) + s)
        invariant todo ==> w.Node? && Rank(w) == 9
        invariant w.Node? ==> n == (if todo then GroupOf(w) else w) && At(if todo then InRest(w, rest) else rest)
        decreases Rem()
      {
        if w.Node? {
          InHere(w, rest, todo);
        }
        var here, arr := ParseArrayOfIn(w, rest);
        if !here {
          return;
        }
        todo := false;
        if !error {
          InTree(printCtx, n, s, arr);
          Took3(old(taken), s, [Op(KwIn)], [Word(Name, arr)]);
        }
        n, s := WithList(In, arr, KeysOf(n)), s + [Op(KwIn)] + [Word(Name, arr)];
      }
      if w.Node? {
        InHere(w, rest, todo);
      }
    }

    /** `in` and the name behind it. */
    method ParseArrayOfIn(ghost w: Node, ghost rest: seq<Sym>) returns (here: bool, arr: Text)
      requires Valid() && cur.typ == KwIn
      requires w.Node? ==> AtThen([Word(Name, w.str)] + rest)
      modifies this, lx
      ensures Valid() && Rem() < old(Rem()) && printCtx == old(printCtx) && lines == old(lines) && (old(error) ==> error)
      ensures !here ==> error
      ensures here ==> error == old(error) && arr.Text? && taken == (old(taken) + [Op(KwIn)]) + [Word(Name, arr)]
      ensures w.Node? ==> here && arr == w.str && At(rest)
    {
      hide *;
      PlainTokens();
      NamesAre(w);
      Advance([Word(Name, NameOf(w))] + rest);
      if w.Node? {
        WordHere(Name, w.str, rest);
      }
      if cur.typ != Name {
        SyntaxError();
        return false, NoText;
      }
      HasText();
      arr := cur.text;
      Advance(rest);
      return true, arr;
    }

    /** An operand of a logical operator, on the same line or the next. */
    method ParseConjunct(ghost w: Node := Null, ghost rest: seq<Sym> := []) returns (n: Node, ghost s: seq<Sym>)
      requires Valid()
      requires w.Node? ==> Wanted(printCtx, w, 9, rest) && At(Show(lines, w, rest))
      modifies this, lx
      ensures Valid() && Rem() <= old(Rem()) && printCtx == old(printCtx) && lines == old(lines) && (old(error) ==> error)
      ensures n.Node? && (!error ==> Tree(n, 9, printCtx, s) && taken == old(taken) + s)
      ensures w.Node? ==> n == w && At(rest)
      decreases Rem(), 14
    {
      hide *;
      if w.Node? {
        AtNoLine(Show(lines, w, rest));
      }
      SkipLineTo(w, 9, rest);
      n, s := ParseIn(w, rest);
    }

    method ParseAnd(ghost w: Node := Null, ghost rest: seq<Sym> := []) returns (n: Node, ghost s: seq<Sym>)
      requires Valid()
      requires w.Node? ==> Wanted(printCtx, w, 10, rest) && At(Show(lines, w, rest))
      modifies this, lx
      ensures Valid() && Rem() <= old(Rem()) && printCtx == old(printCtx) && lines == old(lines) && (old(error) ==> error)
      ensures old(cur.typ) != EndOfFile ==> Rem() < old(Rem())
      ensures n.Node? && (!error ==> Tree(n, 10, printCtx, s) && taken == old(taken) + s)
      ensures w.Node? ==> n == w && At(rest)
      decreases Rem(), 14
    {
      hide *;
      PlainTokens();
      ghost var k := Spine(w, 10);
      LoopStart(w, 10, rest);
      n, s := ParseIn(Down(w, 10, k), Tails(lines, w, 10, k, rest));
      if !error {
        TreeUp(printCtx, n, 9, 10, s);
      }
      while cur.typ == AndAnd
        invariant Valid() && Rem() <= old(Rem()) && printCtx == old(printCtx) && lines == old(lines) && (old(error) ==> error)
        invariant old(cur.typ) != EndOfFile ==> Rem() < old(Rem())
        invariant n.Node? && (!error ==> Tree(n, 10, printCtx, s) && taken == old(taken) + s)
        invariant 0 <= k <= Spine(w, 10) && (w.Node? ==> n == Down(w, 10, k) && At(Tails(lines, w, 10, k, rest)))
        decreases Rem()
      {
        LoopTokens(printCtx, cur.typ);
        ghost var p, r := Upper(w, 10, k), Behind(lines, w, 10, k, rest);
        TurnReady(w, 10, k, rest);
        Advance(Show(lines, PartB(p), r));
        var right, u := ParseConjunct(PartB(p), r);
        if !error {
          AndTree(printCtx, n, s, right, u);
          Took3(old(taken), s, [Op(AndAnd)], u);
        }
        n, s := Binary(And, EndOfFile, n, right), s + [Op(AndAnd)] + u;
        k := if w.Node? then k - 1 else 0;
      }
      LoopTokens(printCtx, cur.typ);
      LoopStop(w, 10, k, rest);
    }

    /** An operand of a logical operator, on the same line or the next. */
    method ParseDisjunct(ghost w: Node := Null, ghost rest: seq<Sym> := []) returns (n: Node, ghost s: seq<Sym>)
      requires Valid()
      requires w.Node? ==> Wanted(printCtx, w, 10, rest) && At(Show(lines, w, rest))
      modifies this, lx
      ensures Valid() && Rem() <= old(Rem()) && printCtx == old(printCtx) && lines == old(lines) && (old(error) ==> error)
      ensures n.Node? && (!error ==> Tree(n, 10, printCtx, s) && taken == old(taken) + s)
      ensures w.Node? ==> n == w && At(rest)
      decreases Rem(), 15
    {
      hide *;
      if w.Node? {
        AtNoLine(Show(lines, w, rest));
      }
      SkipLineTo(w, 10, rest);
      n, s := ParseAnd(w, rest);
    }

    method ParseOr(ghost w: Node := Null, ghost rest: seq<Sym> := []) returns (n: Node, ghost s: seq<Sym>)
      requires Valid()
      requires w.Node? ==> Wanted(printCtx, w, 11, rest) && At(Show(lines, w, rest))
      modifies this, lx
      ensures Valid() && Rem() <= old(Rem()) && printCtx == old(printCtx) && lines == old(lines) && (old(error) ==> error)
      ensures old(cur.typ) != EndOfFile ==> Rem() < old(Rem())
      ensures n.Node? && (!error ==> Tree(n, 11, printCtx, s) && taken == old(taken) + s)
      ensures w.Node? ==> n == w && At(rest)
      decreases Rem(), 15
    {
      hide *;
      PlainTokens();
      ghost var k := Spine(w, 11);
      LoopStart(w, 11, rest);
      n, s := ParseAnd(Down(w, 11, k), Tails(lines, w, 11, k, rest));
      if !error {
        TreeUp(printCtx, n, 10, 11, s);
      }
      while cur.typ == OrOr
        invariant Valid() && Rem() <= old(Rem()) && printCtx == old(printCtx) && lines == old(lines) && (old(error) ==> error)
        invariant old(cur.typ) != EndOfFile ==> Rem() < old(Rem())
        invariant n.Node? && (!error ==> Tree(n, 11, printCtx, s) && taken == old(taken) + s)
        invariant 0 <= k <= Spine(w, 11) && (w.Node? ==> n == Down(w, 11, k) && At(Tails(lines, w, 11, k, rest)))
        decreases Rem()
      {
        LoopTokens(printCtx, cur.typ);
        ghost var p, r := Upper(w, 11, k), Behind(lines, w, 11, k, rest);
        TurnReady(w, 11, k, rest);
        Advance(Show(lines, PartB(p), r));
        var right, u := ParseDisjunct(PartB(p), r);
        if !error {
          OrTree(printCtx, n, s, right, u);
          Took3(old(taken), s, [Op(OrOr)], u);
        }
        n, s := Binary(Or, EndOfFile, n, right), s + [Op(OrOr)] + u;
        k := if w.Node? then k - 1 else 0;
      }
      LoopTokens(printCtx, cur.typ);
      LoopStop(w, 11, k, rest);
    }

    method ParseTernary(ghost w: Node := Null, ghost rest: seq<Sym> := [])
      returns (n: Node, ghost s: seq<Sym>)
      requires Valid()
      requires w.Node? ==> Wanted(printCtx, w, 12, rest) && At(Show(lines, w, rest))
      modifies this, lx
      ensures Valid() && Rem() <= old(Rem()) && printCtx == old(printCtx) && lines == old(lines) && (old(error) ==> error)
      ensures old(cur.typ) != EndOfFile ==> Rem() < old(Rem())
      ensures n.Node? && (!error ==> Tree(n, 12, printCtx, s) && taken == old(taken) + s)
      ensures w.Node? ==> n == w && At(rest)
      decreases Rem(), 16
    {
      hide *;
      PlainTokens();
      ghost var isTernary := w.Node? && Rank(w) == 12;
      ghost var behind := if isTernary then ArmsRest(lines, w, rest) else rest;
      if w.Node? {
        TernaryAsked(lines, printCtx, w, rest);
      }
      PartsAre(w);
      n, s := ParseOr(if isTernary then PartA(w) else w, if isTernary then [Op(Question)] + behind else rest);
      if w.Node? {
        TernaryHere(w, rest);
      }
      var question := Accept(Question, behind);
      if question {
        var thenE, u, elseE, v := ParseArms(if isTernary then w else Null, rest);
        if !error {
          TernaryTree(printCtx, n, s, thenE, u, elseE, v);
          TernaryTokens(old(taken), s, u, v);
        }
        return ThreeParts(Ternary, n, thenE, elseE), s + [Op(Question)] + u + [Op(Colon)] + v;
      }
      if !error {
        TreeUp(printCtx, n, 11, 12, s);
      }
    }

    /** The two arms of a conditional, behind its question mark. */
    method ParseArms(ghost w: Node := Null, ghost rest: seq<Sym> := [])
      returns (b: Node, ghost u: seq<Sym>, c: Node, ghost v: seq<Sym>)
      requires Valid()
      requires w.Node? ==> ArmsFit(lines, printCtx, w, rest) && At(ArmsRest(lines, w, rest))
      modifies this, lx
      ensures Valid() && Rem() <= old(Rem()) && printCtx == old(printCtx) && lines == old(lines) && (old(error) ==> error)
      ensures b.Node? && c.Node?
      ensures !error ==> Tree(b, 12, printCtx, u) && Tree(c, 12, printCtx, v) && taken == ((old(taken) + u) + [Op(Colon)]) + v
      ensures w.Node? ==> b == w.b && c == w.c && At(rest)
      decreases Rem(), 18
    {
      hide *;
      PlainTokens();
      PartsAre(w);
      if w.Node? {
        ArmsAre(lines, printCtx, w, rest);
      }
      ghost var last := Show(lines, PartC(w), rest);
      ghost var colon := [Op(Colon)] + last;
      b, u := ParseArm(PartB(w), LineEnd(lines) + colon);
      MarksAreNoLine(last);
      if w.Node? {
        AtLineEnd(lines, colon);
      }
      SkipOptNewlines(colon);
      if w.Node? {
        OpHere(Colon, last);
      }
      Need(Colon, last);
      c, v := ParseArm(PartC(w), rest);
    }

    /** An arm, on the same line or the next. */
    method ParseArm(ghost w: Node := Null, ghost rest: seq<Sym> := []) returns (n: Node, ghost s: seq<Sym>)
      requires Valid()
      requires w.Node? ==> Wanted(printCtx, w, 12, rest) && At(Show(lines, w, rest))
      modifies this, lx
      ensures Valid() && Rem() <= old(Rem()) && printCtx == old(printCtx) && lines == old(lines) && (old(error) ==> error)
      ensures n.Node? && (!error ==> Tree(n, 12, printCtx, s) && taken == old(taken) + s)
      ensures w.Node? ==> n == w && At(rest)
      decreases Rem(), 17
    {
      hide *;
      if w.Node? {
        AtNoLine(Show(lines, w, rest));
      }
      SkipLineTo(w, 12, rest);
      n, s := ParseTernary(w, rest);
    }

    method ParseExpr(ghost w: Node := Null, ghost rest: seq<Sym> := []) returns (n: Node, ghost s: seq<Sym>)
      requires Valid()
      requires w.Node? ==> Wanted(printCtx, w, 13, rest) && At(Show(lines, w, rest))
      modifies this, lx
      ensures Valid() && Rem() <= old(Rem()) && printCtx == old(printCtx) && lines == old(lines) && (old(error) ==> error)
      ensures old(cur.typ) != EndOfFile ==> Rem() < old(Rem())
      ensures n.Node? && (!error ==> Tree(n, 13, printCtx, s) && taken == old(taken) + s)
      ensures w.Node? ==> n == w && At(rest)
      decreases Rem(), 17
    {
      hide *;
      if w.Node? {
        OnceShown(lines, printCtx, w, 13, rest);
      }
      OnceIs(lines, w, 13, rest);
      n, s := ParseTernary(HeadOf(w, 13), HeadRest(lines, w, 13, rest));
      if w.Node? {
        OnceHere(w, 13, rest);
      }
      OperandLoops(printCtx, cur.typ);
      var op := cur.typ;
      AssignmentIsPlain(op);
      if IsAssignment(op) && IsLvalue(n) {
        PlainNotEnd(op);
        Advance(OperandRest(lines, w, 13, rest));
        if w.Node? {
          AtLineEnd(lines, Show(lines, Operand(w, 13), rest));
        }
        SkipLineTo(Operand(w, 13), 13, rest);
        var right, u := ParseExpr(Operand(w, 13), rest);
        if !error {
          AssignmentTree(printCtx, op, n, s, right, u);
          Took3(old(taken), s, [Op(op)], u);
        }
        return Binary(Assignment, op, n, right), s + [Op(op)] + u;
      }
      if !error {
        TreeUp(printCtx, n, 12, 13, s);
      }
    }

    // ----- statements -----

    method ParsePrintList(ghost asked: bool := false, ghost ws: seq<Node> := [], ghost rest: seq<Sym> := [])
      returns (items: seq<Node>, ghost u: seq<Sym>)
      requires Valid() && printCtx
      requires asked ==> AllPlain(ws) && EndsPrinted(ws, rest) && At(ShowList(lines, ws, rest))
      modifies this, lx
      ensures Valid() && Rem() <= old(Rem()) && printCtx == old(printCtx) && lines == old(lines) && (old(error) ==> error)
      ensures forall k :: 0 <= k < |items| ==> items[k].Node?
      ensures !error ==> PrintTrees(items, u) && (items == [] || Trees(items, 12, true, u)) && taken == old(taken) + u
      ensures asked ==> items == ws && At(rest)
      decreases Rem(), 20
    {
      hide *;
      PlainTokens();
      NothingOptional();
      TookNothing(taken);
      items, u := [], [];
      if asked {
        PrintedHere(ws, rest);
      }
      if cur.typ in {Greater, Append, Pipe, Semi, Newline, RBrace, EndOfFile} {
        return;
      }
      var first, more, v := ParsePrintedItem(asked, ws, 0, rest);
      items, u := [first], v;
      ghost var i := 1;
      ItemsSoFar(ws, 0);
      if !error {
        TreesOne(true, first, 12, v);
      }
      while more
        invariant Valid() && Rem() <= old(Rem()) && printCtx == old(printCtx) && lines == old(lines) && (old(error) ==> error)
        invariant items != [] && forall k :: 0 <= k < |items| ==> items[k].Node?
        invariant !error ==> Trees(items, 12, true, u)
        invariant !error ==> taken == if more then (old(taken) + u) + [Op(Comma)] else old(taken) + u
        invariant i > 0 && (asked ==> i <= |ws| && items == ws[..i] && (more <==> i < |ws|) && At(ListRest(lines, ws, i, rest)))
        decreases Rem(), more
      {
        if asked {
          PrintedIsNoLine(lines, ws, i, rest);
        }
        SkipOptNewlines(ListRest(lines, ws, i, rest));
        var next;
        ghost var x;
        next, more, x := ParsePrintedItem(asked, ws, i, rest);
        ItemsSoFar(ws, i);
        if !error {
          TreesMore(true, items, 12, u, next, x);
          Took3(old(taken), u, [Op(Comma)], x);
          Took(old(taken), u + [Op(Comma)] + x, [Op(Comma)]);
        }
        items, u, i := items + [next], u + [Op(Comma)] + x, i + 1;
      }
      NoMoreItems(lines, ws, rest);
      if !error {
        PrintedList(items, u);
      }
    }

    /** One item of print and the comma behind it, if there is one. */
    method ParsePrintedItem(ghost asked: bool, ghost ws: seq<Node>, ghost i: nat, ghost rest: seq<Sym>)
      returns (n: Node, more: bool, ghost u: seq<Sym>)
      requires Valid() && printCtx
      requires asked ==> AllPlain(ws) && EndsPrinted(ws, rest) && i < |ws| && At(ListRest(lines, ws, i, rest))
      modifies this, lx
      ensures Valid() && Rem() <= old(Rem()) && printCtx == old(printCtx) && lines == old(lines) && (old(error) ==> error)
      ensures more ==> Rem() < old(Rem())
      ensures n.Node? && (!error ==> Tree(n, 12, true, u))
      ensures !error ==> taken == if more then (old(taken) + u) + [Op(Comma)] else old(taken) + u
      ensures asked ==> n == ws[i] && (more <==> i + 1 < |ws|) && At(ListRest(lines, ws, i + 1, rest))
      decreases Rem(), 17
    {
      hide *;
      PlainTokens();
      ItemAtIs(ws, i);
      if asked {
        PrintedItem(lines, ws, i, rest);
      }
      n, u := ParseTernary(if asked then ItemAt(ws, i) else Null, ItemRest(lines, ws, i, rest));
      if asked {
        BehindPrinted(ws, i, rest);
      }
      more := Accept(Comma, ListRest(lines, ws, i + 1, rest));
    }

    /** What print lists; a single parenthesized list stands for its items. */
    method ParseExprListPrintCtx(ghost asked: bool := false, ghost ws: seq<Node> := [], ghost rest: seq<Sym> := [])
      returns (items: seq<Node>, ghost u: seq<Sym>)
      requires Valid() && !printCtx
      requires asked ==> CanonPrinted(ws) && EndsPrinted(ws, rest) && At(ShowList(lines, PrintedAs(ws), rest))
      modifies this, lx
      ensures Valid() && Rem() <= old(Rem()) && printCtx == old(printCtx) && lines == old(lines) && (old(error) ==> error)
      ensures !error ==> PrintTrees(items, u) && taken == old(taken) + u
      ensures asked ==> items == ws && At(rest)
      decreases Rem(), 21
    {
      hide *;
      if asked {
        PrintedBack(ws, rest);
      }
      var savedCtx := printCtx;
      printCtx := true;
      items, u := ParsePrintList(asked, PrintedAs(ws), rest);
      printCtx := savedCtx;
      PackedIs(items);
      if |items| == 1 && items[0].kind == Group && |items[0].list| > 1 {
        if !error {
          OneItem(items);
          PrintedGroup(items[0], u);
        }
        return items[0].list, u;
      }
    }

    /** Where print writes to. */
    method ParseRedirect(ghost asked: bool := false, ghost r: Redirect := NoRedirect, ghost w: Node := Null, ghost rest: seq<Sym> := [])
      returns (redirect: Redirect, target: Node, ghost s: seq<Sym>)
      requires Valid() && !printCtx
      requires asked ==> CanonRedirect(r, w) && EndsSimple(rest) && At(ShowRedirect(lines, r, w, rest))
      modifies this, lx
      ensures Valid() && Rem() <= old(Rem()) && printCtx == old(printCtx) && lines == old(lines) && (old(error) ==> error)
      ensures !error ==> RedirectTree(redirect, target, s) && taken == old(taken) + s
      ensures asked ==> redirect == r && target == w && At(rest)
      decreases Rem(), 20
    {
      hide *;
      PlainTokens();
      NothingOptional();
      TookNothing(taken);
      if asked {
        RedirectHere(r, w, rest);
      }
      if cur.typ != Greater && cur.typ != Append && cur.typ != Pipe {
        return NoRedirect, Null, [];
      }
      redirect := RedirectFor(cur.typ);
      RedirectTokens();
      Advance(Show(lines, w, rest));
      var t, u := ParseTernary(if asked then w else Null, rest);
      target := t;
      s := [Op(RedirectSym(redirect))] + u;
      if !error {
        RedirectedTo(redirect, target, u);
        Took(old(taken), [Op(RedirectSym(redirect))], u);
      }
    }

    method ParsePrintLike(isPrintf: bool, ghost w: Node := Null, ghost rest: seq<Sym> := []) returns (n: Node, ghost s: seq<Sym>)
      requires Valid() && !printCtx && cur.typ == if isPrintf then KwPrintf else KwPrint
      requires w.Node? ==> SimpleFits(w, rest) && w.kind == (if isPrintf then Printf else Print) && At(ShowSimple(lines, w, rest))
      modifies this, lx
      ensures Valid() && Rem() <= old(Rem()) && printCtx == old(printCtx) && lines == old(lines) && (old(error) ==> error)
      ensures old(cur.typ) != EndOfFile ==> Rem() < old(Rem())
      ensures n.Node? && (!error ==> SimpleTree(n, s) && taken == old(taken) + s)
      ensures w.Node? ==> n == w && At(rest)
      decreases Rem(), 0
    {
      hide *;
      PlainTokens();
      ghost var k := if isPrintf then KwPrintf else KwPrint;
      ghost var ws, r, a := ItemsOf(w), RedirectOf(w), PartA(w);
      ghost var behind := ShowRedirect(lines, r, a, rest);
      PartsAre(w);
      RedirectOfIs(w);
      if w.Node? {
        PrintShown(lines, w, rest);
        OpHere(k, ShowList(lines, PrintedAs(ws), behind));
      }
      Advance(ShowList(lines, PrintedAs(ws), behind));
      var list, t := ParseExprListPrintCtx(w.Node?, ws, behind);
      var redirect, target, u := ParseRedirect(w.Node?, r, a, rest);
      if !error {
        PrintTree(isPrintf, list, t, redirect, target, u);
        Took(old(taken), [Op(k)], t);
        Took(old(taken), [Op(k)] + t, u);
      }
      return PrintNode(isPrintf, list, redirect, target), [Op(k)] + t + u;
    }

    method ParseDelete(ghost w: Node := Null, ghost rest: seq<Sym> := []) returns (n: Node, ghost s: seq<Sym>)
      requires Valid() && !printCtx && cur.typ == KwDelete
      requires w.Node? ==> SimpleFits(w, rest) && w.kind in {Delete, DeleteAll} && At(ShowSimple(lines, w, rest))
      modifies this, lx
      ensures Valid() && Rem() <= old(Rem()) && printCtx == old(printCtx) && lines == old(lines) && (old(error) ==> error)
      ensures old(cur.typ) != EndOfFile ==> Rem() < old(Rem())
      ensures n.Node? && (!error ==> SimpleTree(n, s) && taken == old(taken) + s)
      ensures w.Node? ==> n == w && At(rest)
      decreases Rem(), 0
    {
      hide *;
      PlainTokens();
      ghost var behind := [Word(Name, NameOf(w))] + DeletedTail(w, rest);
      if w.Node? {
        DeleteShown(lines, w, rest);
        OpHere(KwDelete, behind);
      }
      Advance(behind);
      if w.Node? {
        WordHere(Name, NameOf(w), DeletedTail(w, rest));
      }
      if cur.typ != Name {
        SyntaxError();
        return Leaf(DeleteAll, NoText), [];
      }
      var d, u := ParseDeleted(w, rest);
      if !error {
        Took(old(taken), [Op(KwDelete)], u);
      }
      return d, [Op(KwDelete)] + u;
    }

    /** What delete takes: an element, or a whole array with or without parentheses. */
    method ParseDeleted(ghost w: Node := Null, ghost rest: seq<Sym> := []) returns (n: Node, ghost s: seq<Sym>)
      requires Valid() && !printCtx && cur.typ == Name
      requires w.Node? ==> SimpleFits(w, rest) && w.kind in {Delete, DeleteAll}
                           && At([Word(Name, NameOf(w))] + DeletedTail(w, rest))
      modifies this, lx
      ensures Valid() && Rem() <= old(Rem()) && printCtx == old(printCtx) && lines == old(lines) && (old(error) ==> error)
      ensures old(cur.typ) != EndOfFile ==> Rem() < old(Rem())
      ensures n.Node? && (!error ==> SimpleTree(n, [Op(KwDelete)] + s) && taken == old(taken) + s)
      ensures w.Node? ==> n == w && At(rest)
      decreases Rem(), 21
    {
      hide *;
      PlainTokens();
      HasText();
      var name := cur.text;
      s := [Word(Name, name)];
      ghost var ws, behind := ItemsOf(w), [Op(RBracket)] + rest;
      PartsAre(w);
      if w.Node? {
        DeleteShown(lines, w, rest);
        WordHere(Name, NameOf(w), DeletedTail(w, rest));
      }
      Advance(DeletedTail(w, rest));
      DeleteAllTree(name);
      if w.Node? {
        DeletedHere(w, rest);
      }
      var subscripted := Accept(LBracket, if w.Node? && w.kind == Delete then ListRest(false, ws, 0, behind) else rest);
      if subscripted {
        var list, u := ParseSubscripts(ws, rest);
        if !error {
          DeleteTree(name, list, u);
          Took3(old(taken), s, [Op(LBracket)], u);
          Took(old(taken), s + [Op(LBracket)] + u, [Op(RBracket)]);
        }
        return WithList(Delete, name, list), s + [Op(LBracket)] + u + [Op(RBracket)];
      }
      var call := Accept(LParen, rest);
      if call {
        Need(RParen);
        Took3(old(taken), s, [Op(LParen)], [Op(RParen)]);
        s := s + [Op(LParen)] + [Op(RParen)];
      }
      return Leaf(DeleteAll, name), s;
    }

    method ParseSimpleStatement(ghost w: Node := Null, ghost rest: seq<Sym> := []) returns (n: Node, ghost s: seq<Sym>)
      requires Valid() && !printCtx
      requires w.Node? ==> SimpleFits(w, rest) && At(ShowSimple(lines, w, rest))
      modifies this, lx
      ensures Valid() && Rem() <= old(Rem()) && printCtx == old(printCtx) && lines == old(lines) && (old(error) ==> error)
      ensures old(cur.typ) != EndOfFile ==> Rem() < old(Rem())
      ensures n.Node? && (!error ==> SimpleTree(n, s) && taken == old(taken) + s)
      ensures w.Node? ==> n == w && At(rest)
      decreases Rem(), 21
    {
      hide *;
      if w.Node? {
        SimpleHere(w, rest);
      }
      PartsAre(w);
      if cur.typ == KwPrint || cur.typ == KwPrintf {
        n, s := ParsePrintLike(cur.typ == KwPrintf, w, rest);
      } else if cur.typ == KwDelete {
        n, s := ParseDelete(w, rest);
      } else {
        var e;
        e, s := ParseExpr(PartA(w), rest);
        if !error {
          ExprStmtTree(e, s);
        }
        n := OneChild(ExprStmt, EndOfFile, e);
      }
    }

    /** An expression between parentheses, where no line ends. */
    method ParseInside(ghost w: Node, ghost r: seq<Sym>) returns (n: Node, ghost s: seq<Sym>)
      requires Valid() && !printCtx
      requires w.Node? ==> Wanted(false, w, 13, r) && At(Show(false, w, r))
      modifies this, lx
      ensures Valid() && Rem() <= old(Rem()) && printCtx == old(printCtx) && lines == old(lines) && (old(error) ==> error)
      ensures n.Node? && (!error ==> Tree(n, 13, false, s) && taken == old(taken) + s)
      ensures w.Node? ==> n == w && At(r)
      decreases Rem(), 18
    {
      hide *;
      ghost var saved := lines;
      lines := false;
      n, s := ParseExpr(w, r);
      lines := saved;
    }

    /** A condition in parentheses. */
    method ParseCondition(ghost w: Node := Null, ghost r: seq<Sym> := []) returns (n: Node, ghost s: seq<Sym>)
      requires Valid() && !printCtx
      requires w.Node? ==> Fits(false, w, 13) && At(ShowCondition(w, r))
      modifies this, lx
      ensures Valid() && Rem() <= old(Rem()) && printCtx == old(printCtx) && lines == old(lines) && (old(error) ==> error)
      ensures n.Node? && (!error ==> InParens(n, s) && taken == old(taken) + s)
      ensures w.Node? ==> n == w && At(r)
      decreases Rem(), 19
    {
      hide *;
      PlainTokens();
      ghost var behind := [Op(RParen)] + r;
      if w.Node? {
        ConditionShown(w, r);
        OpHere(LParen, Show(false, w, behind));
      }
      Need(LParen, Show(false, w, behind));
      var e, u := ParseInside(w, behind);
      if w.Node? {
        OpHere(RParen, r);
      }
      Need(RParen, r);
      n, s := e, [Op(LParen)] + u + [Op(RParen)];
      if !error {
        ParensAre(e, u);
        Took(old(taken), [Op(LParen)], u);
        Took(old(taken), [Op(LParen)] + u, [Op(RParen)]);
      }
    }

    method ParseBlock(ghost w: Node := Null, ghost r: seq<Sym> := []) returns (n: Node, ghost s: seq<Sym>)
      requires Valid() && !printCtx
      requires w.Node? ==> IsBlock(w) && At(ShowBlock(lines, w, r))
      modifies this, lx
      ensures Valid() && Rem() <= old(Rem()) && printCtx == old(printCtx) && lines == old(lines) && (old(error) ==> error)
      ensures old(cur.typ) == LBrace ==> Rem() < old(Rem())
      ensures n.Node? && (!error ==> StmtTree(n, s) && ActionTree(n, s) && taken == old(taken) + s)
      ensures w.Node? ==> n == w && At(r)
      decreases Rem(), 22
    {
      hide *;
      PlainTokens();
      ghost var ws, behind := ItemsOf(w), [Op(RBrace)] + r;
      PartsAre(w);
      if w.Node? {
        BlockShown(lines, w, r);
        OpHere(LBrace, ShowStmts(lines, ws, behind));
      }
      Need(LBrace, ShowStmts(lines, ws, behind));
      var list, u := ParseStatementListUntil(RBrace, w.Node?, ws, behind);
      if w.Node? {
        OpHere(RBrace, r);
      }
      Need(RBrace, r);
      if !error {
        BlockTree(list, u);
        Took(old(taken), [Op(LBrace)], u);
        Took(old(taken), [Op(LBrace)] + u, [Op(RBrace)]);
      }
      return WithList(Block, NoText, list), [Op(LBrace)] + u + [Op(RBrace)];
    }

    method ParseIf(ghost w: Node := Null, ghost r: seq<Sym> := []) returns (n: Node, ghost s: seq<Sym>)
      requires Valid() && !printCtx && cur.typ == KwIf
      requires w.Node? ==> w.kind == If && StmtFits(w, r) && At(ShowStmt(lines, w, r))
      modifies this, lx
      ensures Valid() && Rem() <= old(Rem()) && printCtx == old(printCtx) && lines == old(lines) && (old(error) ==> error)
      ensures old(cur.typ) != EndOfFile ==> Rem() < old(Rem())
      ensures n.Node? && (!error ==> StmtTree(n, s) && taken == old(taken) + s)
      ensures w.Node? ==> n == w && Past(r)
      decreases Rem(), 22
    {
      hide *;
      PlainTokens();
      ghost var behind := if w.Node? then ShowElse(lines, w.c, r) else [];
      ghost var body := if w.Node? && w.b.Node? then ShowStmt(lines, w.b, behind) else [];
      PartsAre(w);
      if w.Node? {
        IfShown(lines, w, r);
        StmtIsNoLine(lines, w.b, behind);
        OpHere(KwIf, ShowCondition(w.a, LineEnd(lines) + body));
      }
      Advance(ShowCondition(PartA(w), LineEnd(lines) + body));
      var cond, c := ParseCondition(PartA(w), LineEnd(lines) + body);
      if w.Node? {
        AtLineEnd(lines, body);
      }
      SkipOptNewlines(body);
      var thenS, t := ParseStatement(PartB(w), behind);
      var m := SkipTerms(behind);
      var elseS, e := ParseElse(w.Node?, PartC(w), r);
      if !error {
        IfTree(cond, c, thenS, t, m, elseS, e);
        IfTokens(old(taken), [Op(KwIf)], c, t, m, e);
      }
      return ThreeParts(If, cond, thenS, elseS), [Op(KwIf)] + c + t + m + e;
    }

    method ParseElse(ghost asked: bool := false, ghost w: Node := Null, ghost r: seq<Sym> := [])
      returns (n: Node, ghost s: seq<Sym>)
      requires Valid() && !printCtx
      requires asked ==> (w.Null? || StmtFits(w, r)) && (w.Null? ==> !Starts(r, KwElse)) && At(ShowElse(lines, w, r))
      modifies this, lx
      ensures Valid() && Rem() <= old(Rem()) && printCtx == old(printCtx) && lines == old(lines) && (old(error) ==> error)
      ensures !error ==> ElseTree(n, s) && taken == old(taken) + s
      ensures asked ==> n == w && Past(r)
      decreases Rem(), 22
    {
      hide *;
      PlainTokens();
      NothingOptional();
      TookNothing(taken);
      ghost var body := if w.Node? then ShowStmt(lines, w, r) else [];
      if asked {
        ElseHere(w, r);
      }
      if cur.typ != KwElse {
        return Null, [];
      }
      Advance(body);
      if asked {
        StmtIsNoLine(lines, w, r);
      }
      SkipOptNewlines(body);
      var e, t := ParseStatement(if asked then w else Null, r);
      if !error {
        ElseOf(e, t);
        Took(old(taken), [Op(KwElse)], t);
      }
      return e, [Op(KwElse)] + t;
    }

    method ParseWhile(ghost w: Node := Null, ghost r: seq<Sym> := []) returns (n: Node, ghost s: seq<Sym>)
      requires Valid() && !printCtx && cur.typ == KwWhile
      requires w.Node? ==> w.kind == While && StmtFits(w, r) && At(ShowStmt(lines, w, r))
      modifies this, lx
      ensures Valid() && Rem() <= old(Rem()) && printCtx == old(printCtx) && lines == old(lines) && (old(error) ==> error)
      ensures old(cur.typ) != EndOfFile ==> Rem() < old(Rem())
      ensures n.Node? && (!error ==> StmtTree(n, s) && taken == old(taken) + s)
      ensures w.Node? ==> n == w && Past(r)
      decreases Rem(), 22
    {
      hide *;
      PlainTokens();
      ghost var behind := if w.Node? && w.b.Node? then ShowStmt(lines, w.b, r) else [];
      PartsAre(w);
      if w.Node? {
        WhileShown(lines, w, r);
        StmtIsNoLine(lines, w.b, r);
        OpHere(KwWhile, ShowCondition(w.a, LineEnd(lines) + behind));
      }
      Advance(ShowCondition(PartA(w), LineEnd(lines) + behind));
      var cond, c := ParseCondition(PartA(w), LineEnd(lines) + behind);
      if w.Node? {
        AtLineEnd(lines, behind);
      }
      SkipOptNewlines(behind);
      var body, t := ParseStatement(PartB(w), r);
      if !error {
        WhileTree(cond, c, body, t);
        Took(old(taken), [Op(KwWhile)], c);
        Took(old(taken), [Op(KwWhile)] + c, t);
      }
      return Binary(While, EndOfFile, cond, body), [Op(KwWhile)] + c + t;
    }

    method ParseDo(ghost w: Node := Null, ghost r: seq<Sym> := []) returns (n: Node, ghost s: seq<Sym>)
      requires Valid() && !printCtx && cur.typ == KwDo
      requires w.Node? ==> w.kind == DoWhile && StmtFits(w, r) && At(ShowStmt(lines, w, r))
      modifies this, lx
      ensures Valid() && Rem() <= old(Rem()) && printCtx == old(printCtx) && lines == old(lines) && (old(error) ==> error)
      ensures old(cur.typ) != EndOfFile ==> Rem() < old(Rem())
      ensures n.Node? && (!error ==> StmtTree(n, s) && taken == old(taken) + s)
      ensures w.Node? ==> n == w && Past(r)
      decreases Rem(), 22
    {
      hide *;
      PlainTokens();
      ghost var last := [Op(Term(lines))] + r;
      ghost var test := ShowCondition(PartA(w), last);
      ghost var behind := [Op(KwWhile)] + test;
      ghost var inner := if w.Node? && w.b.Node? then ShowStmt(lines, w.b, behind) else [];
      PartsAre(w);
      if w.Node? {
        DoShown(lines, w, r);
        StmtIsNoLine(lines, w.b, behind);
        OpHere(KwDo, inner);
      }
      Advance(inner);
      SkipOptNewlines(inner);
      var body, t := ParseStatement(PartB(w), behind);
      var m, cond, c := ParseTest(PartA(w), last);
      if !error {
        DoTree(cond, c, body, t, m);
        IfTokens(old(taken), [Op(KwDo)], t, m, [Op(KwWhile)], c);
      }
      if w.Node? {
        PastTerm(r);
      }
      return Binary(DoWhile, EndOfFile, cond, body), [Op(KwDo)] + t + m + [Op(KwWhile)] + c;
    }

    /** The condition behind the body of a do loop. */
    method ParseTest(ghost w: Node := Null, ghost r: seq<Sym> := []) returns (ghost m: seq<Sym>, n: Node, ghost c: seq<Sym>)
      requires Valid() && !printCtx
      requires w.Node? ==> Fits(false, w, 13) && Past([Op(KwWhile)] + ShowCondition(w, r))
      modifies this, lx
      ensures Valid() && Rem() <= old(Rem()) && printCtx == old(printCtx) && lines == old(lines) && (old(error) ==> error)
      ensures n.Node? && (!error ==> Semis(m) && InParens(n, c) && taken == ((old(taken) + m) + [Op(KwWhile)]) + c)
      ensures w.Node? ==> n == w && At(r)
      decreases Rem(), 19
    {
      hide *;
      PlainTokens();
      ghost var test := ShowCondition(w, r);
      WhileIsNoTerm(test);
      m := SkipTerms([Op(KwWhile)] + test);
      if w.Node? {
        OpHere(KwWhile, test);
      }
      Need(KwWhile, test);
      n, c := ParseCondition(w, r);
    }

    method ParseFor(ghost w: Node := Null, ghost r: seq<Sym> := []) returns (n: Node, ghost s: seq<Sym>)
      requires Valid() && !printCtx && cur.typ == KwFor
      requires w.Node? ==> w.kind in {For, ForIn} && StmtFits(w, r) && At(ShowStmt(lines, w, r))
      modifies this, lx
      ensures Valid() && Rem() <= old(Rem()) && printCtx == old(printCtx) && lines == old(lines) && (old(error) ==> error)
      ensures old(cur.typ) != EndOfFile ==> Rem() < old(Rem())
      ensures n.Node? && (!error ==> StmtTree(n, s) && taken == old(taken) + s)
      ensures w.Node? ==> n == w && Past(r)
      decreases Rem(), 22
    {
      hide *;
      PlainTokens();
      ghost var head := ForHeadOf(lines, w, r);
      if w.Node? {
        ForShown(lines, w, r);
        OpHere(KwFor, [Op(LParen)] + head);
      }
      Advance([Op(LParen)] + head);
      if w.Node? {
        OpHere(LParen, head);
      }
      Need(LParen, head);
      var f, u := ParseForTail(w, r);
      ForHead(old(taken), u);
      return f, [Op(KwFor)] + [Op(LParen)] + u;
    }

    /** What stands behind the parenthesis tells which loop it is. */
    method ParseForTail(ghost w: Node := Null, ghost r: seq<Sym> := []) returns (n: Node, ghost s: seq<Sym>)
      requires Valid() && !printCtx
      requires w.Node? ==> w.kind in {For, ForIn} && StmtFits(w, r) && At(ForHeadOf(lines, w, r))
      modifies this, lx
      ensures Valid() && Rem() <= old(Rem()) && printCtx == old(printCtx) && lines == old(lines) && (old(error) ==> error)
      ensures n.Node? && (!error ==> StmtTree(n, [Op(KwFor)] + [Op(LParen)] + s) && taken == old(taken) + s)
      ensures w.Node? ==> n == w && Past(r)
      decreases Rem(), 25
    {
      hide *;
      if w.Node? {
        ForKindHere(w, r);
      }
      if cur.typ == Name {
        var next := LookAhead();
        if next == KwIn {
          n, s := ParseForIn(w, r);
          return;
        }
      }
      n, s := ParseForLoop(w, r);
    }

    /** The three parts of a for loop and its body. */
    method ParseForLoop(ghost w: Node := Null, ghost r: seq<Sym> := []) returns (n: Node, ghost s: seq<Sym>)
      requires Valid() && !printCtx
      requires w.Node? ==> w.kind == For && StmtFits(w, r) && At(ForInit(lines, w, r))
      modifies this, lx
      ensures Valid() && Rem() <= old(Rem()) && printCtx == old(printCtx) && lines == old(lines) && (old(error) ==> error)
      ensures n.Node? && (!error ==> StmtTree(n, [Op(KwFor)] + [Op(LParen)] + s) && taken == old(taken) + s)
      ensures w.Node? ==> n == w && Past(r)
      decreases Rem(), 24
    {
      hide *;
      PlainTokens();
      ghost var test := if w.Node? then ForCondition(lines, w, r) else [];
      ghost var last := if w.Node? then ForPost(lines, w, r) else [];
      ghost var behind := if w.Node? then ForBody(lines, w, r) else [];
      PartsAre(w);
      if w.Node? {
        ForParts(lines, w, r);
      }
      ghost var saved := lines;
      lines := false;
      var init, i := ParseForPart(Semi, w.Node?, PartA(w), test);
      var cond, c := ParseForCondition(w.Node?, PartB(w), last);
      var post, p := ParseForPart(RParen, w.Node?, PartC(w), LineEnd(saved) + behind);
      lines := saved;
      if w.Node? {
        StmtIsNoLine(lines, w.list[0], r);
        AtLineEnd(lines, behind);
      }
      SkipOptNewlines(behind);
      var body, t := ParseStatement(if w.Node? then ItemAt(w.list, 0) else Null, r);
      if !error {
        ForTree(init, i, cond, c, post, p, body, t);
        ForPieces(old(taken), i, c, p, t);
      }
      return ForNode(init, cond, post, body), i + [Op(Semi)] + c + [Op(Semi)] + p + [Op(RParen)] + t;
    }

    /** A statement that may be missing, and what ends it. */
    method ParseForPart(stop: TokType, ghost asked: bool := false, ghost w: Node := Null, ghost r: seq<Sym> := [])
      returns (n: Node, ghost i: seq<Sym>)
      requires Valid() && !printCtx && !lines && IsPlain(stop)
      requires asked ==> stop in {Semi, RParen} && (w.Null? || SimpleFits(w, [Op(stop)] + r)) && At(ShowPart(w, [Op(stop)] + r))
      modifies this, lx
      ensures Valid() && Rem() <= old(Rem()) && printCtx == old(printCtx) && lines == old(lines) && (old(error) ==> error)
      ensures !error ==> MaybeSimpleTree(n, i) && taken == (old(taken) + i) + [Op(stop)]
      ensures asked ==> n == w && At(r)
      decreases Rem(), 22
    {
      hide *;
      NothingOptional();
      TookNothing(taken);
      n, i := Null, [];
      if asked {
        PartHere(stop, w, r);
      }
      if cur.typ != stop {
        n, i := ParseSimpleStatement(if asked then w else Null, [Op(stop)] + r);
        if !error {
          MaybeOfSimple(n, i);
        }
      }
      if asked {
        OpHere(stop, r);
      }
      Need(stop, r);
    }

    method ParseForCondition(ghost asked: bool := false, ghost w: Node := Null, ghost r: seq<Sym> := [])
      returns (n: Node, ghost c: seq<Sym>)
      requires Valid() && !printCtx && !lines
      requires asked ==> (w.Null? || Fits(false, w, 13)) && At(ShowMaybe(lines, w, [Op(Semi)] + r))
      modifies this, lx
      ensures Valid() && Rem() <= old(Rem()) && printCtx == old(printCtx) && lines == old(lines) && (old(error) ==> error)
      ensures !error ==> MaybeTree(n, c) && taken == (old(taken) + c) + [Op(Semi)]
      ensures asked ==> n == w && At(r)
      decreases Rem(), 22
    {
      hide *;
      PlainTokens();
      NothingOptional();
      TookNothing(taken);
      n, c := Null, [];
      if asked {
        MaybeHere(w, r);
      }
      if cur.typ != Semi {
        n, c := ParseExpr(if asked then w else Null, [Op(Semi)] + r);
        if !error {
          MaybeOfTree(n, c);
        }
      }
      if asked {
        OpHere(Semi, r);
      }
      Need(Semi, r);
    }

    method ParseForIn(ghost w: Node := Null, ghost r: seq<Sym> := []) returns (n: Node, ghost s: seq<Sym>)
      requires Valid() && !printCtx && cur.typ == Name && Lex(lx.src, lx.St()).0.typ == KwIn
      requires w.Node? ==> w.kind == ForIn && StmtFits(w, r) && At(ForHeadOf(lines, w, r))
      modifies this, lx
      ensures Valid() && Rem() <= old(Rem()) && printCtx == old(printCtx) && lines == old(lines) && (old(error) ==> error)
      ensures old(cur.typ) != EndOfFile ==> Rem() < old(Rem())
      ensures n.Node? && (!error ==> StmtTree(n, [Op(KwFor)] + [Op(LParen)] + s) && taken == old(taken) + s)
      ensures w.Node? ==> n == w && Past(r)
      decreases Rem(), 22
    {
      hide *;
      PlainTokens();
      ghost var behind := if w.Node? && w.a.Node? then ShowStmt(lines, w.a, r) else [];
      PartsAre(w);
      if w.Node? {
        ForInShown(lines, w, r);
        StmtIsNoLine(lines, w.a, r);
      }
      var name, arr := ParseForInHead(w, LineEnd(lines) + behind);
      if w.Node? {
        AtLineEnd(lines, behind);
      }
      SkipOptNewlines(behind);
      var body, t := ParseStatement(PartA(w), r);
      if !error {
        ForInTree(name, arr, body, t);
        ForInPieces(old(taken), [Word(Name, name)], [Word(Name, arr)], t);
      }
      return ForInNode(name, arr, body), [Word(Name, name)] + [Op(KwIn)] + [Word(Name, arr)] + [Op(RParen)] + t;
    }

    /** NAME in NAME and the closing parenthesis. */
    method ParseForInHead(ghost w: Node := Null, ghost r: seq<Sym> := []) returns (name: Text, arr: Text)
      requires Valid() && !printCtx && cur.typ == Name && Lex(lx.src, lx.St()).0.typ == KwIn
      requires w.Node? ==> At([Word(Name, w.str)] + ([Op(KwIn)] + ([Word(Name, w.str2)] + ([Op(RParen)] + r))))
      modifies this, lx
      ensures Valid() && Rem() <= old(Rem()) && printCtx == old(printCtx) && lines == old(lines) && (old(error) ==> error)
      ensures old(cur.typ) != EndOfFile ==> Rem() < old(Rem())
      ensures name.Text? && (!error ==> arr.Text?)
      ensures !error ==> taken == (((old(taken) + [Word(Name, name)]) + [Op(KwIn)]) + [Word(Name, arr)]) + [Op(RParen)]
      ensures w.Node? ==> name == w.str && arr == w.str2 && At(r)
      decreases Rem(), 0
    {
      hide *;
      PlainTokens();
      HasText();
      name := cur.text;
      ghost var x, y := NameOf(w), ArrayName(w);
      ghost var last := [Op(RParen)] + r;
      NamesAre(w);
      if w.Node? {
        WordHere(Name, x, [Op(KwIn)] + ([Word(Name, y)] + last));
      }
      Advance([Op(KwIn)] + ([Word(Name, y)] + last));
      if w.Node? {
        OpHere(KwIn, [Word(Name, y)] + last);
      }
      Advance([Word(Name, y)] + last);
      if w.Node? {
        WordHere(Name, y, last);
      }
      if cur.typ != Name {
        SyntaxError();
      }
      HasText();
      arr := cur.text;
      Advance(last);
      if w.Node? {
        OpHere(RParen, r);
      }
      Need(RParen, r);
    }

    /** break, continue, next, nextfile, exit and return. */
    method ParseJump(ghost w: Node := Null, ghost r: seq<Sym> := []) returns (n: Node, ghost s: seq<Sym>)
      requires Valid() && !printCtx && cur.typ in {KwBreak, KwContinue, KwNext, KwNextFile, KwExit, KwReturn}
      requires w.Node? ==> IsJump(w) && StmtFits(w, r) && At(ShowStmt(lines, w, r))
      modifies this, lx
      ensures Valid() && Rem() <= old(Rem()) && printCtx == old(printCtx) && lines == old(lines) && (old(error) ==> error)
      ensures old(cur.typ) != EndOfFile ==> Rem() < old(Rem())
      ensures n.Node? && (!error ==> StmtTree(n, s) && taken == old(taken) + s)
      ensures w.Node? ==> n == w && Past(r)
      decreases Rem(), 22
    {
      hide *;
      PlainTokens();
      var t := cur.typ;
      ghost var last := [Op(Term(lines))] + r;
      PartsAre(w);
      if w.Node? {
        JumpShown(lines, w, r);
        OpHere(JumpToken(w.kind), ShowMaybe(lines, w.a, last));
      }
      Advance(ShowMaybe(lines, PartA(w), last));
      if t != KwExit && t != KwReturn {
        JumpTree(t);
        if w.Node? {
          NothingMaybe(lines, last);
          PastTerm(r);
        }
        return NewNode(JumpKind(t)), [Op(t)];
      }
      var value, u := ParseValue(t == KwReturn, w.Node?, PartA(w), r);
      if !error {
        LeaveTree(t, value, u);
        Took(old(taken), [Op(t)], u);
      }
      if w.Node? {
        PastTerm(r);
      }
      return LeaveNode(t, value), [Op(t)] + u;
    }

    /** The value of exit or return, if there is one. */
    method ParseValue(getlineToo: bool, ghost asked: bool := false, ghost w: Node := Null, ghost r: seq<Sym> := [])
      returns (n: Node, ghost s: seq<Sym>)
      requires Valid() && !printCtx
      requires asked ==> (w.Null? || (Fits(false, w, 13) && (getlineToo || First(w) != KwGetline))) && At(ShowMaybe(lines, w, [Op(Term(lines))] + r))
      modifies this, lx
      ensures Valid() && Rem() <= old(Rem()) && printCtx == old(printCtx) && lines == old(lines) && (old(error) ==> error)
      ensures !error ==> MaybeTree(n, s) && taken == old(taken) + s
      ensures asked ==> n == w && At([Op(Term(lines))] + r)
      decreases Rem(), 22
    {
      hide *;
      NothingOptional();
      TookNothing(taken);
      if asked {
        TermIs(lines);
        ValueHere(Term(lines), w, r);
      }
      if StartsOperand(cur.typ) || (getlineToo && cur.typ == KwGetline) {
        n, s := ParseExpr(if asked then w else Null, [Op(Term(lines))] + r);
        if !error {
          MaybeOfTree(n, s);
        }
        return;
      }
      return Null, [];
    }

    /** A statement; asked for a tree whose tokens are ahead with what ends it behind them,
        it gives that tree. */
    method ParseStatement(ghost w: Node := Null, ghost r: seq<Sym> := []) returns (n: Node, ghost s: seq<Sym>)
      requires Valid() && !printCtx
      requires w.Node? ==> StmtFits(w, r) && At(ShowStmt(lines, w, r))
      modifies this, lx
      ensures Valid() && Rem() <= old(Rem()) && printCtx == old(printCtx) && lines == old(lines) && (old(error) ==> error)
      ensures old(cur.typ) !in {EndOfFile, Newline, Semi} ==> Rem() < old(Rem())
      ensures n.Node? && (!error ==> StmtTree(n, s) && taken == old(taken) + s)
      ensures w.Node? ==> n == w && Past(r)
      decreases Rem(), 23
    {
      hide *;
      TookNothing(taken);
      if w.Node? {
        StmtIsNoLine(lines, w, r);
      }
      SkipOptNewlines(if w.Node? then ShowStmt(lines, w, r) else []);
      if w.Node? {
        StatementHere(w, r);
      }
      if cur.typ == LBrace {
        n, s := ParseBlock(w, [Op(Term(lines))] + r);
        if w.Node? {
          PastTerm(r);
        }
      } else if cur.typ == KwIf {
        n, s := ParseIf(w, r);
      } else if cur.typ == KwWhile {
        n, s := ParseWhile(w, r);
      } else if cur.typ == KwDo {
        n, s := ParseDo(w, r);
      } else if cur.typ == KwFor {
        n, s := ParseFor(w, r);
      } else if cur.typ in {KwBreak, KwContinue, KwNext, KwNextFile, KwExit, KwReturn} {
        n, s := ParseJump(w, r);
      } else if cur.typ == Semi {
        EmptyStatement();
        n, s := NewNode(Block), [];
      } else {
        n, s := ParseSimpleStatement(w, [Op(Term(lines))] + r);
        if !error {
          SimpleIsStmt(n, s);
        }
        if w.Node? {
          PastTerm(r);
        }
      }
    }

    /** One statement and the separators behind it. */
    method ParseNextStatement(ghost stop: TokType, ghost asked: bool, ghost ws: seq<Node>, ghost i: nat, ghost rest: seq<Sym>)
      returns (n: Node, ghost t: seq<Sym>, ghost m: seq<Sym>)
      requires Valid() && !printCtx && cur.typ !in {stop, EndOfFile, Newline, Semi}
      requires asked ==> stop == RBrace && AllStmts(ws) && Starts(rest, RBrace) && i <= |ws| && At(StmtsFrom(lines, ws, i, rest))
      modifies this, lx
      ensures Valid() && Rem() < old(Rem()) && printCtx == old(printCtx) && lines == old(lines) && (old(error) ==> error)
      ensures cur.typ != Newline && cur.typ != Semi
      ensures !error ==> StmtTree(n, t) && Semis(m) && taken == (old(taken) + t) + m
      ensures asked ==> i < |ws| && n == ws[i] && At(StmtsFrom(lines, ws, i + 1, rest))
      decreases Rem(), 24
    {
      hide *;
      ghost var behind := StmtsFrom(lines, ws, i + 1, rest);
      if asked {
        StmtsHere(ws, i, rest);
        StmtAt(lines, ws, i, rest);
        StmtsStart(lines, ws, i + 1, rest);
      }
      ItemAtIs(ws, i);
      n, t := ParseStatement(if asked then ItemAt(ws, i) else Null, behind);
      m := SkipTerms(behind);
    }

    method ParseStatementListUntil(stop: TokType, ghost asked: bool := false, ghost ws: seq<Node> := [], ghost rest: seq<Sym> := [])
      returns (list: seq<Node>, ghost u: seq<Sym>)
      requires Valid() && !printCtx
      requires asked ==> stop == RBrace && AllStmts(ws) && Starts(rest, RBrace) && At(ShowStmts(lines, ws, rest))
      modifies this, lx
      ensures Valid() && Rem() <= old(Rem()) && printCtx == old(printCtx) && lines == old(lines) && (old(error) ==> error)
      ensures !error ==> StmtTrees(list, u) && taken == old(taken) + u
      ensures asked ==> list == ws && At(rest)
      decreases Rem(), if error then 0 else 25
    {
      hide *;
      list := [];
      ghost var i := 0;
      if asked {
        StmtsFromStart(lines, ws, rest);
        PastHere(StmtsFrom(lines, ws, 0, rest));
        StmtsStart(lines, ws, 0, rest);
      }
      u := SkipTerms(StmtsFrom(lines, ws, 0, rest));
      StmtTreesNone(u);
      while cur.typ != stop && cur.typ != EndOfFile && !error
        invariant Valid() && Rem() <= old(Rem()) && printCtx == old(printCtx) && lines == old(lines) && (old(error) ==> error)
        invariant cur.typ != Newline && cur.typ != Semi
        invariant !error ==> StmtTrees(list, u) && taken == old(taken) + u
        invariant asked ==> i <= |ws| && list == ws[..i] && At(StmtsFrom(lines, ws, i, rest))
        decreases Rem()
      {
        ItemsSoFar(ws, i);
        var n, t, m := ParseNextStatement(stop, asked, ws, i, rest);
        if !error {
          StmtTreesMore(list, u, n, t, m);
          Took3(old(taken), u, t, m);
        }
        list, u, i := list + [n], u + t + m, i + 1;
      }
      if asked {
        StmtsHere(ws, i, rest);
      }
    }

    // ----- the program -----

    /** The pattern of a rule: its kind and up to two expressions. */
    method ParsePattern(ghost w: Node := Null, ghost r: seq<Sym> := [])
      returns (kind: PatternKind, a: Node, b: Node, ghost s: seq<Sym>)
      requires Valid() && !printCtx
      requires w.Node? ==> PatternFits(w, r) && At(ShowPattern(lines, w, r))
      modifies this, lx
      ensures Valid() && Rem() <= old(Rem()) && printCtx == old(printCtx) && lines == old(lines) && (old(error) ==> error)
      ensures kind == PatAlways || old(cur.typ) == EndOfFile || Rem() < old(Rem())
      ensures kind == PatAlways ==> cur == old(cur) && cur.typ == LBrace
      ensures !error ==> PatternTree(kind, a, b, s) && taken == old(taken) + s
      ensures w.Node? ==> kind == w.pattern && a == w.a && b == w.b && At(r)
    {
      hide *;
      PlainTokens();
      PlainPattern();
      TookNothing(taken);
      if w.Node? {
        PatternHere(w, r);
      }
      ghost var exprs := if w.Node? then ShowPattern(lines, w, r) else [];
      var begin := Accept(KwBegin, if cur.typ == KwBegin then r else exprs);
      if begin {
        return PatBegin, Null, Null, [Op(KwBegin)];
      }
      if w.Node? {
        PatternHere(w, r);
      }
      var end := Accept(KwEnd, if cur.typ == KwEnd then r else exprs);
      if end {
        return PatEnd, Null, Null, [Op(KwEnd)];
      }
      if w.Node? {
        PatternHere(w, r);
      }
      if cur.typ == LBrace {
        return PatAlways, Null, Null, [];
      }
      kind, a, b, s := ParsePatternExprs(w, r);
    }

    method ParsePatternExprs(ghost w: Node := Null, ghost r: seq<Sym> := [])
      returns (kind: PatternKind, a: Node, b: Node, ghost s: seq<Sym>)
      requires Valid() && !printCtx
      requires w.Node? ==> PatternFits(w, r) && w.pattern in {PatExpr, PatRange} && At(ShowPattern(lines, w, r))
      modifies this, lx
      ensures Valid() && Rem() <= old(Rem()) && printCtx == old(printCtx) && lines == old(lines) && (old(error) ==> error)
      ensures old(cur.typ) != EndOfFile ==> Rem() < old(Rem())
      ensures kind != PatAlways
      ensures !error ==> PatternTree(kind, a, b, s) && taken == old(taken) + s
      ensures w.Node? ==> kind == w.pattern && a == w.a && b == w.b && At(r)
    {
      hide *;
      PlainTokens();
      ghost var last := if w.Node? && w.pattern == PatRange then Show(lines, w.b, r) else r;
      ghost var behind := if w.Node? && w.pattern == PatRange then [Op(Comma)] + last else r;
      PartsAre(w);
      if w.Node? {
        PatternShown(lines, w, r);
      }
      a, s := ParseExpr(PartA(w), behind);
      if w.Node? {
        RangeHere(w, r);
      }
      var range := Accept(Comma, last);
      if !range {
        if !error {
          ExprPattern(a, s);
        }
        return PatExpr, a, Null, s;
      }
      if w.Node? {
        AtNoLine(Show(lines, w.b, r));
      }
      SkipLineTo(PartB(w), 13, r);
      var until, u := ParseExpr(PartB(w), r);
      if !error {
        RangePattern(a, s, until, u);
        Took3(old(taken), s, [Op(Comma)], u);
      }
      return PatRange, a, until, s + [Op(Comma)] + u;
    }

    method ParseRule(ghost w: Node := Null, ghost r: seq<Sym> := []) returns (n: Node, ghost s: seq<Sym>)
      requires Valid() && !printCtx
      requires w.Node? ==> ItemFits(w, r) && w.kind == Rule && At(ShowItem(lines, w, r))
      modifies this, lx
      ensures Valid() && Rem() <= old(Rem()) && printCtx == old(printCtx) && lines == old(lines) && (old(error) ==> error)
      ensures old(cur.typ) != EndOfFile ==> Rem() < old(Rem())
      ensures n.Node? && n.kind in {Rule, Func} && (!error ==> ItemTree(n, s) && taken == old(taken) + s)
      ensures w.Node? ==> n == w && At(r)
    {
      hide *;
      PlainPattern();
      TookNothing(taken);
      ghost var action := ShowAction(lines, PartC(w), r);
      PartsAre(w);
      if w.Node? {
        RuleReady(w, r);
      }
      var kind, a, b, t := ParsePattern(w, if w.Node? then BehindPattern(lines, w, r) else []);
      if w.Node? {
        AtLineEnd(lines && w.c.Node? && w.pattern != PatAlways, action);
      }
      SkipOptNewlines(action);
      if w.Node? {
        ActionHere(w.c, r);
      }
      TookNothing(taken);
      var block := Null;
      ghost var u: seq<Sym> := [];
      if cur.typ == LBrace {
        block, u := ParseBlock(PartC(w), r);
      }
      if !error {
        RuleTree(kind, a, b, t, block, u);
        Took(old(taken), t, u);
      }
      return RuleNode(kind, a, b, block), t + u;
    }

    /** What a rule's pattern and action are to be read from. */
    lemma RuleReady(w: Node, r: seq<Sym>)
      requires ItemFits(w, r) && w.Node? && w.kind == Rule && At(ShowItem(lines, w, r))
      ensures PatternFits(w, BehindPattern(lines, w, r)) && At(ShowPattern(lines, w, BehindPattern(lines, w, r)))
      ensures BehindPattern(lines, w, r) == LineEnd(lines && w.c.Node? && w.pattern != PatAlways) + ShowAction(lines, w.c, r)
      ensures !Starts(ShowAction(lines, w.c, r), Newline) && EndsItem(r) && (w.c.Null? ==> !Starts(r, Newline))
      ensures w == RuleNode(w.pattern, w.a, w.b, w.c) && (w.c.Null? || IsBlock(w.c))
    {
      hide *;
      RuleShown(lines, w, r);
      ItemFitsIs(w, r);
      ActionShown(lines, w.c, r);
    }

    /** The names between the parentheses of a definition. */
    method ParseParameters(ghost asked: bool := false, ghost ps: seq<string> := [], ghost rest: seq<Sym> := [])
      returns (params: seq<string>, ghost s: seq<Sym>)
      requires Valid() && !printCtx
      requires asked ==> Starts(rest, RParen) && At(ShowParameters(ps, rest))
      modifies this, lx
      ensures Valid() && Rem() <= old(Rem()) && printCtx == old(printCtx) && lines == old(lines) && (old(error) ==> error)
      ensures !error ==> Parameters(params, s) && taken == old(taken) + s
      ensures asked ==> params == ps && At(rest)
    {
      hide *;
      PlainTokens();
      TookNothing(taken);
      NoParameters();
      ParametersAll(ps, rest);
      params, s := [], [];
      if asked {
        ParametersHere(ps, rest);
      }
      if cur.typ == RParen {
        return;
      }
      if cur.typ != Name {
        SyntaxError();
        return;
      }
      params, s := ParseParameterList(asked, ps, rest);
    }

    method ParseParameterList(ghost asked: bool, ghost ps: seq<string>, ghost rest: seq<Sym>)
      returns (params: seq<string>, ghost s: seq<Sym>)
      requires Valid() && !printCtx && cur.typ == Name
      requires asked ==> Starts(rest, RParen) && ps != [] && At(ParametersFrom(ps, 0, rest))
      modifies this, lx
      ensures Valid() && Rem() <= old(Rem()) && printCtx == old(printCtx) && lines == old(lines) && (old(error) ==> error)
      ensures !error ==> Parameters(params, s) && taken == old(taken) + s
      ensures asked ==> params == ps && At(rest)
    {
      hide *;
      var first, more := ParseParameter(asked, ps, 0, rest);
      OneParameter(Text(first));
      params, s := [first], [Word(Name, Text(first))];
      ghost var i := 1;
      ParametersSoFar(ps, 0);
      while more
        invariant Valid() && Rem() <= old(Rem()) && printCtx == old(printCtx) && lines == old(lines) && (old(error) ==> error)
        invariant params != [] && (!error ==> Parameters(params, s))
        invariant !error ==> taken == if more then (old(taken) + s) + [Op(Comma)] else old(taken) + s
        invariant i > 0 && (asked ==> i <= |ps| && params == ps[..i] && (more <==> i < |ps|) && At(ParametersFrom(ps, i, rest)))
        decreases Rem(), more
      {
        if asked {
          ParameterIsNoLine(ps, i, rest);
        }
        SkipOptNewlines(ParametersFrom(ps, i, rest));
        if asked {
          ParameterHere(ps, i, rest);
        }
        if cur.typ != Name {
          SyntaxError();
          return;
        }
        var next;
        next, more := ParseParameter(asked, ps, i, rest);
        if !error {
          ParametersMore(params, s, next);
          Took3(old(taken), s, [Op(Comma)], [Word(Name, Text(next))]);
          Took(old(taken), s + [Op(Comma)] + [Word(Name, Text(next))], [Op(Comma)]);
        }
        ParametersSoFar(ps, i);
        params, s, i := params + [next], s + [Op(Comma)] + [Word(Name, Text(next))], i + 1;
      }
      ParametersAll(ps, rest);
    }

    /** One parameter and the comma behind it, if there is one. */
    method ParseParameter(ghost asked: bool, ghost ps: seq<string>, ghost i: nat, ghost rest: seq<Sym>)
      returns (p: string, more: bool)
      requires Valid() && !printCtx && cur.typ == Name
      requires asked ==> Starts(rest, RParen) && i < |ps| && At(ParametersFrom(ps, i, rest))
      modifies this, lx
      ensures Valid() && Rem() < old(Rem()) && printCtx == old(printCtx) && lines == old(lines) && error == old(error)
      ensures var t := old(taken) + [Word(Name, Text(p))]; taken == if more then t + [Op(Comma)] else t
      ensures asked ==> p == ps[i] && (more <==> i + 1 < |ps|) && At(ParametersFrom(ps, i + 1, rest))
    {
      hide *;
      PlainTokens();
      HasText();
      p := cur.text.chars;
      TextIs(cur.text);
      if asked {
        ParameterHere(ps, i, rest);
      }
      Advance(BehindParameter(ps, i, rest));
      if asked {
        CommaHere(ps, i, rest);
      }
      more := Accept(Comma, ParametersFrom(ps, i + 1, rest));
    }

    static lemma TextIs(text: Text)
      requires text.Text?
      ensures text == Text(text.chars)
    {
    }

    method ParseFunctionName(ghost w: Node := Null, ghost r: seq<Sym> := []) returns (ghost t: TokType, name: Text)
      requires Valid() && !printCtx
      requires w.Node? ==> At([Word(FuncName, w.str)] + r)
      modifies this, lx
      ensures Valid() && Rem() <= old(Rem()) && printCtx == old(printCtx) && lines == old(lines) && (old(error) ==> error)
      ensures !error ==> name.Text? && t in {Name, FuncName} && taken == old(taken) + [Word(t, name)]
      ensures w.Node? ==> name == w.str && At(r)
    {
      hide *;
      PlainTokens();
      HasText();
      if w.Node? {
        WordHere(FuncName, w.str, r);
      }
      t := cur.typ;
      name := NoText;
      if cur.typ == Name || cur.typ == FuncName {
        name := cur.text;
        Advance(r);
      } else {
        SyntaxError();
      }
    }

    method ParseFunctionDef(ghost w: Node := Null, ghost r: seq<Sym> := []) returns (n: Node, ghost s: seq<Sym>)
      requires Valid() && !printCtx && cur.typ == KwFunction
      requires w.Node? ==> CanonItem(w) && w.kind == Func && At(ShowItem(lines, w, r))
      modifies this, lx
      ensures Valid() && Rem() <= old(Rem()) && printCtx == old(printCtx) && lines == old(lines) && (old(error) ==> error)
      ensures old(cur.typ) != EndOfFile ==> Rem() < old(Rem())
      ensures n.Node? && n.kind in {Rule, Func} && (!error ==> ItemTree(n, s) && taken == old(taken) + s)
      ensures w.Node? ==> n == w && At(r)
    {
      hide *;
      PlainTokens();
      ghost var action := ShowAction(lines, PartA(w), r);
      ghost var behind := Signature(lines, ParamsOf(w), action);
      PartsAre(w);
      NamesAre(w);
      if w.Node? {
        FuncShown(lines, w, r);
        OpHere(KwFunction, [Word(FuncName, w.str)] + behind);
      }
      Advance([Word(FuncName, NameOf(w))] + behind);
      var t, name := ParseFunctionName(w, behind);
      var params, u := ParseSignature(w.Node?, ParamsOf(w), action);
      var body, v := ParseBlock(PartA(w), r);
      if !error {
        FuncTree(t, name, params, u, body, v);
        FuncTokens(old(taken), [Word(t, name)], u, v);
      }
      return FuncNode(name, params, body), [Op(KwFunction)] + [Word(t, name)] + [Op(LParen)] + u + [Op(RParen)] + v;
    }

    /** The parameters in their parentheses, up to the brace of the body. */
    method ParseSignature(ghost asked: bool, ghost ps: seq<string>, ghost action: seq<Sym>)
      returns (params: seq<string>, ghost u: seq<Sym>)
      requires Valid() && !printCtx
      requires asked ==> !Starts(action, Newline) && At(Signature(lines, ps, action))
      modifies this, lx
      ensures Valid() && Rem() <= old(Rem()) && printCtx == old(printCtx) && lines == old(lines) && (old(error) ==> error)
      ensures !error ==> Parameters(params, u) && taken == ((old(taken) + [Op(LParen)]) + u) + [Op(RParen)]
      ensures asked ==> params == ps && At(action)
    {
      hide *;
      ghost var end := LineEnd(lines) + action;
      SignatureIs(lines, ps, action);
      params, u := ParseInParentheses(asked, ps, end);
      if asked {
        AtLineEnd(lines, action);
      }
      SkipOptNewlines(action);
    }

    method ParseInParentheses(ghost asked: bool, ghost ps: seq<string>, ghost end: seq<Sym>)
      returns (params: seq<string>, ghost u: seq<Sym>)
      requires Valid() && !printCtx
      requires asked ==> At([Op(LParen)] + ShowParameters(ps, [Op(RParen)] + end))
      modifies this, lx
      ensures Valid() && Rem() <= old(Rem()) && printCtx == old(printCtx) && lines == old(lines) && (old(error) ==> error)
      ensures !error ==> Parameters(params, u) && taken == ((old(taken) + [Op(LParen)]) + u) + [Op(RParen)]
      ensures asked ==> params == ps && At(end)
    {
      hide *;
      PlainTokens();
      ghost var close := [Op(RParen)] + end;
      if asked {
        OpHere(LParen, ShowParameters(ps, close));
      }
      Need(LParen, ShowParameters(ps, close));
      ParenStarts(end);
      params, u := ParseParameters(asked, ps, close);
      if asked {
        OpHere(RParen, end);
      }
      Need(RParen, end);
    }

    method ParseItem(ghost w: Node := Null, ghost r: seq<Sym> := []) returns (n: Node, ghost s: seq<Sym>)
      requires Valid() && !printCtx
      requires w.Node? ==> ItemFits(w, r) && At(ShowItem(lines, w, r))
      modifies this, lx
      ensures Valid() && Rem() <= old(Rem()) && printCtx == old(printCtx) && lines == old(lines) && (old(error) ==> error)
      ensures old(cur.typ) != EndOfFile ==> Rem() < old(Rem())
      ensures n.Node? && n.kind in {Rule, Func} && (!error ==> ItemTree(n, s) && taken == old(taken) + s)
      ensures w.Node? ==> n == w && At(r)
    {
      hide *;
      if w.Node? {
        ItemHere(w, r);
        ItemFitsIs(w, r);
      }
      if cur.typ == KwFunction {
        n, s := ParseFunctionDef(w, r);
      } else {
        n, s := ParseRule(w, r);
      }
    }

    /** One rule or function and the separators behind it. */
    method ParseNextItem(ghost asked: bool, ghost ws: seq<Node>, ghost i: nat)
      returns (n: Node, ghost t: seq<Sym>, ghost m: seq<Sym>)
      requires Valid() && !printCtx && cur.typ != EndOfFile
      requires asked ==> AllItems(ws) && i <= |ws| && At(ItemsFrom(lines, ws, i))
      modifies this, lx
      ensures Valid() && Rem() < old(Rem()) && printCtx == old(printCtx) && lines == old(lines) && (old(error) ==> error)
      ensures n.Node? && n.kind in {Rule, Func}
      ensures !error ==> ItemTree(n, t) && Semis(m) && taken == (old(taken) + t) + m
      ensures asked ==> i < |ws| && n == ws[i] && At(ItemsFrom(lines, ws, i + 1))
    {
      hide *;
      ghost var behind := BehindItemOf(lines, ws, i);
      if asked {
        ItemsHere(ws, i);
        ItemShownAt(lines, ws, i);
        ItemsStart(lines, ws, i + 1);
      }
      ItemAtIs(ws, i);
      n, t := ParseItem(if asked then ItemAt(ws, i) else Null, behind);
      if asked {
        PastItem(ws, i);
      }
      m := SkipTerms(ItemsFrom(lines, ws, i + 1));
    }

    method ParseItems(ghost asked: bool := false, ghost ws: seq<Node> := []) returns (items: seq<Node>, ghost u: seq<Sym>)
      requires Valid() && !printCtx
      requires asked ==> AllItems(ws) && At(ShowItems(lines, ws, []))
      modifies this, lx
      ensures Valid() && Rem() <= old(Rem()) && printCtx == old(printCtx) && lines == old(lines) && (old(error) ==> error)
      ensures forall k :: 0 <= k < |items| ==> items[k].Node? && items[k].kind in {Rule, Func}
      ensures !error ==> cur.typ == EndOfFile && ItemTrees(items, u) && taken == old(taken) + u
      ensures asked ==> items == ws && !error
    {
      hide *;
      items := [];
      ghost var i := 0;
      if asked {
        ItemsFromStart(lines, ws);
        PastHere(ItemsFrom(lines, ws, 0));
        ItemsStart(lines, ws, 0);
      }
      u := SkipTerms(ItemsFrom(lines, ws, 0));
      ItemTreesNone(u);
      while cur.typ != EndOfFile && !error
        invariant Valid() && Rem() <= old(Rem()) && printCtx == old(printCtx) && lines == old(lines) && (old(error) ==> error)
        invariant forall k :: 0 <= k < |items| ==> items[k].Node? && items[k].kind in {Rule, Func}
        invariant !error ==> ItemTrees(items, u) && taken == old(taken) + u
        invariant asked ==> i <= |ws| && items == ws[..i] && At(ItemsFrom(lines, ws, i))
        decreases Rem()
      {
        ItemsSoFar(ws, i);
        var n, t, m := ParseNextItem(asked, ws, i);
        if !error {
          ItemTreesMore(items, u, n, t, m);
          Took3(old(taken), u, t, m);
        }
        items, u, i := items + [n], u + t + m, i + 1;
      }
      if asked {
        ItemsHere(ws, i);
        NoErrorHere(ItemsFrom(lines, ws, i));
      }
    }

    lemma NothingIsAhead()
      requires Valid() && !error && cur.typ == EndOfFile
      ensures taken == all
    {
      TookNothing(taken);
    }
  }

  /** Parsing ends on every text. What it accepts stands, as the grammar relates
      them, for exactly the tokens of the text, and can be walked: every node has
      the parts the interpreter follows without looking. And where the tokens are those
      of a program printed with all the parentheses its expressions need, on one line or
      with line ends where they may stand, just that program comes out. */
  method ParseProgram(src: string, ghost asked: bool := false, ghost ws: seq<Node> := [], ghost nl: bool := false)
    returns (prog: Option<seq<Node>>)
    requires NulFree(src)
    requires asked ==> AllItems(ws) && LexLines(src, START) == ShowItems(nl, ws, [])
    ensures asked ==> prog == Some(ws)
    ensures prog.Some? ==> Program(prog.value, LexAll(src, START)) && AllGood(prog.value)
    ensures prog.Some? ==> forall k :: 0 <= k < |prog.value| ==> prog.value[k].kind in {Rule, Func}
  {
    hide *;
    var p := new Parser(src, nl);
    TookNothing([]);
    var items, u := p.ParseItems(asked, ws);
    if p.error {
      return None;
    }
    p.NothingIsAhead();
    TookNothing(u);
    ItemTreesAre(items, u);
    return Some(items);
  }

  lemma ItemTreesAre(items: seq<Node>, u: seq<Sym>)
    requires ItemTrees(items, u)
    ensures Program(items, u) && AllGood(items) && forall k :: 0 <= k < |items| ==> items[k].Node?
  {
    hide Program, WellFormed;
  }

  // ---------- the functions of a program ----------

  function FunctionsOf(prog: seq<Node>): seq<AwkArrayParams.AwkFunc>
    requires AllGood(prog)
  {
    if prog == [] then []
    else
      var front, n := FunctionsOf(prog[..|prog| - 1]), prog[|prog| - 1];
      if n.kind == Func then front + [AwkArrayParams.AwkFunc(n.str.chars, n.params, n.a)] else front
  }

  /** The function definitions of the program, in order. */
  method CollectFunctions(prog: seq<Node>) returns (funcs: seq<AwkArrayParams.AwkFunc>)
    requires AllGood(prog)
    ensures AwkArrayParams.Bodies(funcs)
    ensures funcs == FunctionsOf(prog)
  {
    funcs := [];
    for i := 0 to |prog|
      invariant funcs == FunctionsOf(prog[..i])
      invariant AwkArrayParams.Bodies(funcs)
    {
      assert prog[..i + 1][..i] == prog[..i];
      if prog[i].kind == Func {
        funcs := funcs + [AwkArrayParams.AwkFunc(prog[i].str.chars, prog[i].params, prog[i].a)];
      }
    }
    assert prog[..|prog|] == prog;
  }

  /** From the text to the flags: the analysis can walk every function the parser
      accepts, and flags the parameters its passes reach. */
  method AnalyzeProgram(src: string, ghost asked: bool := false, ghost ws: seq<Node> := [], ghost nl: bool := false)
    returns (analysis: AwkArrayParams.Analysis?, prog: Option<seq<Node>>)
    requires NulFree(src)
    requires asked ==> AllItems(ws) && LexLines(src, START) == ShowItems(nl, ws, [])
    ensures asked ==> prog == Some(ws)
    ensures analysis == null <==> prog.None?
    ensures prog.Some? ==> Program(prog.value, LexAll(src, START)) && AllGood(prog.value)
    ensures prog.Some? ==> analysis.funcs == FunctionsOf(prog.value)
    ensures prog.Some? ==> AwkArrayParams.Bodies(analysis.funcs) && analysis.After(AwkArrayParams.PASSES)
  {
    hide *;
    prog := ParseProgram(src, asked, ws, nl);
    if prog.None? {
      return null, None;
    }
    var funcs := CollectFunctions(prog.value);
    analysis := new AwkArrayParams.Analysis(funcs);
    analysis.AnalyzeFunctionArrayParams();
  }
}
