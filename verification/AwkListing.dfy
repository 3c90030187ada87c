/** The tokens that stand for statements, rules, definitions and programs as the parser
    builds them: on one line with semicolons, or with line ends where they may stand. */
module AwkListing {

  import opened AwkAst
  import opened AwkGrammar
  import opened AwkPrinter
  import opened AwkTokens
  import opened AwkTrees

  // ---------- print ----------

  /** Nothing in the items would be read as a redirection. */
  predicate AllPlain(list: seq<Node>) {
    forall k :: 0 <= k < |list| ==> Fits(true, list[k], 12)
  }

  /** The items as they are read: themselves, or all in one pair of parentheses. */
  function PrintedAs(list: seq<Node>): seq<Node> {
    if AllPlain(list) then list else [WithList(Group, NoText, list)]
  }

  /** A list in parentheses, which print takes apart. */
  predicate IsPacked(list: seq<Node>) {
    |list| == 1 && list[0].Node? && list[0].kind == Group && |list[0].list| > 1
  }

  predicate CanonPrinted(list: seq<Node>) {
    (AllPlain(list) && !IsPacked(list)) || (|list| > 1 && AllFit(false, list))
  }

  function ShowRedirect(nl: bool, r: Redirect, target: Node, rest: seq<Sym>): seq<Sym> {
    if r == NoRedirect then rest else [Op(RedirectSym(r))] + Show(nl, target, rest)
  }

  predicate CanonRedirect(r: Redirect, target: Node) {
    if r == NoRedirect then target.Null? else Fits(false, target, 12)
  }

  /** What stands behind the items of print, and behind a simple statement. */
  predicate EndsPrinted(list: seq<Node>, rest: seq<Sym>) {
    rest != [] && (rest[0].typ in {Semi, Newline, Greater, Append, Pipe} || (rest[0].typ == RParen && list != []))
  }

  predicate EndsSimple(rest: seq<Sym>) {
    rest != [] && rest[0].typ in {Semi, Newline, RParen}
  }

  // ---------- simple statements ----------

  function ShowSimple(nl: bool, n: Node, rest: seq<Sym>): seq<Sym>
    requires n.Node?
  {
    match n.kind
    case ExprStmt => Show(nl, n.a, rest)
    case Print => [Op(KwPrint)] + ShowList(nl, PrintedAs(n.list), ShowRedirect(nl, n.redirect, n.a, rest))
    case Printf => [Op(KwPrintf)] + ShowList(nl, PrintedAs(n.list), ShowRedirect(nl, n.redirect, n.a, rest))
    case Delete => [Op(KwDelete)] + ([Word(Name, n.str)] + ([Op(LBracket)] + ShowList(false, n.list, [Op(RBracket)] + rest)))
    case DeleteAll => [Op(KwDelete)] + ([Word(Name, n.str)] + rest)
    case _ => rest
  }

  predicate CanonSimple(n: Node) {
    n.Node? &&
      if n.kind == ExprStmt then n == OneChild(ExprStmt, EndOfFile, n.a) && Fits(false, n.a, 13)
      else if n.kind in {Print, Printf} then
        n == PrintNode(n.kind == Printf, n.list, n.redirect, n.a) && CanonPrinted(n.list) && CanonRedirect(n.redirect, n.a)
      else if n.kind == Delete then n.str.Text? && n == WithList(Delete, n.str, n.list) && n.list != [] && AllFit(false, n.list)
      else n.kind == DeleteAll && n.str.Text? && n == Leaf(DeleteAll, n.str)
  }

  /** A print of nothing, which a parenthesis does not end. */
  predicate PrintsNothing(n: Node)
    requires n.Node?
  {
    n.kind in {Print, Printf} && n.list == [] && n.redirect == NoRedirect
  }

  predicate SimpleFits(n: Node, rest: seq<Sym>) {
    CanonSimple(n) && EndsSimple(rest) && (PrintsNothing(n) ==> Starts(rest, Semi) || Starts(rest, Newline))
  }

  // ---------- statements ----------

  function JumpToken(k: Kind): TokType {
    match k
    case Break => KwBreak
    case Continue => KwContinue
    case Next => KwNext
    case NextFile => KwNextFile
    case Exit => KwExit
    case _ => KwReturn
  }

  function ShowMaybe(nl: bool, n: Node, rest: seq<Sym>): seq<Sym> {
    if n.Null? then rest else Show(nl, n, rest)
  }

  function ShowPart(n: Node, rest: seq<Sym>): seq<Sym> {
    if n.Null? then rest else ShowSimple(false, n, rest)
  }

  function ShowCondition(n: Node, rest: seq<Sym>): seq<Sym> {
    [Op(LParen)] + Show(false, n, [Op(RParen)] + rest)
  }

  /** What stands behind a statement: the end of the line, or a semicolon. */
  function Term(nl: bool): TokType {
    if nl then Newline else Semi
  }

  /** A statement and what ends it, with `rest` behind that. */
  function ShowStmt(nl: bool, n: Node, rest: seq<Sym>): seq<Sym>
    requires n.Node?
    decreases n, 0
  {
    match n.kind
    case If =>
      if n.b.Null? then rest
      else
        [Op(KwIf)] + ShowCondition(n.a, LineEnd(nl) +
          ShowStmt(nl, n.b, if n.c.Null? then rest else [Op(KwElse)] + ShowStmt(nl, n.c, rest)))
    case While => if n.b.Null? then rest else [Op(KwWhile)] + ShowCondition(n.a, LineEnd(nl) + ShowStmt(nl, n.b, rest))
    case DoWhile =>
      if n.b.Null? then rest
      else [Op(KwDo)] + ShowStmt(nl, n.b, [Op(KwWhile)] + ShowCondition(n.a, [Op(Term(nl))] + rest))
    case For =>
      if n.list == [] || n.list[0].Null? then rest
      else [Op(KwFor)] + ([Op(LParen)] + ShowPart(n.a, [Op(Semi)] +
             ShowMaybe(false, n.b, [Op(Semi)] + ShowPart(n.c, [Op(RParen)] + (LineEnd(nl) + ShowStmt(nl, n.list[0], rest))))))
    case ForIn =>
      if n.a.Null? then rest
      else [Op(KwFor)] + ([Op(LParen)] + ([Word(Name, n.str)] + ([Op(KwIn)] +
             ([Word(Name, n.str2)] + ([Op(RParen)] + (LineEnd(nl) + ShowStmt(nl, n.a, rest)))))))
    case Break | Continue | Next | NextFile => [Op(JumpToken(n.kind))] + ([Op(Term(nl))] + rest)
    case Exit | Return => [Op(JumpToken(n.kind))] + ShowMaybe(nl, n.a, [Op(Term(nl))] + rest)
    case Block => [Op(LBrace)] + ShowStmts(nl, n.list, [Op(RBrace)] + ([Op(Term(nl))] + rest))
    case _ => ShowSimple(nl, n, [Op(Term(nl))] + rest)
  }

  function ShowStmts(nl: bool, list: seq<Node>, rest: seq<Sym>): seq<Sym>
    decreases list
  {
    if list == [] || list[0].Null? then rest else ShowStmt(nl, list[0], ShowStmts(nl, list[1..], rest))
  }

  function ShowBlock(nl: bool, n: Node, rest: seq<Sym>): seq<Sym>
    requires n.Node?
  {
    [Op(LBrace)] + ShowStmts(nl, n.list, [Op(RBrace)] + rest)
  }

  function ShowElse(nl: bool, n: Node, rest: seq<Sym>): seq<Sym> {
    if n.Null? then rest else [Op(KwElse)] + ShowStmt(nl, n, rest)
  }

  /** The part of a for loop behind its parenthesis, from each of its places on. */
  function ForBody(nl: bool, n: Node, rest: seq<Sym>): seq<Sym>
    requires n.Node?
  {
    if n.list == [] || n.list[0].Null? then rest else ShowStmt(nl, n.list[0], rest)
  }

  function ForPost(nl: bool, n: Node, rest: seq<Sym>): seq<Sym>
    requires n.Node?
  {
    ShowPart(n.c, [Op(RParen)] + (LineEnd(nl) + ForBody(nl, n, rest)))
  }

  function ForCondition(nl: bool, n: Node, rest: seq<Sym>): seq<Sym>
    requires n.Node?
  {
    ShowMaybe(false, n.b, [Op(Semi)] + ForPost(nl, n, rest))
  }

  function ForInit(nl: bool, n: Node, rest: seq<Sym>): seq<Sym>
    requires n.Node?
  {
    ShowPart(n.a, [Op(Semi)] + ForCondition(nl, n, rest))
  }

  /** An `else` behind it would be taken for its own. */
  predicate Dangling(n: Node) {
    n.Node? &&
      match n.kind
      case If => n.c.Null? || Dangling(n.c)
      case While => Dangling(n.b)
      case For => |n.list| == 1 && Dangling(n.list[0])
      case ForIn => Dangling(n.a)
      case _ => false
  }

  /** A statement with just what the parser puts into it. */
  predicate CanonStmt(n: Node) {
    n.Node? &&
      if n.kind == If then
        && n == ThreeParts(If, n.a, n.b, n.c) && Fits(false, n.a, 13) && CanonStmt(n.b)
        && (n.c.Node? ==> CanonStmt(n.c) && !Dangling(n.b))
      else if n.kind in {While, DoWhile} then
        n == Binary(n.kind, EndOfFile, n.a, n.b) && Fits(false, n.a, 13) && CanonStmt(n.b)
      else if n.kind == For then
        && |n.list| == 1 && n == ForNode(n.a, n.b, n.c, n.list[0]) && CanonStmt(n.list[0])
        && (n.a.Null? || CanonSimple(n.a)) && (n.b.Null? || Fits(false, n.b, 13))
        && (n.c.Null? || (CanonSimple(n.c) && !PrintsNothing(n.c)))
      else if n.kind == ForIn then
        n.str.Text? && n.str2.Text? && n == ForInNode(n.str, n.str2, n.a) && CanonStmt(n.a)
      else if n.kind in {Exit, Return} then
        n == OneChild(n.kind, EndOfFile, n.a) && (n.a.Null? || (Fits(false, n.a, 13) && (n.kind == Exit ==> First(n.a) != KwGetline)))
      else if n.kind == Block then n == WithList(Block, NoText, n.list) && AllStmts(n.list)
      else if n.kind in {Break, Continue, Next, NextFile} then n == NewNode(n.kind)
      else CanonSimple(n)
  }

  predicate AllStmts(list: seq<Node>) {
    forall k :: 0 <= k < |list| ==> CanonStmt(list[k])
  }

  predicate IsBlock(n: Node) {
    n.Node? && n.kind == Block && CanonStmt(n)
  }

  /** A statement, and what may stand behind its semicolon. */
  predicate StmtFits(n: Node, rest: seq<Sym>) {
    CanonStmt(n) && !Starts(rest, Semi) && !Starts(rest, Newline) && (Dangling(n) ==> !Starts(rest, KwElse))
  }

  // ---------- programs ----------

  function ShowParameters(params: seq<string>, rest: seq<Sym>): seq<Sym> {
    if params == [] then rest
    else [Word(Name, Text(params[0]))] + if |params| == 1 then rest else [Op(Comma)] + ShowParameters(params[1..], rest)
  }

  function ShowAction(nl: bool, n: Node, rest: seq<Sym>): seq<Sym> {
    if n.Null? then rest else ShowBlock(nl, n, rest)
  }

  function ShowPattern(nl: bool, n: Node, rest: seq<Sym>): seq<Sym>
    requires n.Node?
  {
    match n.pattern
    case PatBegin => [Op(KwBegin)] + rest
    case PatEnd => [Op(KwEnd)] + rest
    case PatAlways => rest
    case PatExpr => Show(nl, n.a, rest)
    case PatRange => Show(nl, n.a, [Op(Comma)] + Show(nl, n.b, rest))
  }

  function Signature(nl: bool, params: seq<string>, rest: seq<Sym>): seq<Sym> {
    [Op(LParen)] + ShowParameters(params, [Op(RParen)] + (LineEnd(nl) + rest))
  }

  lemma SignatureIs(nl: bool, params: seq<string>, rest: seq<Sym>)
    ensures Signature(nl, params, rest) == [Op(LParen)] + ShowParameters(params, [Op(RParen)] + (LineEnd(nl) + rest))
  {
  }

  function ShowItem(nl: bool, n: Node, rest: seq<Sym>): seq<Sym>
    requires n.Node?
  {
    if n.kind == Func then
      [Op(KwFunction)] + ([Word(FuncName, n.str)] + Signature(nl, n.params, ShowAction(nl, n.a, rest)))
    else ShowPattern(nl, n, LineEnd(nl && n.c.Node? && n.pattern != PatAlways) + ShowAction(nl, n.c, rest))
  }

  /** An item that ends with a brace may have the end of the line behind it. */
  function ItemTerm(nl: bool, n: Node): TokType {
    if nl && n.Node? && (n.kind == Func || n.c.Node?) then Newline else Semi
  }

  /** Rules and definitions with line ends or semicolons between them. */
  function ShowItems(nl: bool, items: seq<Node>, rest: seq<Sym>): seq<Sym> {
    if items == [] || items[0].Null? then rest
    else ShowItem(nl, items[0], if |items| == 1 then rest else [Op(ItemTerm(nl, items[0]))] + ShowItems(nl, items[1..], rest))
  }

  predicate CanonPattern(n: Node)
    requires n.Node?
  {
    match n.pattern
    case PatBegin | PatEnd => n.a.Null? && n.b.Null?
    case PatAlways => n.a.Null? && n.b.Null? && n.c.Node?
    case PatExpr => Fits(false, n.a, 13) && n.b.Null?
    case PatRange => Fits(false, n.a, 13) && Fits(false, n.b, 13)
  }

  predicate CanonItem(n: Node) {
    n.Node? &&
      if n.kind == Rule then n == RuleNode(n.pattern, n.a, n.b, n.c) && CanonPattern(n) && (n.c.Null? || IsBlock(n.c))
      else n.kind == Func && n.str.Text? && n == FuncNode(n.str, n.params, n.a) && IsBlock(n.a)
  }

  predicate AllItems(items: seq<Node>) {
    forall k :: 0 <= k < |items| ==> CanonItem(items[k])
  }

  // ---------- print, as it is read ----------

  lemma PrintedItem(nl: bool, ws: seq<Node>, i: nat, rest: seq<Sym>)
    requires AllPlain(ws) && EndsPrinted(ws, rest) && i < |ws|
    ensures ws[i].Node? && Wanted(true, ws[i], 12, ItemRest(nl, ws, i, rest))
    ensures ListRest(nl, ws, i, rest) == Show(nl, ws[i], ItemRest(nl, ws, i, rest))
  {
    assert Fits(true, ws[i], 12);
    assert ws[i..][0] == ws[i] && ws[i..][1..] == ws[i + 1..];
    PrintedStops(nl, ws, i, rest);
    hide Fits, AllPlain, Show, Rank, Stops;
    FitsIsWanted(true, ws[i], 12, ItemRest(nl, ws, i, rest));
  }

  lemma PrintedStops(nl: bool, ws: seq<Node>, i: nat, rest: seq<Sym>)
    requires EndsPrinted(ws, rest)
    ensures Stops(true, 12, ItemRest(nl, ws, i, rest))
  {
    hide ShowList;
  }

  /** The first token of the items, if there are any. */
  lemma PrintedStarts(nl: bool, ws: seq<Node>, rest: seq<Sym>)
    requires AllPlain(ws) && EndsPrinted(ws, rest)
    ensures ListRest(nl, ws, 0, rest) == ShowList(nl, ws, rest)
    ensures ws == [] ==> Starts(rest, Semi) || Starts(rest, Newline) || Starts(rest, Greater) || Starts(rest, Append) || Starts(rest, Pipe)
    ensures ws != [] ==>
              ShowList(nl, ws, rest) != [] && ShowList(nl, ws, rest)[0].typ !in {Greater, Append, Pipe, Semi, Newline, RBrace, EndOfFile}
  {
    WholeList(nl, ws, rest);
    if ws != [] {
      PrintedItem(nl, ws, 0, rest);
      assert Fits(true, ws[0], 12);
      ShowStarts(nl, true, ws[0], ItemRest(nl, ws, 0, rest));
      FirstStarts(true, ws[0]);
      hide Canon, Show, ShowList, First;
    }
  }

  lemma PackedIs(items: seq<Node>)
    requires forall k :: 0 <= k < |items| ==> items[k].Node?
    ensures IsPacked(items) <==> |items| == 1 && items[0].kind == Group && |items[0].list| > 1
  {
  }

  /** What is read is the items, or one list in parentheses that holds them. */
  lemma PrintedBack(list: seq<Node>, rest: seq<Sym>)
    requires CanonPrinted(list) && EndsPrinted(list, rest)
    ensures var items := PrintedAs(list);
            && AllPlain(items) && EndsPrinted(items, rest) && (forall k :: 0 <= k < |items| ==> items[k].Node?)
            && (if IsPacked(items) then items[0].list == list else items == list)
  {
    if !AllPlain(list) {
      GroupIsPlain(list);
    }
    hide AllFit, Canon;
  }

  lemma GroupIsPlain(list: seq<Node>)
    requires AllFit(false, list) && list != []
    ensures Fits(true, WithList(Group, NoText, list), 12)
  {
    hide AllFit;
  }

  function RedirectOf(n: Node): Redirect {
    if n.Node? then n.redirect else NoRedirect
  }

  lemma RedirectOfIs(n: Node)
    ensures n.Node? ==> RedirectOf(n) == n.redirect
  {
  }

  lemma RedirectShown(nl: bool, r: Redirect, w: Node, rest: seq<Sym>)
    requires CanonRedirect(r, w) && EndsSimple(rest)
    ensures if r == NoRedirect then w.Null? && ShowRedirect(nl, r, w, rest) == rest
            else w.Node? && Wanted(false, w, 12, rest) && ShowRedirect(nl, r, w, rest) == [Op(RedirectSym(r))] + Show(nl, w, rest)
    ensures RedirectSym(r) in {Greater, Append, Pipe}
    ensures r != NoRedirect ==> (RedirectSym(r) == Append <==> r == ToAppend) && (RedirectSym(r) == Pipe <==> r == ToPipe)
  {
    SimpleStops(rest);
    hide Canon, Rank, Show, Stops;
    if r != NoRedirect {
      FitsIsWanted(false, w, 12, rest);
    }
  }

  /** A semicolon or a parenthesis ends every expression. */
  lemma SimpleStops(rest: seq<Sym>)
    requires EndsSimple(rest)
    ensures Stops(false, 12, rest) && Stops(false, 13, rest)
  {
  }

  lemma PrintShown(nl: bool, w: Node, rest: seq<Sym>)
    requires SimpleFits(w, rest) && w.kind in {Print, Printf}
    ensures ShowSimple(nl, w, rest)
         == [Op(if w.kind == Printf then KwPrintf else KwPrint)] + ShowList(nl, PrintedAs(w.list), ShowRedirect(nl, w.redirect, w.a, rest))
    ensures w == PrintNode(w.kind == Printf, w.list, w.redirect, w.a) && CanonPrinted(w.list) && CanonRedirect(w.redirect, w.a)
    ensures EndsSimple(rest) && EndsPrinted(w.list, ShowRedirect(nl, w.redirect, w.a, rest))
  {
    hide CanonPrinted, ShowList, PrintedAs, Fits, Show;
  }

  // ---------- delete, as it is read ----------

  function NameOf(n: Node): Text {
    if n.Node? then n.str else NoText
  }

  function ArrayName(n: Node): Text {
    if n.Node? then n.str2 else NoText
  }

  function ParamsOf(n: Node): seq<string> {
    if n.Node? then n.params else []
  }

  lemma NamesAre(n: Node)
    ensures n.Node? ==> NameOf(n) == n.str && ArrayName(n) == n.str2 && ParamsOf(n) == n.params
  {
  }

  function DeletedTail(n: Node, rest: seq<Sym>): seq<Sym> {
    if n.Node? && n.kind == Delete then [Op(LBracket)] + ListRest(false, n.list, 0, [Op(RBracket)] + rest) else rest
  }

  lemma DeleteShown(nl: bool, w: Node, rest: seq<Sym>)
    requires SimpleFits(w, rest) && w.kind in {Delete, DeleteAll}
    ensures ShowSimple(nl, w, rest) == [Op(KwDelete)] + ([Word(Name, NameOf(w))] + DeletedTail(w, rest))
    ensures EndsSimple(rest) && NameOf(w).Text?
    ensures w.kind == Delete ==> w == WithList(Delete, NameOf(w), w.list) && w.list != [] && AllFit(false, w.list)
    ensures w.kind == DeleteAll ==> w == Leaf(DeleteAll, NameOf(w)) && w.list == []
  {
    WholeList(nl, w.list, [Op(RBracket)] + rest);
    hide ShowList, AllFit, ListRest;
  }

  // ---------- simple statements, as they are read ----------

  lemma SimpleStarts(nl: bool, w: Node, rest: seq<Sym>)
    requires SimpleFits(w, rest)
    ensures w.Node? && ShowSimple(nl, w, rest) != []
    ensures Starts(ShowSimple(nl, w, rest), KwPrint) <==> w.kind == Print
    ensures Starts(ShowSimple(nl, w, rest), KwPrintf) <==> w.kind == Printf
    ensures Starts(ShowSimple(nl, w, rest), KwDelete) <==> w.kind in {Delete, DeleteAll}
    ensures w.kind in {ExprStmt, Print, Printf, Delete, DeleteAll}
    ensures ShowSimple(nl, w, rest)[0].typ !in {EndOfFile, Newline, Semi, RParen, LBrace, RBrace, KwElse}
    ensures ShowSimple(nl, w, rest)[0].typ !in {KwIf, KwWhile, KwDo, KwFor, KwBreak, KwContinue, KwNext, KwNextFile, KwExit, KwReturn}
    ensures w.kind == ExprStmt ==>
              && w == OneChild(ExprStmt, EndOfFile, w.a) && w.a.Node? && Wanted(false, w.a, 13, rest)
              && ShowSimple(nl, w, rest) == Show(nl, w.a, rest)
  {
    hide *;
    SimpleKinds(nl, w, rest);
    if w.kind == ExprStmt {
      ExpressionStarts(nl, w.a, rest);
    } else {
      CommandStarts(nl, w, rest);
    }
    StartsIs(ShowSimple(nl, w, rest));
  }

  lemma SimpleKinds(nl: bool, w: Node, rest: seq<Sym>)
    requires SimpleFits(w, rest)
    ensures w.Node? && EndsSimple(rest) && w.kind in {ExprStmt, Print, Printf, Delete, DeleteAll}
    ensures w.kind == ExprStmt ==>
              w == OneChild(ExprStmt, EndOfFile, w.a) && Fits(false, w.a, 13) && ShowSimple(nl, w, rest) == Show(nl, w.a, rest)
  {
    hide CanonPrinted, CanonRedirect, PrintsNothing, EndsSimple, Starts, ShowList, PrintedAs, Fits, Show, ShowRedirect, AllFit;
  }

  lemma CommandStarts(nl: bool, w: Node, rest: seq<Sym>)
    requires w.Node? && w.kind in {Print, Printf, Delete, DeleteAll}
    ensures ShowSimple(nl, w, rest) != []
    ensures ShowSimple(nl, w, rest)[0].typ
         == if w.kind == Print then KwPrint else if w.kind == Printf then KwPrintf else KwDelete
  {
    hide ShowList, PrintedAs, Show, ShowRedirect;
  }

  lemma ExpressionStarts(nl: bool, e: Node, rest: seq<Sym>)
    requires Fits(false, e, 13) && EndsSimple(rest)
    ensures e.Node? && Wanted(false, e, 13, rest) && Show(nl, e, rest) != [] && Show(nl, e, rest)[0].typ == First(e)
    ensures First(e) in {Number, StringLit, Ere, NotTok, Dollar, Incr, Decr, Minus, Plus, LParen, KwGetline, BuiltinFunc, FuncName, Name}
  {
    SimpleStops(rest);
    ShowStarts(nl, false, e, rest);
    FirstStarts(false, e);
    hide Canon, Rank, Show, Stops, First;
    FitsIsWanted(false, e, 13, rest);
  }

  lemma ConditionShown(w: Node, r: seq<Sym>)
    requires Fits(false, w, 13)
    ensures ShowCondition(w, r) == [Op(LParen)] + Show(false, w, [Op(RParen)] + r) && w.Node? && Wanted(false, w, 13, [Op(RParen)] + r)
  {
    SimpleStops([Op(RParen)] + r);
    hide Canon, Rank, Show, Stops;
    FitsIsWanted(false, w, 13, [Op(RParen)] + r);
  }

  // ---------- statements, as they are read ----------

  lemma BlockShown(nl: bool, w: Node, r: seq<Sym>)
    requires IsBlock(w)
    ensures ShowBlock(nl, w, r) == [Op(LBrace)] + ShowStmts(nl, w.list, [Op(RBrace)] + r)
    ensures w == WithList(Block, NoText, w.list) && AllStmts(w.list) && Starts([Op(RBrace)] + r, RBrace)
  {
    hide AllStmts, ShowStmts;
  }

  lemma IfParts(w: Node)
    requires CanonStmt(w) && w.kind == If
    ensures w == ThreeParts(If, w.a, w.b, w.c) && Fits(false, w.a, 13) && w.a.Node? && CanonStmt(w.b) && w.b.Node?
    ensures w.c.Node? ==> CanonStmt(w.c) && !Dangling(w.b)
  {
    CanonIsNode(w.b);
    hide Fits, Dangling;
    FitsNode(false, w.a, 13);
  }

  lemma IfWritten(nl: bool, w: Node, r: seq<Sym>)
    requires w.Node? && w.kind == If && w.b.Node?
    ensures ShowStmt(nl, w, r) == [Op(KwIf)] + ShowCondition(w.a, LineEnd(nl) + ShowStmt(nl, w.b, ShowElse(nl, w.c, r)))
  {
    hide ShowCondition;
  }

  lemma IfShown(nl: bool, w: Node, r: seq<Sym>)
    requires StmtFits(w, r) && w.kind == If
    ensures Fits(false, w.a, 13) && w.a.Node? && w.b.Node?
    ensures StmtFits(w.b, ShowElse(nl, w.c, r)) && !Starts(ShowElse(nl, w.c, r), Semi) && !Starts(ShowElse(nl, w.c, r), Newline)
    ensures ShowStmt(nl, w, r) == [Op(KwIf)] + ShowCondition(w.a, LineEnd(nl) + ShowStmt(nl, w.b, ShowElse(nl, w.c, r)))
    ensures w.c.Null? || StmtFits(w.c, r)
    ensures w.c.Null? ==> !Starts(r, KwElse)
    ensures w == ThreeParts(If, w.a, w.b, w.c)
  {
    hide Fits, ShowCondition, CanonStmt, ShowStmt;
    IfParts(w);
    IfWritten(nl, w, r);
  }

  lemma WhileShown(nl: bool, w: Node, r: seq<Sym>)
    requires StmtFits(w, r) && w.kind == While
    ensures Fits(false, w.a, 13) && w.a.Node? && w.b.Node? && StmtFits(w.b, r)
    ensures ShowStmt(nl, w, r) == [Op(KwWhile)] + ShowCondition(w.a, LineEnd(nl) + ShowStmt(nl, w.b, r))
    ensures w == Binary(While, EndOfFile, w.a, w.b)
  {
    LoopParts(w);
    hide CanonStmt, Fits, ShowCondition;
  }

  lemma LoopParts(w: Node)
    requires CanonStmt(w) && w.kind in {While, DoWhile}
    ensures w == Binary(w.kind, EndOfFile, w.a, w.b) && Fits(false, w.a, 13) && w.a.Node? && CanonStmt(w.b) && w.b.Node?
  {
    CanonIsNode(w.b);
    hide Fits;
    FitsNode(false, w.a, 13);
  }

  lemma DoShown(nl: bool, w: Node, r: seq<Sym>)
    requires StmtFits(w, r) && w.kind == DoWhile
    ensures var behind := [Op(KwWhile)] + ShowCondition(w.a, [Op(Term(nl))] + r);
            && Fits(false, w.a, 13) && w.a.Node? && w.b.Node? && StmtFits(w.b, behind) && !Starts(behind, Semi) && !Starts(behind, Newline)
            && ShowStmt(nl, w, r) == [Op(KwDo)] + ShowStmt(nl, w.b, behind)
    ensures w == Binary(DoWhile, EndOfFile, w.a, w.b)
  {
    hide CanonStmt, Dangling, Fits, ShowCondition, ShowStmt;
    LoopParts(w);
    DoWritten(nl, w, r);
  }

  lemma DoWritten(nl: bool, w: Node, r: seq<Sym>)
    requires w.Node? && w.kind == DoWhile && w.b.Node?
    ensures ShowStmt(nl, w, r) == [Op(KwDo)] + ShowStmt(nl, w.b, [Op(KwWhile)] + ShowCondition(w.a, [Op(Term(nl))] + r))
  {
    hide ShowCondition;
  }

  /** What stands behind the parenthesis of a for loop. */
  function ForHeadOf(nl: bool, n: Node, r: seq<Sym>): seq<Sym> {
    if n.Null? then []
    else if n.kind == For then ForInit(nl, n, r)
    else
      [Word(Name, n.str)] + ([Op(KwIn)] + ([Word(Name, n.str2)] + ([Op(RParen)] +
        (LineEnd(nl) + if n.a.Null? then r else ShowStmt(nl, n.a, r)))))
  }

  lemma ForShown(nl: bool, w: Node, r: seq<Sym>)
    requires StmtFits(w, r) && w.kind in {For, ForIn}
    ensures ShowStmt(nl, w, r) == [Op(KwFor)] + ([Op(LParen)] + ForHeadOf(nl, w, r))
    ensures w.kind == For ==> ForHeadOf(nl, w, r) == ForInit(nl, w, r)
  {
    hide *;
    StatementKinds(w, r);
    if w.kind == For {
      ForCanon(w);
      ForWhole(nl, w, r);
    } else {
      ForInBody(w);
      ForInWhole(nl, w, r);
    }
  }

  lemma ForWhole(nl: bool, w: Node, r: seq<Sym>)
    requires w.Node? && w.kind == For && |w.list| == 1 && w.list[0].Node?
    ensures ShowStmt(nl, w, r) == [Op(KwFor)] + ([Op(LParen)] + ForInit(nl, w, r)) && ForHeadOf(nl, w, r) == ForInit(nl, w, r)
  {
    hide ShowPart, ShowMaybe;
  }

  lemma ForInWhole(nl: bool, w: Node, r: seq<Sym>)
    requires w.Node? && w.kind == ForIn && w.a.Node?
    ensures ShowStmt(nl, w, r) == [Op(KwFor)] + ([Op(LParen)] + ForHeadOf(nl, w, r))
  {
  }

  lemma ForInBody(w: Node)
    requires CanonStmt(w) && w.kind == ForIn
    ensures w.a.Node? && CanonStmt(w.a) && w == ForInNode(w.str, w.str2, w.a)
  {
    CanonIsNode(w.a);
    hide Fits, CanonSimple, AllStmts, Dangling;
  }

  lemma ForCanon(w: Node)
    requires CanonStmt(w) && w.kind == For
    ensures |w.list| == 1 && w == ForNode(w.a, w.b, w.c, w.list[0]) && w.list[0].Node? && CanonStmt(w.list[0])
    ensures w.a.Null? || CanonSimple(w.a)
    ensures w.b.Null? || Fits(false, w.b, 13)
    ensures w.c.Null? || (CanonSimple(w.c) && !PrintsNothing(w.c))
  {
    CanonIsNode(w.list[0]);
    hide Fits, CanonSimple;
  }

  lemma ForParts(nl: bool, w: Node, r: seq<Sym>)
    requires StmtFits(w, r) && w.kind == For
    ensures |w.list| == 1 && w == ForNode(w.a, w.b, w.c, w.list[0]) && w.list[0].Node? && ItemAt(w.list, 0) == w.list[0]
    ensures ForInit(nl, w, r) == ShowPart(w.a, [Op(Semi)] + ForCondition(nl, w, r))
    ensures ForCondition(nl, w, r) == ShowMaybe(false, w.b, [Op(Semi)] + ForPost(nl, w, r))
    ensures ForPost(nl, w, r) == ShowPart(w.c, [Op(RParen)] + (LineEnd(nl) + ForBody(nl, w, r)))
    ensures ForBody(nl, w, r) == ShowStmt(nl, w.list[0], r) && StmtFits(w.list[0], r)
    ensures w.a.Null? || SimpleFits(w.a, [Op(Semi)] + ForCondition(nl, w, r))
    ensures w.b.Null? || Fits(false, w.b, 13)
    ensures w.c.Null? || SimpleFits(w.c, [Op(RParen)] + (LineEnd(nl) + ForBody(nl, w, r)))
  {
    hide *;
    StatementKinds(w, r);
    ForCanon(w);
    ForWritten(nl, w, r);
    ForBodyFits(w, r);
    ItemAtIs(w.list, 0);
    if w.a.Node? {
      SimpleBefore(w.a, Semi, ForCondition(nl, w, r));
    }
    if w.c.Node? {
      SimpleBefore(w.c, RParen, LineEnd(nl) + ForBody(nl, w, r));
    }
  }

  lemma ForWritten(nl: bool, w: Node, r: seq<Sym>)
    requires w.Node? && w.kind == For && |w.list| == 1 && w.list[0].Node?
    ensures ForInit(nl, w, r) == ShowPart(w.a, [Op(Semi)] + ForCondition(nl, w, r))
    ensures ForCondition(nl, w, r) == ShowMaybe(false, w.b, [Op(Semi)] + ForPost(nl, w, r))
    ensures ForPost(nl, w, r) == ShowPart(w.c, [Op(RParen)] + (LineEnd(nl) + ForBody(nl, w, r)))
    ensures ForBody(nl, w, r) == ShowStmt(nl, w.list[0], r)
  {
    hide ShowPart, ShowMaybe, ShowStmt;
  }

  lemma ForBodyFits(w: Node, r: seq<Sym>)
    requires w.Node? && StmtFits(w, r) && w.kind == For && |w.list| == 1 && CanonStmt(w.list[0])
    ensures StmtFits(w.list[0], r)
  {
    hide CanonStmt;
  }

  lemma SimpleBefore(w: Node, stop: TokType, r: seq<Sym>)
    requires w.Node? && CanonSimple(w) && (stop == Semi || (stop == RParen && !PrintsNothing(w)))
    ensures SimpleFits(w, [Op(stop)] + r)
  {
    hide CanonSimple, PrintsNothing;
  }

  lemma ForInShown(nl: bool, w: Node, r: seq<Sym>)
    requires StmtFits(w, r) && w.kind == ForIn
    ensures w.a.Node? && StmtFits(w.a, r) && w == ForInNode(w.str, w.str2, w.a)
    ensures ForHeadOf(nl, w, r)
         == [Word(Name, w.str)] + ([Op(KwIn)] + ([Word(Name, w.str2)] + ([Op(RParen)] + (LineEnd(nl) + ShowStmt(nl, w.a, r)))))
  {
    ForInBody(w);
    hide CanonStmt, ShowStmt;
  }

  lemma NameKinds(n: Node)
    requires n.Node? && Canon(false, n) && First(n) == Name && n.kind !in {VarRef, ArrayRef}
    ensures n.kind in {PostIncr, PostDecr, Ternary, Concat, Getline, BinOp, Compare, Match, And, Or, Assignment}
    ensures n.kind == Getline ==> n.source == FromCommand
    ensures First(LeftOf(n)) == Name
  {
    hide Fits, AllFit;
  }

  lemma LeftFits(n: Node) returns (level: nat)
    requires n.Node? && Canon(false, n) && (n.kind == Getline ==> n.source == FromCommand)
    requires n.kind in {PostIncr, PostDecr, Ternary, Concat, Getline, BinOp, Compare, Match, And, Or, Assignment}
    ensures Fits(false, LeftOf(n), level)
    ensures n.kind == Concat ==> Fits(false, n.b, 4) && PlainStart(First(n.b))
  {
    level :=
      if n.kind in {PostIncr, PostDecr} then 0
      else if n.kind == Ternary then 11
      else if n.kind == Concat then 5
      else if n.kind == Getline then 7
      else if n.kind == Match then 8
      else LeftMax(n);
    hide Fits, AllFit, First, LeftMax;
  }

  lemma FitsIs(n: Node, level: nat)
    requires Fits(false, n, level)
    ensures n.Node? && Canon(false, n)
  {
    hide Rank, Open;
  }

  lemma NameBehind(n: Node, rest: seq<Sym>) returns (behind: seq<Sym>)
    requires n.Node? && n.kind in {PostIncr, PostDecr, Ternary, Concat, Getline, BinOp, Compare, Match, And, Or, Assignment}
    requires n.kind == Getline ==> n.source == FromCommand
    requires n.kind == Concat ==> n.b.Node? && Canon(false, n.b) && PlainStart(First(n.b))
    requires HasOperator(n, false) || n.kind !in {BinOp, Compare, Match, And, Or, Assignment}
    ensures Show(false, n, rest) == Show(false, LeftOf(n), behind) && behind != [] && behind[0].typ != KwIn
  {
    if n.kind in {PostIncr, PostDecr} {
      behind := [Op(if n.kind == PostIncr then Incr else Decr)] + rest;
    } else if n.kind == Ternary {
      behind := [Op(Question)] + Show(false, n.b, LineEnd(false) + ([Op(Colon)] + Show(false, n.c, rest)));
    } else if n.kind == Concat {
      behind := Show(false, n.b, rest);
      ShowStarts(false, false, n.b, rest);
      hide Canon, First;
    } else if n.kind == Assignment {
      behind := [Op(n.op)] + (LineEnd(false) + Show(false, n.b, rest));
    } else {
      behind := Tail(false, n, rest);
    }
  }

  lemma OperatorKinds(n: Node)
    requires n.Node? && Canon(false, n) && n.kind in {BinOp, Compare, Match, And, Or, Assignment}
    ensures HasOperator(n, false)
  {
    hide Fits, AllFit;
  }

  /** What an expression that begins with a name begins with, and what is behind that. */
  lemma NameInside(n: Node, rest: seq<Sym>) returns (m: Node, behind: seq<Sym>)
    requires n.Node? && Canon(false, n) && First(n) == Name && n.kind !in {VarRef, ArrayRef}
    ensures m < n && m.Node? && Canon(false, m) && First(m) == Name && Show(false, n, rest) == Show(false, m, behind)
    ensures behind != [] && behind[0].typ != KwIn
  {
    hide *;
    NameKinds(n);
    LeftIsSmaller(n);
    m := LeftOf(n);
    var level := LeftFits(n);
    FitsIs(m, level);
    if n.kind == Concat {
      FitsIs(n.b, 4);
    }
    if n.kind in {BinOp, Compare, Match, And, Or, Assignment} {
      OperatorKinds(n);
    }
    behind := NameBehind(n, rest);
  }

  lemma NameFirst(n: Node, rest: seq<Sym>)
    requires n.Node? && n.kind in {VarRef, ArrayRef} && rest != [] && rest[0].typ != KwIn
    ensures |Show(false, n, rest)| >= 2 && Show(false, n, rest)[0].typ == Name && Show(false, n, rest)[1].typ != KwIn
  {
    hide ShowList;
  }

  /** A name that begins an expression has no `in` behind it. */
  lemma {:induction false} SecondIsNotIn(n: Node, rest: seq<Sym>)
    requires n.Node? && Canon(false, n) && First(n) == Name && rest != [] && rest[0].typ != KwIn
    ensures |Show(false, n, rest)| >= 2 && Show(false, n, rest)[0].typ == Name && Show(false, n, rest)[1].typ != KwIn
    decreases n
  {
    hide *;
    if n.kind in {VarRef, ArrayRef} {
      NameFirst(n, rest);
    } else {
      var m, behind := NameInside(n, rest);
      SecondIsNotIn(m, behind);
    }
  }

  lemma InitIsNotIn(nl: bool, w: Node, r: seq<Sym>)
    requires StmtFits(w, r) && w.kind == For
    ensures var s := ForInit(nl, w, r); s != [] && (s[0].typ == Name ==> |s| >= 2 && s[1].typ != KwIn)
  {
    ForParts(nl, w, r);
    var behind := [Op(Semi)] + ForCondition(nl, w, r);
    if w.a.Node? {
      SimpleStarts(false, w.a, behind);
      hide ForCondition, ForInit;
      if w.a.kind == ExprStmt {
        ExpressionStarts(false, w.a.a, behind);
        if First(w.a.a) == Name {
          SecondIsNotIn(w.a.a, behind);
        }
      }
    }
  }

  predicate IsJump(n: Node) {
    n.Node? && n.kind in {Break, Continue, Next, NextFile, Exit, Return}
  }

  lemma JumpCanon(w: Node)
    requires CanonStmt(w) && IsJump(w)
    ensures w.kind in {Exit, Return} ==> w == OneChild(w.kind, EndOfFile, w.a) && (w.a.Null? || Fits(false, w.a, 13))
    ensures w.kind == Exit && w.a.Node? ==> First(w.a) != KwGetline
    ensures w.kind !in {Exit, Return} ==> w == NewNode(w.kind) && w.a.Null?
  {
    hide Fits, First;
  }

  lemma JumpWritten(nl: bool, w: Node, r: seq<Sym>)
    requires IsJump(w) && (w.kind in {Exit, Return} || w.a.Null?)
    ensures ShowStmt(nl, w, r) == [Op(JumpToken(w.kind))] + ShowMaybe(nl, w.a, [Op(Term(nl))] + r)
  {
    hide Show;
  }

  lemma JumpKinds(w: Node)
    requires IsJump(w)
    ensures w.kind in {Exit, Return} <==> JumpToken(w.kind) == KwExit || JumpToken(w.kind) == KwReturn
    ensures JumpToken(w.kind) == KwReturn <==> w.kind == Return
    ensures w.kind in {Exit, Return} ==> LeaveNode(JumpToken(w.kind), w.a) == OneChild(w.kind, EndOfFile, w.a)
    ensures w.kind !in {Exit, Return} ==> JumpKind(JumpToken(w.kind)) == w.kind
  {
  }

  lemma JumpShown(nl: bool, w: Node, r: seq<Sym>)
    requires StmtFits(w, r) && IsJump(w)
    ensures ShowStmt(nl, w, r) == [Op(JumpToken(w.kind))] + ShowMaybe(nl, w.a, [Op(Term(nl))] + r)
    ensures w.kind in {Exit, Return} <==> JumpToken(w.kind) == KwExit || JumpToken(w.kind) == KwReturn
    ensures w.kind in {Exit, Return} ==>
              && w == LeaveNode(JumpToken(w.kind), w.a) && (w.a.Null? || Fits(false, w.a, 13))
              && (w.kind == Exit && w.a.Node? ==> First(w.a) != KwGetline) && (JumpToken(w.kind) == KwReturn <==> w.kind == Return)
    ensures w.kind !in {Exit, Return} ==> w == NewNode(JumpKind(JumpToken(w.kind))) && w.a.Null?
  {
    JumpNode(w);
    hide *;
    StatementKinds(w, r);
    JumpCanon(w);
    JumpWritten(nl, w, r);
    JumpKinds(w);
  }

  lemma JumpNode(w: Node)
    requires IsJump(w)
    ensures w.Node? && w.kind in {Break, Continue, Next, NextFile, Exit, Return}
  {
  }

  lemma NothingMaybe(nl: bool, rest: seq<Sym>)
    ensures ShowMaybe(nl, Null, rest) == rest && ShowPart(Null, rest) == rest
  {
  }

  /** The first token tells the kind of a statement. */
  lemma StatementStarts(nl: bool, w: Node, r: seq<Sym>)
    requires StmtFits(w, r)
    ensures w.Node? && ShowStmt(nl, w, r) != []
    ensures var t := ShowStmt(nl, w, r)[0].typ;
            && t !in {EndOfFile, Newline, Semi, RBrace, KwElse}
            && (t == LBrace <==> w.kind == Block) && (t == KwIf <==> w.kind == If) && (t == KwWhile <==> w.kind == While)
            && (t == KwDo <==> w.kind == DoWhile) && (t == KwFor <==> w.kind in {For, ForIn})
            && (t in {KwBreak, KwContinue, KwNext, KwNextFile, KwExit, KwReturn} <==> IsJump(w))
    ensures w.kind == Block ==> IsBlock(w) && ShowStmt(nl, w, r) == ShowBlock(nl, w, [Op(Term(nl))] + r)
    ensures w.kind in {ExprStmt, Print, Printf, Delete, DeleteAll} ==>
              SimpleFits(w, [Op(Term(nl))] + r) && ShowStmt(nl, w, r) == ShowSimple(nl, w, [Op(Term(nl))] + r)
    ensures w.kind in {Block, If, While, DoWhile, For, ForIn, ExprStmt, Print, Printf, Delete, DeleteAll} || IsJump(w)
  {
    hide *;
    StatementKinds(w, r);
    if w.kind in {ExprStmt, Print, Printf, Delete, DeleteAll} {
      SimpleStatement(nl, w, r);
      SimpleStarts(nl, w, [Op(Term(nl))] + r);
      StartsIs(ShowSimple(nl, w, [Op(Term(nl))] + r));
      JumpIs(w);
    } else {
      StructureStarts(nl, w, r);
      OpeningTells(w);
      StartsFirst(ShowStmt(nl, w, r), Opening(w));
    }
  }

  lemma StartsFirst(s: seq<Sym>, t: TokType)
    requires Starts(s, t)
    ensures s != [] && s[0].typ == t
  {
  }

  lemma JumpIs(w: Node)
    ensures IsJump(w) <==> w.Node? && w.kind in {Break, Continue, Next, NextFile, Exit, Return}
  {
  }

  lemma StartsIs(s: seq<Sym>)
    requires s != []
    ensures forall t :: Starts(s, t) <==> s[0].typ == t
  {
  }

  /** The token that a statement other than a simple one begins with. */
  function Opening(n: Node): TokType
    requires n.Node?
  {
    match n.kind
    case Block => LBrace
    case If => KwIf
    case While => KwWhile
    case DoWhile => KwDo
    case For | ForIn => KwFor
    case _ => JumpToken(n.kind)
  }

  lemma OpeningTells(w: Node)
    requires w.Node? && (w.kind in {Block, If, While, DoWhile, For, ForIn} || IsJump(w))
    ensures var t := Opening(w);
            && t !in {EndOfFile, Newline, Semi, RBrace, KwElse}
            && (t == LBrace <==> w.kind == Block) && (t == KwIf <==> w.kind == If) && (t == KwWhile <==> w.kind == While)
            && (t == KwDo <==> w.kind == DoWhile) && (t == KwFor <==> w.kind in {For, ForIn})
            && (t in {KwBreak, KwContinue, KwNext, KwNextFile, KwExit, KwReturn} <==> IsJump(w))
  {
  }

  lemma StructureStarts(nl: bool, w: Node, r: seq<Sym>)
    requires CanonStmt(w) && w.Node? && (w.kind in {Block, If, While, DoWhile, For, ForIn} || IsJump(w))
    ensures Starts(ShowStmt(nl, w, r), Opening(w))
    ensures w.kind == Block ==> IsBlock(w) && ShowStmt(nl, w, r) == ShowBlock(nl, w, [Op(Term(nl))] + r)
  {
    hide CanonStmt, ShowStmt, ShowBlock, Opening, IsJump;
    BodyIsNode(w);
    StructureOpens(nl, w, r);
  }

  lemma StructureOpens(nl: bool, w: Node, r: seq<Sym>)
    requires w.Node? && (w.kind in {Block, If, While, DoWhile, For, ForIn} || IsJump(w))
    requires w.kind in {If, While, DoWhile} ==> w.b.Node?
    requires w.kind == For ==> w.list != [] && w.list[0].Node?
    requires w.kind == ForIn ==> w.a.Node?
    ensures Starts(ShowStmt(nl, w, r), Opening(w))
    ensures w.kind == Block ==> ShowStmt(nl, w, r) == ShowBlock(nl, w, [Op(Term(nl))] + r)
  {
    hide ShowCondition, ShowPart, ShowMaybe, ShowSimple, Show, JumpToken, ShowStmts;
  }

  lemma BodyIsNode(w: Node)
    requires CanonStmt(w)
    ensures w.Node?
    ensures w.kind in {If, While, DoWhile} ==> w.b.Node?
    ensures w.kind == For ==> w.list != [] && w.list[0].Node?
    ensures w.kind == ForIn ==> w.a.Node?
  {
    hide Dangling, Fits, First, CanonSimple, AllStmts;
  }

  lemma StatementKinds(w: Node, r: seq<Sym>)
    requires StmtFits(w, r)
    ensures CanonStmt(w) && w.Node?
    ensures w.kind in {Block, If, While, DoWhile, For, ForIn, ExprStmt, Print, Printf, Delete, DeleteAll} || IsJump(w)
  {
    hide Fits, First;
  }

  lemma SimpleStatement(nl: bool, w: Node, r: seq<Sym>)
    requires CanonStmt(w) && w.kind in {ExprStmt, Print, Printf, Delete, DeleteAll}
    ensures SimpleFits(w, [Op(Term(nl))] + r) && ShowStmt(nl, w, r) == ShowSimple(nl, w, [Op(Term(nl))] + r)
  {
    hide CanonSimple, ShowSimple;
  }

  // ---------- statement lists, as they are read ----------

  function StmtsFrom(nl: bool, ws: seq<Node>, i: nat, rest: seq<Sym>): seq<Sym> {
    if i <= |ws| then ShowStmts(nl, ws[i..], rest) else rest
  }

  lemma StmtsFromStart(nl: bool, ws: seq<Node>, rest: seq<Sym>)
    ensures StmtsFrom(nl, ws, 0, rest) == ShowStmts(nl, ws, rest) && ws[..0] == []
  {
    assert ws[0..] == ws;
  }

  lemma StmtShown(nl: bool, ws: seq<Node>, i: nat, rest: seq<Sym>)
    requires AllStmts(ws) && i < |ws|
    ensures ws[i].Node? && CanonStmt(ws[i]) && StmtsFrom(nl, ws, i, rest) == ShowStmt(nl, ws[i], StmtsFrom(nl, ws, i + 1, rest))
  {
    assert CanonStmt(ws[i]);
    assert ws[i..][0] == ws[i] && ws[i..][1..] == ws[i + 1..];
    hide CanonStmt, ShowStmt;
    assert CanonStmt(ws[i]) ==> ws[i].Node? by {
      CanonIsNode(ws[i]);
    }
  }

  lemma CanonIsNode(n: Node)
    ensures CanonStmt(n) ==> n.Node?
  {
  }

  lemma {:induction false} StmtsStart(nl: bool, ws: seq<Node>, i: nat, rest: seq<Sym>)
    requires AllStmts(ws) && i <= |ws| && Starts(rest, RBrace)
    ensures !Starts(StmtsFrom(nl, ws, i, rest), Semi) && !Starts(StmtsFrom(nl, ws, i, rest), Newline)
    ensures !Starts(StmtsFrom(nl, ws, i, rest), KwElse)
    ensures i < |ws| ==> StmtsFrom(nl, ws, i, rest) != [] && StmtsFrom(nl, ws, i, rest)[0].typ !in {RBrace, EndOfFile, Newline}
    ensures i == |ws| ==> StmtsFrom(nl, ws, i, rest) == rest
    decreases |ws| - i
  {
    hide CanonStmt, ShowStmt, Dangling;
    if i < |ws| {
      StmtsStart(nl, ws, i + 1, rest);
      StmtShown(nl, ws, i, rest);
      StatementStarts(nl, ws[i], StmtsFrom(nl, ws, i + 1, rest));
    }
  }

  lemma StmtAt(nl: bool, ws: seq<Node>, i: nat, rest: seq<Sym>)
    requires AllStmts(ws) && i < |ws| && Starts(rest, RBrace)
    ensures ws[i].Node? && StmtFits(ws[i], StmtsFrom(nl, ws, i + 1, rest))
    ensures StmtsFrom(nl, ws, i, rest) == ShowStmt(nl, ws[i], StmtsFrom(nl, ws, i + 1, rest))
  {
    StmtShown(nl, ws, i, rest);
    StmtsStart(nl, ws, i + 1, rest);
    hide CanonStmt, ShowStmt, Dangling, StmtsFrom, AllStmts;
  }

  // ---------- programs, as they are read ----------

  predicate EndsItem(r: seq<Sym>) {
    r == [] || Starts(r, Semi) || Starts(r, Newline)
  }

  /** An item, and what may stand behind it: a rule without an action has no line end
      there, as a brace behind that would be taken for its action. */
  predicate ItemFits(n: Node, r: seq<Sym>) {
    CanonItem(n) && EndsItem(r) && (n.kind == Rule && n.c.Null? ==> !Starts(r, Newline))
  }

  /** A pattern, and what may stand behind it. */
  predicate PatternFits(n: Node, r: seq<Sym>) {
    && n.Node? && CanonPattern(n) && (EndsItem(r) || Starts(r, LBrace)) && (n.pattern == PatAlways ==> Starts(r, LBrace))
  }

  lemma PatternStops(r: seq<Sym>)
    requires EndsItem(r) || Starts(r, LBrace) || Starts(r, Comma)
    ensures Stops(false, 13, r)
  {
  }

  lemma PatternShown(nl: bool, w: Node, r: seq<Sym>)
    requires PatternFits(w, r) && w.pattern in {PatExpr, PatRange}
    ensures w.a.Node? && !Starts(r, Comma)
    ensures w.pattern == PatExpr ==> w.b.Null? && Wanted(false, w.a, 13, r) && ShowPattern(nl, w, r) == Show(nl, w.a, r)
    ensures w.pattern == PatRange ==>
              && w.b.Node? && Wanted(false, w.a, 13, [Op(Comma)] + Show(nl, w.b, r)) && Wanted(false, w.b, 13, r)
              && ShowPattern(nl, w, r) == Show(nl, w.a, [Op(Comma)] + Show(nl, w.b, r))
  {
    PatternStops(r);
    PatternStops([Op(Comma)] + Show(nl, w.b, r));
    hide Canon, Rank, Show, Stops;
    if w.pattern == PatExpr {
      FitsIsWanted(false, w.a, 13, r);
    } else {
      FitsIsWanted(false, w.a, 13, [Op(Comma)] + Show(nl, w.b, r));
      FitsIsWanted(false, w.b, 13, r);
    }
  }

  lemma PatternStarts(nl: bool, w: Node, r: seq<Sym>)
    requires PatternFits(w, r)
    ensures ShowPattern(nl, w, r) != []
    ensures var t := ShowPattern(nl, w, r)[0].typ;
            && (t == KwBegin <==> w.pattern == PatBegin) && (t == KwEnd <==> w.pattern == PatEnd)
            && (t == LBrace <==> w.pattern == PatAlways) && t !in {EndOfFile, Newline, Semi, KwFunction}
    ensures w.pattern == PatBegin ==> ShowPattern(nl, w, r) == [Op(KwBegin)] + r
    ensures w.pattern == PatEnd ==> ShowPattern(nl, w, r) == [Op(KwEnd)] + r
    ensures w.pattern == PatAlways ==> ShowPattern(nl, w, r) == r
    ensures w.pattern !in {PatExpr, PatRange} ==> w.a.Null? && w.b.Null?
  {
    if w.pattern in {PatExpr, PatRange} {
      PatternShown(nl, w, r);
      var behind := if w.pattern == PatRange then [Op(Comma)] + Show(nl, w.b, r) else r;
      WantedIs(false, w.a, 13, behind);
      ShowStarts(nl, false, w.a, behind);
      FirstStarts(false, w.a);
    }
    hide Fits, Show, First, Wanted;
  }

  function BehindPattern(nl: bool, n: Node, r: seq<Sym>): seq<Sym>
    requires n.Node?
  {
    LineEnd(nl && n.c.Node? && n.pattern != PatAlways) + ShowAction(nl, n.c, r)
  }

  lemma RuleShown(nl: bool, w: Node, r: seq<Sym>)
    requires ItemFits(w, r) && w.kind == Rule
    ensures PatternFits(w, BehindPattern(nl, w, r)) && ShowItem(nl, w, r) == ShowPattern(nl, w, BehindPattern(nl, w, r))
    ensures BehindPattern(nl, w, r) == LineEnd(nl && w.c.Node? && w.pattern != PatAlways) + ShowAction(nl, w.c, r)
    ensures w == RuleNode(w.pattern, w.a, w.b, w.c) && (w.c.Null? || IsBlock(w.c))
  {
    hide Fits, ShowStmts, ShowPattern, CanonStmt;
  }

  lemma ActionShown(nl: bool, c: Node, r: seq<Sym>)
    requires (c.Null? || IsBlock(c)) && EndsItem(r) && (c.Null? ==> !Starts(r, Newline))
    ensures c.Node? ==> ShowAction(nl, c, r) == ShowBlock(nl, c, r) && Starts(ShowAction(nl, c, r), LBrace)
    ensures c.Null? ==> ShowAction(nl, c, r) == r && !Starts(r, LBrace)
    ensures !Starts(ShowAction(nl, c, r), Newline)
  {
    hide ShowStmts, CanonStmt;
  }

  lemma FuncShown(nl: bool, w: Node, r: seq<Sym>)
    requires CanonItem(w) && w.kind == Func
    ensures ShowItem(nl, w, r) == [Op(KwFunction)] + ([Word(FuncName, w.str)] + Signature(nl, w.params, ShowAction(nl, w.a, r)))
    ensures w.a.Node? && IsBlock(w.a) && ShowAction(nl, w.a, r) == ShowBlock(nl, w.a, r) && !Starts(ShowAction(nl, w.a, r), Newline)
    ensures w == FuncNode(w.str, w.params, w.a)
  {
    hide Signature, CanonStmt, ShowStmts;
  }

  lemma ParenStarts(r: seq<Sym>)
    ensures Starts([Op(RParen)] + r, RParen)
  {
  }

  function ParametersFrom(ps: seq<string>, i: nat, rest: seq<Sym>): seq<Sym> {
    if i <= |ps| then ShowParameters(ps[i..], rest) else rest
  }

  function BehindParameter(ps: seq<string>, i: nat, rest: seq<Sym>): seq<Sym> {
    if i + 1 < |ps| then [Op(Comma)] + ParametersFrom(ps, i + 1, rest) else rest
  }

  lemma ParameterShown(ps: seq<string>, i: nat, rest: seq<Sym>)
    requires i < |ps|
    ensures ParametersFrom(ps, i, rest) == [Word(Name, Text(ps[i]))] + BehindParameter(ps, i, rest)
    ensures i + 1 == |ps| ==> ParametersFrom(ps, i + 1, rest) == rest
  {
    assert ps[i..][0] == ps[i] && ps[i..][1..] == ps[i + 1..];
  }

  lemma ParametersSoFar(ps: seq<string>, i: nat)
    ensures i < |ps| ==> ps[..i] + [ps[i]] == ps[..i + 1]
    ensures ps != [] ==> ps[..1] == [ps[0]]
    ensures ps[..|ps|] == ps
  {
  }

  lemma ParametersAll(ps: seq<string>, rest: seq<Sym>)
    ensures ParametersFrom(ps, 0, rest) == ShowParameters(ps, rest) && ParametersFrom(ps, |ps|, rest) == rest
    ensures ps[..|ps|] == ps && (ps == [] ==> ShowParameters(ps, rest) == rest)
  {
    assert ps[0..] == ps;
  }

  function ItemsFrom(nl: bool, ws: seq<Node>, i: nat): seq<Sym> {
    if i <= |ws| then ShowItems(nl, ws[i..], []) else []
  }

  function BehindItemOf(nl: bool, ws: seq<Node>, i: nat): seq<Sym> {
    if i + 1 < |ws| then [Op(ItemTerm(nl, ws[i]))] + ItemsFrom(nl, ws, i + 1) else []
  }

  lemma ItemsFromStart(nl: bool, ws: seq<Node>)
    ensures ItemsFrom(nl, ws, 0) == ShowItems(nl, ws, []) && ws[..0] == []
  {
    assert ws[0..] == ws;
  }

  lemma ItemsShown(nl: bool, items: seq<Node>)
    requires items != [] && items[0].Node?
    ensures ShowItems(nl, items, [])
         == ShowItem(nl, items[0], if |items| == 1 then [] else [Op(ItemTerm(nl, items[0]))] + ShowItems(nl, items[1..], []))
    ensures ShowItems(nl, [], []) == []
  {
    hide ShowItem;
  }

  lemma ItemIsNode(n: Node)
    requires CanonItem(n)
    ensures n.Node?
  {
  }

  lemma Suffix(ws: seq<Node>, i: nat)
    requires i < |ws|
    ensures |ws[i..]| == |ws| - i && ws[i..][0] == ws[i] && ws[i..][1..] == ws[i + 1..]
    ensures i + 1 == |ws| ==> ws[i + 1..] == []
  {
  }

  lemma ItemShownAt(nl: bool, ws: seq<Node>, i: nat)
    requires AllItems(ws) && i < |ws|
    ensures ws[i].Node? && ItemFits(ws[i], BehindItemOf(nl, ws, i))
    ensures ItemsFrom(nl, ws, i) == ShowItem(nl, ws[i], BehindItemOf(nl, ws, i))
    ensures i + 1 == |ws| ==> BehindItemOf(nl, ws, i) == [] && ItemsFrom(nl, ws, i + 1) == []
    ensures i + 1 < |ws| ==> BehindItemOf(nl, ws, i) == [Op(ItemTerm(nl, ws[i]))] + ItemsFrom(nl, ws, i + 1)
  {
    hide CanonItem, ShowItem, ShowItems;
    ItemIsNode(ws[i]);
    Suffix(ws, i);
    ItemsShown(nl, ws[i..]);
  }

  lemma ItemStarts(nl: bool, w: Node, r: seq<Sym>)
    requires ItemFits(w, r)
    ensures w.Node? && w.kind in {Rule, Func} && ShowItem(nl, w, r) != []
    ensures ShowItem(nl, w, r)[0].typ !in {EndOfFile, Newline, Semi} && (ShowItem(nl, w, r)[0].typ == KwFunction <==> w.kind == Func)
  {
    if w.kind == Func {
      FuncShown(nl, w, r);
    } else {
      RuleShown(nl, w, r);
      PatternStarts(nl, w, BehindPattern(nl, w, r));
    }
    hide CanonPattern, CanonStmt, ShowPattern, Signature, ShowAction, BehindPattern;
  }

  lemma ItemsStart(nl: bool, ws: seq<Node>, i: nat)
    requires AllItems(ws) && i <= |ws|
    ensures !Starts(ItemsFrom(nl, ws, i), Semi) && !Starts(ItemsFrom(nl, ws, i), Newline)
    ensures i < |ws| ==> ItemsFrom(nl, ws, i) != [] && ItemsFrom(nl, ws, i)[0].typ !in {EndOfFile, Newline, Semi}
    ensures i == |ws| ==> ItemsFrom(nl, ws, i) == []
  {
    if i < |ws| {
      ItemShownAt(nl, ws, i);
      hide CanonItem, ShowItem;
      ItemStarts(nl, ws[i], BehindItemOf(nl, ws, i));
    }
  }

  // ---------- line ends ----------

  lemma StmtIsNoLine(nl: bool, w: Node, r: seq<Sym>)
    requires StmtFits(w, r) && w.Node?
    ensures !Starts(ShowStmt(nl, w, r), Newline)
  {
    hide StmtFits, ShowStmt;
    StatementStarts(nl, w, r);
  }

  lemma PrintedIsNoLine(nl: bool, ws: seq<Node>, i: nat, rest: seq<Sym>)
    requires AllPlain(ws) && EndsPrinted(ws, rest) && i < |ws|
    ensures !Starts(ListRest(nl, ws, i, rest), Newline)
  {
    hide *;
    PrintedItem(nl, ws, i, rest);
    WantedIsNoLine(nl, true, ws[i], 12, ItemRest(nl, ws, i, rest));
  }

  lemma ParameterIsNoLine(ps: seq<string>, i: nat, rest: seq<Sym>)
    requires i < |ps|
    ensures !Starts(ParametersFrom(ps, i, rest), Newline)
  {
    hide BehindParameter, ParametersFrom;
    ParameterShown(ps, i, rest);
  }

  lemma TermIs(nl: bool)
    ensures Term(nl) == (if nl then Newline else Semi) && Term(nl) in {Semi, Newline}
  {
  }

  lemma ItemTerms(nl: bool, n: Node)
    ensures ItemTerm(nl, n) in {Semi, Newline}
  {
  }

  lemma ItemFitsIs(n: Node, r: seq<Sym>)
    requires ItemFits(n, r)
    ensures CanonItem(n) && EndsItem(r) && n.Node?
    ensures n.kind == Rule && n.c.Null? ==> !Starts(r, Newline)
  {
    hide CanonPattern, CanonStmt;
  }

  lemma WhileIsNoTerm(r: seq<Sym>)
    ensures !Starts([Op(KwWhile)] + r, Semi) && !Starts([Op(KwWhile)] + r, Newline)
  {
  }
}
