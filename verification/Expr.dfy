/** expr: a seven-level recursive descent that evaluates while it parses
    (src/expr_app.c), and the precedence-aware printer that it undoes. */
module Expr {
  import opened Strings
  import opened Wrappers

  type Token = string

  // ---------- integers as text ----------

  const INT64_MIN: int := -0x8000_0000_0000_0000
  const INT64_MAX: int := 0x7FFF_FFFF_FFFF_FFFF

  predicate InRange(v: int) {
    INT64_MIN <= v <= INT64_MAX
  }

  /** Signed arithmetic in 64 bits; C leaves an overflow undefined, here it wraps. */
  function Wrap(v: int): (r: int)
    ensures InRange(r)
    ensures InRange(v) ==> r == v
  {
    (v - INT64_MIN) % 0x1_0000_0000_0000_0000 + INT64_MIN
  }

  function SkipSpaces(s: string): string {
    if s != [] && IsSpace(s[0]) then SkipSpaces(s[1..]) else s
  }

  function DigitOf(c: char): nat
    requires IsDigit(c)
  {
    c as int - '0' as int
  }

  predicate AllDigits(s: string) {
    forall k :: 0 <= k < |s| ==> IsDigit(s[k])
  }

  function DigitsValue(s: string): nat
    requires AllDigits(s)
  {
    if s == [] then 0 else DigitsValue(s[..|s| - 1]) * 10 + DigitOf(s[|s| - 1])
  }

  /** What is left behind a sign. */
  function Unsigned(t: string): string {
    if t != [] && (t[0] == '+' || t[0] == '-') then t[1..] else t
  }

  /** What strtoll makes of a whole string: leading blanks, a sign, digits to the
      end, and a value in range; anything else is not an integer. */
  function IntegerOf(s: string): Option<int> {
    var t := SkipSpaces(s);
    if Unsigned(t) == [] || !AllDigits(Unsigned(t)) then None
    else
      var n: int := DigitsValue(Unsigned(t));
      var v := if t[0] == '-' then -n else n;
      if InRange(v) then Some(v) else None
  }

  predicate IsFalsey(s: string) {
    s == [] || IntegerOf(s) == Some(0)
  }

  function Decimal(n: nat): (s: string)
    ensures s != [] && AllDigits(s) && DigitsValue(s) == n
  {
    var last := '0' + (n % 10) as char;
    if n < 10 then [last]
    else
      var front := Decimal(n / 10);
      assert (front + [last])[..|front|] == front;
      front + [last]
  }

  function FormatInt(v: int): string {
    if v < 0 then ['-'] + Decimal(-v) else Decimal(v)
  }

  /** Every intermediate result, printed, reads back as itself. */
  lemma FormatRoundTrip(v: int)
    requires InRange(v)
    ensures IntegerOf(FormatInt(v)) == Some(v)
  {
    var s := FormatInt(v);
    assert SkipSpaces(s) == s by {
      assert !IsSpace(s[0]);
    }
    if v < 0 {
      assert s[1..] == Decimal(-v);
    }
  }

  // ---------- operators ----------

  /** C division truncates toward zero. */
  function TruncDiv(a: int, b: int): int
    requires b != 0
  {
    var q := (if a < 0 then -a else a) / (if b < 0 then -b else b);
    if (a < 0) != (b < 0) then -q else q
  }

  function TruncMod(a: int, b: int): int
    requires b != 0
  {
    a - b * TruncDiv(a, b)
  }

  /** What regcomp and regexec report; the pattern language itself is not modelled. */
  datatype MatchOutcome = BadPattern | NoMatch(groups: bool) | MatchedGroup(text: string) | MatchedLength(n: nat)

  type Matcher = (string, string) -> MatchOutcome

  /** The value of a match, and whether it is an error. */
  function MatchResult(m: MatchOutcome): (string, bool) {
    match m
    case BadPattern => ("", true)
    case NoMatch(groups) => (if groups then "" else "0", false)
    case MatchedGroup(text) => (text, false)
    case MatchedLength(n) => (FormatInt(n), false)
  }

  const OR: nat := 0
  const AND: nat := 1
  const COMPARE: nat := 2
  const ADD: nat := 3
  const MUL: nat := 4
  const COLON: nat := 5
  const PRIMARY: nat := 6

  predicate IsOp(level: nat, t: Token) {
    match level
    case 0 => t == "|"
    case 1 => t == "&"
    case 2 => t in ["=", "==", "!=", "<", "<=", ">", ">="]
    case 3 => t == "+" || t == "-"
    case 4 => t == "*" || t == "/" || t == "%"
    case 5 => t == ":"
    case _ => false
  }

  /** Goes on with a value, possibly after an error, or gives up on this level. */
  datatype Combined = Go(value: string, failed: bool) | GiveUp(value: string)

  function Compare(op: Token, left: string, right: string): bool {
    var cmp := match (IntegerOf(left), IntegerOf(right))
               case (Some(a), Some(b)) => if a < b then -1 else if a > b then 1 else 0
               case _ => StrCmp(left, right);
    if op == "=" || op == "==" then cmp == 0
    else if op == "!=" then cmp != 0
    else if op == "<=" then cmp <= 0
    else if op == "<" then cmp < 0
    else if op == ">=" then cmp >= 0
    else cmp > 0
  }

  function Combine(re: Matcher, level: nat, op: Token, left: string, right: string): Combined {
    match level
    case 0 => Go(if !IsFalsey(left) then left else right, false)
    case 1 => Go(if IsFalsey(left) || IsFalsey(right) then "0" else left, false)
    case 2 => Go(if Compare(op, left, right) then "1" else "0", false)
    case 3 =>
      (match (IntegerOf(left), IntegerOf(right))
       case (Some(a), Some(b)) => Go(FormatInt(Wrap(if op == "+" then a + b else a - b)), false)
       case _ => GiveUp("0"))
    case 4 =>
      (match (IntegerOf(left), IntegerOf(right))
       case (Some(a), Some(b)) =>
         if op == "*" then Go(FormatInt(Wrap(a * b)), false)
         else if b == 0 then GiveUp("0")
         else Go(FormatInt(Wrap(if op == "/" then TruncDiv(a, b) else TruncMod(a, b))), false)
       case _ => Go("0", true))
    case _ =>
      var (value, failed) := MatchResult(re(left, right));
      Go(value, failed)
  }

  /** The position, counted from 1, of the first character of `s` that is in
      `chars`; 0 when there is none. */
  function FirstOf(s: string, chars: string, i: nat): nat
    requires i <= |s|
    decreases |s| - i
  {
    if i == |s| then 0 else if s[i] in chars then i + 1 else FirstOf(s, chars, i + 1)
  }

  function Substr(s: string, start: int, length: int): string {
    if start < 1 || length < 0 || start - 1 >= |s| then ""
    else
      var begin := start - 1;
      s[begin..begin + if length > |s| - begin then |s| - begin else length]
  }

  // ---------- what the parser computes ----------

  /** Value, cursor and error flag after a parse function returns. */
  datatype Parsed = Parsed(value: string, pos: nat, err: bool)

  function Primary(re: Matcher, toks: seq<Token>, pos: nat, err: bool): (r: Parsed)
    requires pos <= |toks|
    ensures pos <= r.pos <= |toks| && (pos < |toks| ==> pos < r.pos) && (err ==> r.err)
    decreases |toks| - pos, 0, 0
  {
    if pos == |toks| then Parsed("", pos, true)
    else
      var tok, left := toks[pos], |toks| - pos;
      if tok == "(" then
        var inner := Level(re, toks, OR, pos + 1, err);
        if inner.pos == |toks| then Parsed(inner.value, inner.pos, true)
        else Parsed(inner.value, inner.pos + 1, inner.err || toks[inner.pos] != ")")
      else if tok == "length" && left >= 2 then
        Parsed(FormatInt(|toks[pos + 1]|), pos + 2, err)
      else if tok == "index" && left >= 3 then
        Parsed(FormatInt(FirstOf(toks[pos + 1], toks[pos + 2], 0)), pos + 3, err)
      else if tok == "substr" && left >= 4 then
        (match (IntegerOf(toks[pos + 2]), IntegerOf(toks[pos + 3]))
         case (Some(start), Some(length)) => Parsed(Substr(toks[pos + 1], start, length), pos + 4, err)
         case _ => Parsed("", pos + 4, true))
      else if tok == "match" && left >= 3 then
        var (value, failed) := MatchResult(re(toks[pos + 1], toks[pos + 2]));
        Parsed(value, pos + 3, err || failed)
      else
        Parsed(tok, pos + 1, err)
  }

  /** A level parses one operand of the next level, then loops. */
  function Level(re: Matcher, toks: seq<Token>, level: nat, pos: nat, err: bool): (r: Parsed)
    requires pos <= |toks| && level <= PRIMARY
    ensures pos <= r.pos <= |toks| && (pos < |toks| ==> pos < r.pos) && (err ==> r.err)
    decreases |toks| - pos, PRIMARY + 1 - level, 1
  {
    if level == PRIMARY then Primary(re, toks, pos, err)
    else
      var left := Level(re, toks, level + 1, pos, err);
      Loop(re, toks, level, left.value, left.pos, left.err)
  }

  function Loop(re: Matcher, toks: seq<Token>, level: nat, left: string, pos: nat, err: bool): (r: Parsed)
    requires pos <= |toks| && level <= PRIMARY
    ensures pos <= r.pos <= |toks| && (err ==> r.err)
    decreases |toks| - pos, PRIMARY + 1 - level, 0
  {
    if pos == |toks| || !IsOp(level, toks[pos]) then Parsed(left, pos, err)
    else
      var right := Level(re, toks, level + 1, pos + 1, err);
      match Combine(re, level, toks[pos], left, right.value)
      case Go(value, failed) => Loop(re, toks, level, value, right.pos, right.err || failed)
      case GiveUp(value) => Parsed(value, right.pos, true)
  }

  datatype ExitStatus = Printed(value: string, code: int) | Failed

  /** The whole command on its arguments: exit code 2 for any error or leftover token. */
  function Command(re: Matcher, toks: seq<Token>): ExitStatus {
    if toks == [] then Failed
    else
      var r := Level(re, toks, OR, 0, false);
      if r.pos < |toks| || r.err then Failed
      else Printed(r.value, if IsFalsey(r.value) then 1 else 0)
  }

  // ---------- trees and their printed form ----------

  datatype Tree =
    | Word(tok: Token)
    | LengthOf(s: Token)
    | IndexIn(s: Token, chars: Token)
    | SubstrOf(s: Token, start: Token, length: Token)
    | MatchOf(s: Token, pattern: Token)
    | Binary(level: nat, op: Token, left: Tree, right: Tree)

  /** Tokens that the parser does not take as they stand where an operand begins.
      Operator characters and ")" are not among them. */
  predicate Reserved(t: Token) {
    t in ["(", "length", "index", "substr", "match"]
  }

  predicate WellFormed(e: Tree) {
    match e
    case Word(tok) => !Reserved(tok)
    case Binary(level, op, l, r) => IsOp(level, op) && WellFormed(l) && WellFormed(r)
    case _ => true
  }

  function LevelOf(e: Tree): nat {
    if e.Binary? then e.level else PRIMARY
  }

  /** Parentheses appear only where the operator binds less tightly than its
      place demands; a right operand demands one level more than a left one. */
  function Print(e: Tree, min: nat): seq<Token>
    decreases e, if LevelOf(e) < min then 1 else 0
  {
    if LevelOf(e) < min then ["("] + Print(e, OR) + [")"]
    else
      match e
      case Word(tok) => [tok]
      case LengthOf(s) => ["length", s]
      case IndexIn(s, chars) => ["index", s, chars]
      case SubstrOf(s, start, length) => ["substr", s, start, length]
      case MatchOf(s, pattern) => ["match", s, pattern]
      case Binary(level, op, l, r) => Print(l, level) + [op] + Print(r, level + 1)
  }

  /** The value of a tree; None when its evaluation fails. Both operands are
      always evaluated. */
  function Eval(re: Matcher, e: Tree): Option<string> {
    match e
    case Word(tok) => Some(tok)
    case LengthOf(s) => Some(FormatInt(|s|))
    case IndexIn(s, chars) => Some(FormatInt(FirstOf(s, chars, 0)))
    case SubstrOf(s, start, length) =>
      (match (IntegerOf(start), IntegerOf(length))
       case (Some(x), Some(n)) => Some(Substr(s, x, n))
       case _ => None)
    case MatchOf(s, pattern) =>
      var (value, failed) := MatchResult(re(s, pattern));
      if failed then None else Some(value)
    case Binary(level, op, l, r) =>
      match (Eval(re, l), Eval(re, r))
      case (Some(x), Some(y)) =>
        (match Combine(re, level, op, x, y)
         case Go(value, failed) => if failed then None else Some(value)
         case GiveUp(_) => None)
      case _ => None
  }

  // ---------- parsing undoes printing ----------

  /** `part` stands in `toks` at `pos`. */
  ghost predicate At(toks: seq<Token>, pos: nat, part: seq<Token>) {
    pos + |part| <= |toks| && toks[pos..pos + |part|] == part
  }

  /** The token at `pos`, if any, is no operator of `level` or of a tighter level. */
  ghost predicate Quiet(toks: seq<Token>, pos: nat, level: nat) {
    pos < |toks| ==> forall k :: level <= k <= PRIMARY ==> !IsOp(k, toks[pos])
  }

  lemma AtParts(toks: seq<Token>, pos: nat, x: seq<Token>, y: seq<Token>)
    requires At(toks, pos, x + y)
    ensures At(toks, pos, x) && At(toks, pos + |x|, y)
  {
    var w := toks[pos..pos + |x + y|];
    assert w[..|x|] == x && w[|x|..] == y;
    assert toks[pos..pos + |x|] == w[..|x|] && toks[pos + |x|..pos + |x| + |y|] == w[|x|..];
  }

  lemma OpsDisjoint(k: nat, l: nat, t: Token)
    requires IsOp(k, t) && IsOp(l, t)
    ensures k == l <= COLON
  {
  }

  /** What the parser has done once it has read the printed form of `e`. */
  ghost predicate ReadBack(re: Matcher, toks: seq<Token>, level: nat, pos: nat, err: bool, e: Tree)
    requires level <= PRIMARY && At(toks, pos, Print(e, level))
  {
    match Eval(re, e)
    case Some(v) => Level(re, toks, level, pos, err) == Loop(re, toks, level, v, pos + |Print(e, level)|, err)
    case None => Level(re, toks, level, pos, err).err
  }

  /** At its own level and wherever it needs no operator of that level after it,
      a printed tree is read back as its value, or the error flag is raised. */
  lemma {:induction false} ParsePrinted(re: Matcher, toks: seq<Token>, level: nat, pos: nat, err: bool, e: Tree)
    requires WellFormed(e) && level <= PRIMARY
    requires At(toks, pos, Print(e, level)) && Quiet(toks, pos + |Print(e, level)|, level + 1)
    ensures ReadBack(re, toks, level, pos, err, e)
    decreases e, if LevelOf(e) < level then 1 else 0, PRIMARY - level
  {
    assert e.Binary? ==> e.level < PRIMARY;
    hide Level, Loop, Eval, IsOp, WellFormed, Print, ReadBack, At;
    if level < PRIMARY && LevelOf(e) != level {
      SamePrint(e, level);
      ParsePrinted(re, toks, level + 1, pos, err, e);
      ParseTighter(re, toks, level, pos, err, e);
    } else if level < PRIMARY {
      ParseOperator(re, toks, pos, err, e);
    } else if e.Binary? {
      ParseParenthesized(re, toks, pos, err, e);
    } else {
      ParseLeaf(re, toks, pos, err, e);
    }
  }

  /** A tree that the next level reads whole leaves this level's loop nothing to do first. */
  lemma ParseTighter(re: Matcher, toks: seq<Token>, level: nat, pos: nat, err: bool, e: Tree)
    requires level < PRIMARY && LevelOf(e) != level
    requires At(toks, pos, Print(e, level)) && Quiet(toks, pos + |Print(e, level)|, level + 1)
    requires Print(e, level + 1) == Print(e, level) && ReadBack(re, toks, level + 1, pos, err, e)
    ensures ReadBack(re, toks, level, pos, err, e)
  {
    hide Level, Loop, Eval, IsOp, Print;
    LevelStarts(re, toks, level, pos, err);
    if Eval(re, e).Some? {
      LoopEnds(re, toks, level + 1, Eval(re, e).value, pos + |Print(e, level)|, err);
    }
  }

  lemma SamePrint(e: Tree, level: nat)
    requires LevelOf(e) != level < PRIMARY
    ensures Print(e, level + 1) == Print(e, level)
  {
  }

  lemma LevelIsPrimary(re: Matcher, toks: seq<Token>, pos: nat, err: bool)
    requires pos <= |toks|
    ensures Level(re, toks, PRIMARY, pos, err) == Primary(re, toks, pos, err)
  {
  }

  /** A loop that sees no operator of its level is done. */
  lemma LoopEnds(re: Matcher, toks: seq<Token>, level: nat, v: string, pos: nat, err: bool)
    requires pos <= |toks| && level <= PRIMARY && Quiet(toks, pos, level)
    ensures Loop(re, toks, level, v, pos, err) == Parsed(v, pos, err)
  {
  }

  lemma LevelStarts(re: Matcher, toks: seq<Token>, level: nat, pos: nat, err: bool)
    requires pos <= |toks| && level < PRIMARY
    ensures var left := Level(re, toks, level + 1, pos, err);
            Level(re, toks, level, pos, err) == Loop(re, toks, level, left.value, left.pos, left.err)
  {
  }

  lemma LoopGoesOn(re: Matcher, toks: seq<Token>, level: nat, v: string, pos: nat, err: bool)
    requires pos < |toks| && level < PRIMARY && IsOp(level, toks[pos])
    ensures var right := Level(re, toks, level + 1, pos + 1, err);
            Loop(re, toks, level, v, pos, err) ==
            match Combine(re, level, toks[pos], v, right.value)
            case Go(value, failed) => Loop(re, toks, level, value, right.pos, right.err || failed)
            case GiveUp(value) => Parsed(value, right.pos, true)
  {
  }

  lemma ParseLeaf(re: Matcher, toks: seq<Token>, pos: nat, err: bool, e: Tree)
    requires WellFormed(e) && !e.Binary? && At(toks, pos, Print(e, PRIMARY))
    ensures ReadBack(re, toks, PRIMARY, pos, err, e)
  {
    hide IntegerOf, FormatInt, Substr, FirstOf, MatchResult, Loop;
    LevelIsPrimary(re, toks, pos, err);
    var p := Print(e, PRIMARY);
    assert forall k :: 0 <= k < |p| ==> toks[pos + k] == p[k];
    match e {
      case Word(tok) => assert p[0] == tok;
      case LengthOf(s) => assert p[0] == "length" && p[1] == s;
      case IndexIn(s, chars) => assert p[0] == "index" && p[1] == s && p[2] == chars;
      case SubstrOf(s, start, length) => assert p[0] == "substr" && p[1] == s && p[2] == start && p[3] == length;
      case MatchOf(s, pattern) => assert p[0] == "match" && p[1] == s && p[2] == pattern;
    }
    if Eval(re, e).Some? {
      LoopEnds(re, toks, PRIMARY, Eval(re, e).value, pos + |p|, err);
    }
  }

  /** A parenthesis is read through the loosest level, up to its match. */
  lemma ReadParenthesis(re: Matcher, toks: seq<Token>, pos: nat, err: bool)
    requires pos < |toks| && toks[pos] == "("
    ensures var inner, r := Level(re, toks, OR, pos + 1, err), Level(re, toks, PRIMARY, pos, err);
            && (inner.err ==> r.err)
            && (inner.pos < |toks| && toks[inner.pos] == ")" ==> r == Parsed(inner.value, inner.pos + 1, inner.err))
  {
    LevelIsPrimary(re, toks, pos, err);
    hide Level;
  }

  lemma PrintParenthesized(e: Tree)
    requires WellFormed(e) && e.Binary?
    ensures Print(e, PRIMARY) == ["("] + (Print(e, OR) + [")"])
  {
    OpsDisjoint(e.level, e.level, e.op);
  }

  lemma CloseIsQuiet(toks: seq<Token>, pos: nat)
    requires pos < |toks| && toks[pos] == ")"
    ensures Quiet(toks, pos, OR)
  {
  }

  lemma PrimaryIsQuiet(toks: seq<Token>, pos: nat)
    ensures Quiet(toks, pos, PRIMARY)
  {
  }

  lemma {:induction false} ParseParenthesized(re: Matcher, toks: seq<Token>, pos: nat, err: bool, e: Tree)
    requires WellFormed(e) && e.Binary? && At(toks, pos, Print(e, PRIMARY))
    ensures ReadBack(re, toks, PRIMARY, pos, err, e)
    decreases e, 1, 0, 0
  {
    hide Level, Loop, Eval, Print, WellFormed, IsOp;
    PrintParenthesized(e);
    var inner := Print(e, OR);
    AtParts(toks, pos, ["("], inner + [")"]);
    AtParts(toks, pos + 1, inner, [")"]);
    var close := pos + 1 + |inner|;
    assert toks[pos] == "(" && toks[close] == ")";
    CloseIsQuiet(toks, close);
    ReadParenthesis(re, toks, pos, err);
    ParsePrinted(re, toks, OR, pos + 1, err, e);
    if Eval(re, e).Some? {
      LoopEnds(re, toks, OR, Eval(re, e).value, close, err);
      PrimaryIsQuiet(toks, close + 1);
      LoopEnds(re, toks, PRIMARY, Eval(re, e).value, close + 1, err);
    }
  }

  lemma NoTighterOp(level: nat, op: Token)
    requires IsOp(level, op)
    ensures level < PRIMARY && forall k :: level < k <= PRIMARY ==> !IsOp(k, op)
  {
    hide IsOp;
    OpsDisjoint(level, level, op);
    forall k | level < k <= PRIMARY
      ensures !IsOp(k, op)
    {
      if IsOp(k, op) {
        OpsDisjoint(k, level, op);
      }
    }
  }

  lemma AtOne(toks: seq<Token>, pos: nat, t: Token)
    requires At(toks, pos, [t])
    ensures pos < |toks| && toks[pos] == t
  {
    assert toks[pos] == toks[pos..pos + 1][0];
  }

  /** Where the operands and the operator of a printed tree stand. */
  lemma OperatorParts(toks: seq<Token>, pos: nat, e: Tree)
    requires e.Binary? && At(toks, pos, Print(e, e.level))
    ensures var l, r := Print(e.left, e.level), Print(e.right, e.level + 1);
            && At(toks, pos, l) && At(toks, pos + |l| + 1, r)
            && |Print(e, e.level)| == |l| + 1 + |r| && pos + |Print(e, e.level)| <= |toks| && toks[pos + |l|] == e.op
  {
    var l, r := Print(e.left, e.level), Print(e.right, e.level + 1);
    assert Print(e, e.level) == l + ([e.op] + r);
    hide Print;
    AtParts(toks, pos, l, [e.op] + r);
    AtParts(toks, pos + |l|, [e.op], r);
    AtOne(toks, pos + |l|, e.op);
  }

  lemma {:induction false} ParseOperator(re: Matcher, toks: seq<Token>, pos: nat, err: bool, e: Tree)
    requires WellFormed(e) && e.Binary? && At(toks, pos, Print(e, e.level))
    requires Quiet(toks, pos + |Print(e, e.level)|, e.level + 1)
    ensures ReadBack(re, toks, e.level, pos, err, e)
    decreases e, 0, PRIMARY - e.level, 0
  {
    hide Level, Loop, Combine, IsOp, Print, At;
    OperatorParts(toks, pos, e);
    var level, at := e.level, pos + |Print(e.left, e.level)|;
    var end := pos + |Print(e, e.level)|;
    NoTighterOp(level, e.op);
    ParsePrinted(re, toks, level, pos, err, e.left);
    if Eval(re, e.left).Some? {
      ParsePrinted(re, toks, level + 1, at + 1, err, e.right);
      LoopGoesOn(re, toks, level, Eval(re, e.left).value, at, err);
      if Eval(re, e.right).Some? {
        LoopEnds(re, toks, level + 1, Eval(re, e.right).value, end, err);
      }
    }
  }

  /** Printing a tree with only the parentheses it needs and running expr on the
      tokens prints the tree's value, or fails exactly when the tree's evaluation does.
      Where a result leaves 64 bits the model wraps; C leaves sums and products undefined
      there, and the quotient of the least number by -1 traps. */
  lemma CommandUndoesPrint(re: Matcher, e: Tree)
    requires WellFormed(e)
    ensures Command(re, Print(e, OR)) ==
            match Eval(re, e)
            case Some(v) => Printed(v, if IsFalsey(v) then 1 else 0)
            case None => Failed
  {
    var toks := Print(e, OR);
    assert toks[0..|toks|] == toks;
    ParsePrinted(re, toks, OR, 0, false, e);
    PrintNotEmpty(e, OR);
  }

  lemma PrintNotEmpty(e: Tree, min: nat)
    ensures Print(e, min) != []
  {
  }

  // ---------- arithmetic ----------

  /** The 64-bit integer an arithmetic tree stands for; None when some part is not
      an integer or divides by zero. */
  function IntValue(e: Tree): Option<int> {
    match e
    case Word(tok) => IntegerOf(tok)
    case Binary(level, op, l, r) =>
      (match (IntValue(l), IntValue(r))
       case (Some(a), Some(b)) =>
         if level == ADD then Some(Wrap(if op == "+" then a + b else a - b))
         else if level == MUL && op == "*" then Some(Wrap(a * b))
         else if level == MUL && b != 0 then Some(Wrap(if op == "/" then TruncDiv(a, b) else TruncMod(a, b)))
         else None
       case _ => None)
    case _ => None
  }

  /** Intermediate results pass between levels as text without losing their value. */
  lemma {:induction false} ArithmeticThroughText(re: Matcher, e: Tree)
    ensures IntValue(e).Some? ==> Eval(re, e).Some? && IntegerOf(Eval(re, e).value) == IntValue(e)
    ensures IntValue(e).Some? ==> InRange(IntValue(e).value)
  {
    hide IntegerOf, FormatInt, Wrap, TruncDiv, TruncMod, InRange;
    if e.Word? {
      IntegersInRange(e.tok);
    } else if e.Binary? && IntValue(e).Some? {
      ArithmeticThroughText(re, e.left);
      ArithmeticThroughText(re, e.right);
      FormatRoundTrip(IntValue(e).value);
    }
  }

  lemma IntegersInRange(s: string)
    ensures IntegerOf(s).Some? ==> InRange(IntegerOf(s).value)
  {
  }

  function Magnitude(v: int): (m: int)
    ensures m >= 0
  {
    if v < 0 then -v else v
  }

  /** The quotient is cut off toward zero: the remainder is smaller than the divisor and
      has the sign of the dividend. */
  lemma DivisionTruncates(a: int, b: int)
    requires b != 0
    ensures a == b * TruncDiv(a, b) + TruncMod(a, b)
    ensures -Magnitude(b) < TruncMod(a, b) < Magnitude(b)
    ensures TruncMod(a, b) == 0 || (TruncMod(a, b) < 0 <==> a < 0)
  {
    var y, q := Magnitude(b), Magnitude(a) / Magnitude(b);
    QuotientOf(Magnitude(a), y);
    SignedProduct(y, q);
    SignedProduct(b, q);
    assert b * TruncDiv(a, b) == if a < 0 then -(y * q) else y * q;
  }

  lemma QuotientOf(x: int, y: int)
    requires x >= 0 && y > 0
    ensures 0 <= x - y * (x / y) < y
  {
  }

  lemma SignedProduct(b: int, q: int)
    ensures b * -q == -(b * q) && -b * q == -(b * q)
  {
  }

  /** A result that leaves 64 bits differs by a multiple of the range. */
  lemma WrapIsCongruent(v: int)
    ensures exists k: int :: Wrap(v) == v + k * 0x1_0000_0000_0000_0000
  {
    var n := 0x1_0000_0000_0000_0000;
    var k := (v - INT64_MIN) / n;
    assert v - INT64_MIN == n * k + (v - INT64_MIN) % n;
    assert Wrap(v) == v + -k * n;
  }

  // ---------- index, substr and match ----------

  /** The answer of index: the first of the characters, counted from 1, and 0 for none. */
  lemma {:induction false} FirstOfIs(s: string, chars: string, i: nat)
    requires i <= |s|
    ensures var r := FirstOf(s, chars, i);
            if r == 0 then forall k :: i <= k < |s| ==> s[k] !in chars
            else i < r <= |s| && s[r - 1] in chars && forall k :: i <= k < r - 1 ==> s[k] !in chars
    decreases |s| - i
  {
    if i < |s| && s[i] !in chars {
      FirstOfIs(s, chars, i + 1);
    }
  }

  /** substr takes the characters at the positions from `start` on, as many as are asked
      for and there are; with a start below 1 or a negative length it takes none. */
  lemma SubstrIs(s: string, start: int, length: int)
    ensures start < 1 || length < 0 || start > |s| ==> Substr(s, start, length) == ""
    ensures 1 <= start <= |s| && length >= 0 ==>
              var r := Substr(s, start, length);
              && |r| == (if length <= |s| - start + 1 then length else |s| - start + 1)
              && forall k :: 0 <= k < |r| ==> r[k] == s[start - 1 + k]
  {
  }

  /** A match gives the text of its first group, or the number of characters matched;
      no match gives no text, or 0, and a pattern that does not compile is an error. */
  lemma MatchGives(re: Matcher, l: Tree, r: Tree, x: string, y: string)
    requires Eval(re, l) == Some(x) && Eval(re, r) == Some(y)
    ensures var v := Eval(re, Binary(COLON, ":", l, r));
            && v == Eval(re, MatchOf(x, y))
            && (re(x, y) == BadPattern <==> v == None)
            && (re(x, y).MatchedGroup? ==> v == Some(re(x, y).text))
            && (re(x, y).MatchedLength? ==> v == Some(FormatInt(re(x, y).n)))
            && (re(x, y) == NoMatch(true) ==> v == Some(""))
            && (re(x, y) == NoMatch(false) ==> v == Some("0"))
  {
    hide IntegerOf, FormatInt;
  }

  // ---------- comparison, conjunction and disjunction ----------

  function Truth(b: bool): Option<string> {
    Some(if b then "1" else "0")
  }

  lemma EvalComparison(re: Matcher, op: Token, l: Tree, r: Tree)
    requires Eval(re, l).Some? && Eval(re, r).Some?
    ensures Eval(re, Binary(COMPARE, op, l, r)) == Truth(Compare(op, Eval(re, l).value, Eval(re, r).value))
  {
    hide Compare;
  }

  lemma TextSign(x: string, y: string)
    requires IntegerOf(x).None? || IntegerOf(y).None?
    ensures Compare("=", x, y) == Compare("==", x, y) == (StrCmp(x, y) == 0)
    ensures Compare("!=", x, y) == (StrCmp(x, y) != 0)
    ensures Compare("<", x, y) == (StrCmp(x, y) < 0) && Compare("<=", x, y) == (StrCmp(x, y) <= 0)
    ensures Compare(">", x, y) == (StrCmp(x, y) > 0) && Compare(">=", x, y) == (StrCmp(x, y) >= 0)
  {
    hide IntegerOf, StrCmp;
  }

  lemma NumberSign(x: string, y: string, a: int, b: int)
    requires IntegerOf(x) == Some(a) && IntegerOf(y) == Some(b)
    ensures Compare("=", x, y) == Compare("==", x, y) == (a == b)
    ensures Compare("!=", x, y) == (a != b)
    ensures Compare("<", x, y) == (a < b) && Compare("<=", x, y) == (a <= b)
    ensures Compare(">", x, y) == (a > b) && Compare(">=", x, y) == (a >= b)
  {
    hide IntegerOf, StrCmp;
  }

  /** Two integers are compared as numbers. */
  lemma IntegersCompare(re: Matcher, l: Tree, r: Tree, a: int, b: int)
    requires Eval(re, l).Some? && IntegerOf(Eval(re, l).value) == Some(a)
    requires Eval(re, r).Some? && IntegerOf(Eval(re, r).value) == Some(b)
    ensures Eval(re, Binary(COMPARE, "=", l, r)) == Truth(a == b)
    ensures Eval(re, Binary(COMPARE, "==", l, r)) == Truth(a == b)
    ensures Eval(re, Binary(COMPARE, "!=", l, r)) == Truth(a != b)
    ensures Eval(re, Binary(COMPARE, "<", l, r)) == Truth(a < b)
    ensures Eval(re, Binary(COMPARE, "<=", l, r)) == Truth(a <= b)
    ensures Eval(re, Binary(COMPARE, ">", l, r)) == Truth(a > b)
    ensures Eval(re, Binary(COMPARE, ">=", l, r)) == Truth(a >= b)
  {
    hide *;
    EvalComparison(re, "=", l, r);
    EvalComparison(re, "==", l, r);
    EvalComparison(re, "!=", l, r);
    EvalComparison(re, "<", l, r);
    EvalComparison(re, "<=", l, r);
    EvalComparison(re, ">", l, r);
    EvalComparison(re, ">=", l, r);
    NumberSign(Eval(re, l).value, Eval(re, r).value, a, b);
  }

  /** Anything else is compared as text, by the first character that differs. */
  lemma TextsCompare(re: Matcher, l: Tree, r: Tree, x: string, y: string)
    requires Eval(re, l) == Some(x) && Eval(re, r) == Some(y)
    requires IntegerOf(x).None? || IntegerOf(y).None?
    ensures Eval(re, Binary(COMPARE, "=", l, r)) == Truth(x == y)
    ensures Eval(re, Binary(COMPARE, "==", l, r)) == Truth(x == y)
    ensures Eval(re, Binary(COMPARE, "!=", l, r)) == Truth(x != y)
    ensures Eval(re, Binary(COMPARE, "<", l, r)) == Truth(Before(x, y))
    ensures Eval(re, Binary(COMPARE, "<=", l, r)) == Truth(Before(x, y) || x == y)
    ensures Eval(re, Binary(COMPARE, ">", l, r)) == Truth(Before(y, x))
    ensures Eval(re, Binary(COMPARE, ">=", l, r)) == Truth(Before(y, x) || x == y)
  {
    StrCmpZero(x, y);
    StrCmpOrders(x, y);
    StrCmpOrders(y, x);
    StrCmpAntisymmetric(y, x);
    hide IntegerOf, StrCmp, Before, Eval, Compare;
    EvalComparison(re, "=", l, r);
    EvalComparison(re, "==", l, r);
    EvalComparison(re, "!=", l, r);
    EvalComparison(re, "<", l, r);
    EvalComparison(re, "<=", l, r);
    EvalComparison(re, ">", l, r);
    EvalComparison(re, ">=", l, r);
    TextSign(x, y);
  }

  /** A comparison of two numbers on the command line. */
  lemma CommandCompares(re: Matcher, a: int, b: int)
    requires InRange(a) && InRange(b)
    ensures Command(re, [FormatInt(a), "<", FormatInt(b)]) == if a < b then Printed("1", 0) else Printed("0", 1)
    ensures Command(re, [FormatInt(a), "<=", FormatInt(b)]) == if a <= b then Printed("1", 0) else Printed("0", 1)
    ensures Command(re, [FormatInt(a), "=", FormatInt(b)]) == if a == b then Printed("1", 0) else Printed("0", 1)
  {
    var l, r := Word(FormatInt(a)), Word(FormatInt(b));
    FormatRoundTrip(a);
    FormatRoundTrip(b);
    NumbersAreWords(a);
    NumbersAreWords(b);
    IntegersCompare(re, l, r, a, b);
    PrintComparison(l.tok, "<", r.tok);
    PrintComparison(l.tok, "<=", r.tok);
    PrintComparison(l.tok, "=", r.tok);
    TruthAsStatus();
    hide Eval, Command, IntegerOf, FormatInt, IsFalsey, Print, Reserved;
    CommandUndoesPrint(re, Binary(COMPARE, "<", l, r));
    CommandUndoesPrint(re, Binary(COMPARE, "<=", l, r));
    CommandUndoesPrint(re, Binary(COMPARE, "=", l, r));
  }

  lemma NumbersAreWords(v: int)
    ensures !Reserved(FormatInt(v))
  {
    var s := FormatInt(v);
    assert s[0] == '-' || IsDigit(s[0]);
  }

  lemma PrintComparison(x: Token, op: Token, y: Token)
    ensures Print(Binary(COMPARE, op, Word(x), Word(y)), OR) == [x, op, y]
  {
  }

  lemma TruthAsStatus()
    ensures IsFalsey("0") && !IsFalsey("1")
  {
    FormatRoundTrip(0);
    FormatRoundTrip(1);
    assert FormatInt(0) == "0" && FormatInt(1) == "1";
  }

  // ---------- true and false ----------

  /** Blanks, at most one sign, and then nothing but zeros. */
  ghost predicate ZeroFrom(s: string, blanks: nat, digits: nat) {
    && blanks <= digits < |s| && digits <= blanks + 1
    && (forall k :: 0 <= k < blanks ==> IsSpace(s[k]))
    && (digits == blanks + 1 ==> s[blanks] in {'+', '-'})
    && (forall k :: digits <= k < |s| ==> s[k] == '0')
  }

  ghost predicate FalseText(s: string) {
    s == [] || exists blanks: nat, digits: nat :: ZeroFrom(s, blanks, digits)
  }

  lemma {:induction false} ZeroDigits(s: string)
    requires AllDigits(s)
    ensures DigitsValue(s) == 0 <==> forall k :: 0 <= k < |s| ==> s[k] == '0'
  {
    if s != [] {
      ZeroDigits(s[..|s| - 1]);
      assert forall k :: 0 <= k < |s| - 1 ==> s[..|s| - 1][k] == s[k];
    }
  }

  lemma {:induction false} SkippedSpaces(s: string) returns (n: nat)
    ensures n <= |s| && SkipSpaces(s) == s[n..] && (forall k :: 0 <= k < n ==> IsSpace(s[k]))
    ensures n < |s| ==> !IsSpace(s[n])
  {
    if s == [] || !IsSpace(s[0]) {
      n := 0;
    } else {
      var m := SkippedSpaces(s[1..]);
      n := m + 1;
      forall k | 0 <= k < n
        ensures IsSpace(s[k])
      {
        assert k > 0 ==> IsSpace(s[1..][k - 1]);
      }
    }
  }

  /** Where strtoll begins to read digits. */
  function DigitsStart(s: string, blanks: nat): nat {
    if blanks < |s| && s[blanks] in {'+', '-'} then blanks + 1 else blanks
  }

  predicate AllZeros(s: string) {
    forall k :: 0 <= k < |s| ==> s[k] == '0'
  }

  lemma ZerosAreDigits(s: string)
    ensures AllZeros(s) ==> AllDigits(s)
    ensures AllDigits(s) ==> (DigitsValue(s) == 0 <==> AllZeros(s))
  {
    hide DigitsValue;
    if AllDigits(s) {
      ZeroDigits(s);
    }
  }

  lemma ZeroIsZeroDigits(s: string)
    ensures var digits := Unsigned(SkipSpaces(s)); IntegerOf(s) == Some(0) <==> digits != [] && AllZeros(digits)
  {
    ZerosAreDigits(Unsigned(SkipSpaces(s)));
    hide SkipSpaces, DigitsValue, AllDigits, AllZeros;
  }

  lemma UnsignedAt(s: string, n: nat)
    requires n <= |s|
    ensures DigitsStart(s, n) <= |s| && Unsigned(s[n..]) == s[DigitsStart(s, n)..]
  {
  }

  /** False are the empty text and every text that strtoll reads to its end as zero. */
  lemma FalseTexts(s: string)
    ensures IsFalsey(s) <==> FalseText(s)
  {
    var n := SkippedSpaces(s);
    ZeroIsZeroDigits(s);
    UnsignedAt(s, n);
    var d := DigitsStart(s, n);
    hide IntegerOf, SkipSpaces, Unsigned;
    if IntegerOf(s) == Some(0) {
      assert forall k :: d <= k < |s| ==> s[k] == s[d..][k - d];
      assert ZeroFrom(s, n, d);
    }
    if blanks: nat, e: nat :| ZeroFrom(s, blanks, e) {
      assert !IsSpace(s[blanks]);
      assert blanks == n && e == d;
    }
  }

  /** The value of `|` is its left operand unless that is false, and of `&` the left
      operand unless one of the two is; both operands are evaluated. */
  lemma EitherAndBoth(re: Matcher, l: Tree, r: Tree, x: string, y: string)
    requires Eval(re, l) == Some(x) && Eval(re, r) == Some(y)
    ensures Eval(re, Binary(OR, "|", l, r)) == Some(if FalseText(x) then y else x)
    ensures Eval(re, Binary(AND, "&", l, r)) == Some(if FalseText(x) || FalseText(y) then "0" else x)
  {
    FalseTexts(x);
    FalseTexts(y);
    hide IsFalsey, ZeroFrom;
  }

  /** And the exit status is 1 exactly for a false text. */
  lemma StatusOfValue(re: Matcher, e: Tree)
    requires WellFormed(e) && Eval(re, e).Some?
    ensures Command(re, Print(e, OR)) == Printed(Eval(re, e).value, if FalseText(Eval(re, e).value) then 1 else 0)
  {
    FalseTexts(Eval(re, e).value);
    hide *;
    CommandUndoesPrint(re, e);
  }

  // ---------- the code ----------

  class ExprParser {
    const re: Matcher
    const tokens: seq<Token>
    var pos: nat
    var err: bool

    constructor (re: Matcher, tokens: seq<Token>)
      ensures this.re == re && this.tokens == tokens && pos == 0 && !err
    {
      this.re, this.tokens := re, tokens;
      pos, err := 0, false;
    }

    ghost predicate Valid()
      reads this
    {
      pos <= |tokens|
    }

    /** The parse function of `level` returned what it computes from where it began. */
    twostate predicate Did(level: nat, value: string)
      requires level <= PRIMARY && old(pos) <= |tokens|
      reads this
    {
      Parsed(value, pos, err) == Level(re, tokens, level, old(pos), old(err))
    }

    predicate AtOp(level: nat)
      reads this
    {
      pos < |tokens| && IsOp(level, tokens[pos])
    }

    method Next() returns (t: Option<Token>)
      requires Valid()
      modifies this`pos
      ensures Valid()
      ensures t == if old(pos) < |tokens| then Some(tokens[old(pos)]) else None
      ensures pos == if old(pos) < |tokens| then old(pos) + 1 else old(pos)
    {
      if pos < |tokens| {
        t := Some(tokens[pos]);
        pos := pos + 1;
      } else {
        t := None;
      }
    }

    /** The position, from 1, of the first character of `s` that is in `chars`; 0 if none is. */
    static method FirstIndex(s: Token, chars: Token) returns (idx: nat)
      ensures idx == FirstOf(s, chars, 0)
    {
      var i := 0;
      while i < |s|
        invariant 0 <= i <= |s|
        invariant FirstOf(s, chars, 0) == FirstOf(s, chars, i)
      {
        if s[i] in chars {
          return i + 1;
        }
        i := i + 1;
      }
      return 0;
    }

    method ParsePrimary() returns (value: string)
      requires Valid()
      modifies this
      ensures Valid() && Did(PRIMARY, value)
      decreases |tokens| - pos, 0
    {
      LevelIsPrimary(re, tokens, pos, err);
      hide Level, IntegerOf, FormatInt, FirstOf, Substr, MatchResult;
      if pos == |tokens| {
        err := true;
        return "";
      }
      var tok := tokens[pos];
      if tok == "(" {
        var _ := Next();
        value := ParseOr();
        var close := Next();
        if close != Some(")") {
          err := true;
        }
      } else if tok == "length" && |tokens| - pos >= 2 {
        value := FormatInt(|tokens[pos + 1]|);
        pos := pos + 2;
      } else if tok == "index" && |tokens| - pos >= 3 {
        var s, chars := tokens[pos + 1], tokens[pos + 2];
        pos := pos + 3;
        var idx := FirstIndex(s, chars);
        value := FormatInt(idx);
      } else if tok == "substr" && |tokens| - pos >= 4 {
        var s, start, length := tokens[pos + 1], IntegerOf(tokens[pos + 2]), IntegerOf(tokens[pos + 3]);
        pos := pos + 4;
        if start.None? || length.None? {
          err := true;
          return "";
        }
        value := Substr(s, start.value, length.value);
      } else if tok == "match" && |tokens| - pos >= 3 {
        var (text, failed) := MatchResult(re(tokens[pos + 1], tokens[pos + 2]));
        pos := pos + 3;
        value, err := text, err || failed;
      } else {
        pos := pos + 1;
        value := tok;
      }
    }

    method ParseColon() returns (left: string)
      requires Valid()
      modifies this
      ensures Valid() && Did(COLON, left)
      decreases |tokens| - pos, 1
    {
      hide Primary;
      left := ParsePrimary();
      while AtOp(COLON)
        invariant Valid() && Level(re, tokens, COLON, old(pos), old(err)) == Loop(re, tokens, COLON, left, pos, err)
        invariant pos < |tokens| ==> old(pos) < pos
        decreases |tokens| - pos
      {
        var _ := Next();
        var right := ParsePrimary();
        var (value, failed) := MatchResult(re(left, right));
        left, err := value, err || failed;
      }
    }

    method ParseMul() returns (left: string)
      requires Valid()
      modifies this
      ensures Valid() && Did(MUL, left)
      decreases |tokens| - pos, 2
    {
      hide Primary, IntegerOf, FormatInt;
      left := ParseColon();
      while AtOp(MUL)
        invariant Valid() && Level(re, tokens, MUL, old(pos), old(err)) == Loop(re, tokens, MUL, left, pos, err)
        invariant pos < |tokens| ==> old(pos) < pos
        decreases |tokens| - pos
      {
        var op := tokens[pos];
        var _ := Next();
        var right := ParseColon();
        var a, b := IntegerOf(left), IntegerOf(right);
        if a.None? || b.None? {
          err := true;
          left := "0";
          continue;
        }
        if op == "*" {
          left := FormatInt(Wrap(a.value * b.value));
        } else if b.value == 0 {
          err := true;
          return "0";
        } else {
          left := FormatInt(Wrap(if op == "/" then TruncDiv(a.value, b.value) else TruncMod(a.value, b.value)));
        }
      }
    }

    method ParseAdd() returns (left: string)
      requires Valid()
      modifies this
      ensures Valid() && Did(ADD, left)
      decreases |tokens| - pos, 3
    {
      hide Primary, IntegerOf, FormatInt;
      left := ParseMul();
      while AtOp(ADD)
        invariant Valid() && Level(re, tokens, ADD, old(pos), old(err)) == Loop(re, tokens, ADD, left, pos, err)
        invariant pos < |tokens| ==> old(pos) < pos
        decreases |tokens| - pos
      {
        var op := tokens[pos];
        var _ := Next();
        var right := ParseMul();
        var a, b := IntegerOf(left), IntegerOf(right);
        if a.None? || b.None? {
          err := true;
          return "0";
        }
        left := FormatInt(Wrap(if op == "+" then a.value + b.value else a.value - b.value));
      }
    }

    method ParseCompare() returns (left: string)
      requires Valid()
      modifies this
      ensures Valid() && Did(COMPARE, left)
      decreases |tokens| - pos, 4
    {
      hide Primary, Compare;
      left := ParseAdd();
      while AtOp(COMPARE)
        invariant Valid() && Level(re, tokens, COMPARE, old(pos), old(err)) == Loop(re, tokens, COMPARE, left, pos, err)
        invariant pos < |tokens| ==> old(pos) < pos
        decreases |tokens| - pos
      {
        var op := tokens[pos];
        var _ := Next();
        var right := ParseAdd();
        left := if Compare(op, left, right) then "1" else "0";
      }
    }

    method ParseAnd() returns (left: string)
      requires Valid()
      modifies this
      ensures Valid() && Did(AND, left)
      decreases |tokens| - pos, 5
    {
      hide Primary, IsFalsey;
      left := ParseCompare();
      while AtOp(AND)
        invariant Valid() && Level(re, tokens, AND, old(pos), old(err)) == Loop(re, tokens, AND, left, pos, err)
        invariant pos < |tokens| ==> old(pos) < pos
        decreases |tokens| - pos
      {
        var _ := Next();
        var right := ParseCompare();
        if IsFalsey(left) || IsFalsey(right) {
          left := "0";
        }
      }
    }

    method ParseOr() returns (left: string)
      requires Valid()
      modifies this
      ensures Valid() && Did(OR, left)
      decreases |tokens| - pos, 6
    {
      hide Primary, IsFalsey;
      left := ParseAnd();
      while AtOp(OR)
        invariant Valid() && Level(re, tokens, OR, old(pos), old(err)) == Loop(re, tokens, OR, left, pos, err)
        invariant pos < |tokens| ==> old(pos) < pos
        decreases |tokens| - pos
      {
        var _ := Next();
        var right := ParseAnd();
        if IsFalsey(left) {
          left := right;
        }
      }
    }
  }

  /** The command line: what is printed, and the exit code. */
  method RunExpr(re: Matcher, args: seq<Token>) returns (status: ExitStatus)
    ensures status == Command(re, args)
    ensures forall e :: WellFormed(e) && args == Print(e, OR) && Eval(re, e).Some? ==>
              status == Printed(Eval(re, e).value, if IsFalsey(Eval(re, e).value) then 1 else 0)
    ensures forall e :: WellFormed(e) && args == Print(e, OR) && Eval(re, e).None? ==> status == Failed
  {
    forall e | WellFormed(e) && args == Print(e, OR)
      ensures Command(re, args) ==
              match Eval(re, e)
              case Some(v) => Printed(v, if IsFalsey(v) then 1 else 0)
              case None => Failed
    {
      CommandUndoesPrint(re, e);
    }
    if args == [] {
      return Failed;
    }
    var p := new ExprParser(re, args);
    var result := p.ParseOr();
    if p.pos < |args| || p.err {
      return Failed;
    }
    status := Printed(result, if IsFalsey(result) then 1 else 0);
  }
}
