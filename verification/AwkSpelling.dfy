/** Writing tokens and reading them back (src/awk_lexer.c). The spellings are those
    of the language, not of the lexer's tables; what a slash means depends on the
    token before it, and a call's name touches its parenthesis. */
module AwkSpelling {

  import opened AwkAst
  import opened AwkGrammar
  import opened AwkLexer
  import opened AwkParser
  import opened AwkTokens
  import opened Strings

  // ---------- spellings ----------

  function SpellMark(t: TokType): string {
    match t
    case LBrace => "{" case RBrace => "}" case LParen => "(" case RParen => ")"
    case LBracket => "[" case RBracket => "]" case Semi => ";" case Comma => "," case Dollar => "$"
    case AssignTok => "=" case AddAssign => "+=" case SubAssign => "-=" case MulAssign => "*="
    case DivAssign => "/=" case ModAssign => "%=" case PowAssign => "^="
    case OrOr => "||" case AndAnd => "&&" case NotTok => "!"
    case Less => "<" case LessEq => "<=" case Greater => ">" case GreaterEq => ">="
    case Equal => "==" case NotEqual => "!=" case MatchTok => "~" case NoMatch => "!~"
    case Plus => "+" case Minus => "-" case Star => "*" case Slash => "/" case Percent => "%" case Caret => "^"
    case Incr => "++" case Decr => "--" case Question => "?" case Colon => ":"
    case Append => ">>" case Pipe => "|"
    case _ => ""
  }

  function SpellKeyword(t: TokType): string {
    match t
    case KwBegin => "BEGIN" case KwEnd => "END" case KwFunction => "function"
    case KwIf => "if" case KwElse => "else" case KwWhile => "while" case KwFor => "for" case KwDo => "do"
    case KwBreak => "break" case KwContinue => "continue" case KwNext => "next" case KwNextFile => "nextfile"
    case KwExit => "exit" case KwReturn => "return" case KwDelete => "delete" case KwIn => "in"
    case KwGetline => "getline" case KwPrint => "print" case KwPrintf => "printf"
    case _ => ""
  }

  predicate IsMark(t: TokType) {
    SpellMark(t) != ""
  }

  predicate IsKeyword(t: TokType) {
    SpellKeyword(t) != ""
  }

  // ---------- words ----------

  predicate WordShaped(s: string) {
    s != "" && StartsWord(s[0]) && forall k :: 0 <= k < |s| ==> InWord(s[k])
  }

  predicate Ends(src: string, p: nat) {
    p >= |src| || src[p] == ' '
  }

  /** `s` stands in the text at p. */
  predicate Stands(src: string, p: nat, s: string) {
    p + |s| <= |src| && src[p..p + |s|] == s
  }

  lemma StandsAt(src: string, p: nat, s: string)
    requires Stands(src, p, s)
    ensures forall k :: 0 <= k < |s| ==> src[p + k] == s[k]
  {
    var w := src[p..p + |s|];
    forall k | 0 <= k < |s|
      ensures src[p + k] == s[k]
    {
      assert w[k] == src[p + k];
    }
  }

  lemma {:induction false} RunOver(src: string, p: nat, q: nat, ok: char -> bool)
    requires p <= q <= |src| && forall k :: p <= k < q ==> ok(src[k])
    requires q < |src| ==> !ok(src[q])
    ensures RunEnd(src, p, ok) == q
    decreases q - p
  {
    if p < q {
      RunOver(src, p + 1, q, ok);
    }
  }

  lemma LexAtWord(src: string, st: State)
    requires st.pos < |src| && StartsWord(src[st.pos])
    ensures Lex(src, st) == LexWord(src, st)
  {
    NoGap(src, st.pos);
    hide SkipGap, LexWord, LexNumber, LexString, LexEre, LexOperator;
  }

  lemma WordRun(src: string, p: nat, name: string)
    requires WordShaped(name) && Stands(src, p, name)
    requires p + |name| < |src| ==> !InWord(src[p + |name|])
    ensures StartsWord(src[p]) && RunEnd(src, p, InWord) == p + |name|
  {
    StandsAt(src, p, name);
    RunOver(src, p, p + |name|, InWord);
  }

  lemma LexWordIs(src: string, st: State, q: nat, name: string, call: bool)
    requires st.pos < q <= |src| && StartsWord(src[st.pos]) && RunEnd(src, st.pos, InWord) == q
    requires name == src[st.pos..q] && call == (At(src, q) == '(')
    ensures var t := WordType(name, call); LexWord(src, st) == (Token(t, WordText(t, name), "", st.line), After(st, t, q))
  {
    hide WordType, WordText, After, RunEnd, StartsWord, At, InWord;
  }

  lemma WordIsRead(src: string, st: State, name: string, call: bool)
    requires WordShaped(name) && Stands(src, st.pos, name)
    requires if call then At(src, st.pos + |name|) == '(' else Ends(src, st.pos + |name|)
    ensures var t := WordType(name, call);
            Lex(src, st) == (Token(t, WordText(t, name), "", st.line), After(st, t, st.pos + |name|))
  {
    hide *;
    WordStops(src, st.pos, name, call);
    WordRun(src, st.pos, name);
    LexAtWord(src, st);
    LexWordIs(src, st, st.pos + |name|, name, call);
  }

  lemma WordStops(src: string, p: nat, name: string, call: bool)
    requires WordShaped(name) && Stands(src, p, name)
    requires if call then At(src, p + |name|) == '(' else Ends(src, p + |name|)
    ensures p < p + |name| <= |src| && src[p..p + |name|] == name && call == (At(src, p + |name|) == '(')
    ensures p + |name| < |src| ==> !InWord(src[p + |name|])
  {
  }

  lemma KeywordIsRead(src: string, st: State, t: TokType)
    requires IsKeyword(t) && Stands(src, st.pos, SpellKeyword(t)) && Ends(src, st.pos + |SpellKeyword(t)|)
    ensures Lex(src, st) == (Token(t, NoText, "", st.line), After(st, t, st.pos + |SpellKeyword(t)|))
  {
    hide *;
    KeywordIsWord(t);
    WordIsRead(src, st, SpellKeyword(t), false);
  }

  predicate IsEarly(t: TokType) {
    t in {KwBegin, KwEnd, KwFunction, KwIf, KwElse, KwWhile, KwFor, KwDo, KwBreak}
  }

  lemma EarlyKeyword(t: TokType)
    requires IsEarly(t)
    ensures LookupKeyword(SpellKeyword(t)) == t
  {
  }

  predicate IsLate(t: TokType) {
    t in {KwDelete, KwIn, KwGetline, KwPrint, KwPrintf}
  }

  lemma LateKeyword(t: TokType)
    requires IsLate(t)
    ensures LookupKeyword(SpellKeyword(t)) == t
  {
  }

  lemma MiddleKeyword(t: TokType)
    requires IsKeyword(t) && !IsEarly(t) && !IsLate(t)
    ensures LookupKeyword(SpellKeyword(t)) == t
  {
  }

  lemma KeywordShape(t: TokType)
    requires IsKeyword(t)
    ensures WordShaped(SpellKeyword(t))
  {
  }

  lemma KeywordIsNoName(t: TokType)
    requires IsKeyword(t)
    ensures t !in {Name, FuncName, BuiltinFunc}
  {
  }

  lemma KeywordIsWord(t: TokType)
    requires IsKeyword(t)
    ensures WordShaped(SpellKeyword(t)) && WordType(SpellKeyword(t), false) == t && WordText(t, SpellKeyword(t)) == NoText
  {
    hide IsEarly, IsLate, IsKeyword, SpellKeyword, LookupKeyword, WordShaped;
    KeywordShape(t);
    KeywordIsNoName(t);
    if IsEarly(t) {
      EarlyKeyword(t);
    } else if IsLate(t) {
      LateKeyword(t);
    } else {
      MiddleKeyword(t);
    }
  }

  // ---------- marks ----------

  /** The lexer's operator at a mark that is followed by a blank or nothing. */
  predicate ReadsAsMark(t: TokType) {
    var s := SpellMark(t);
    && 1 <= |s| <= 2 && Operator(s[0], if |s| == 2 then s[1] else ' ') == OpToken(t, |s|)
    && Operator(s[0], if |s| == 2 then s[1] else '\0') == OpToken(t, |s|)
  }

  predicate StartsNothingElse(t: TokType) {
    var s := SpellMark(t);
    && s != "" && s[0] !in {' ', '\t', '\r', '\n', '#', '\\', '"', '.'} && !InWord(s[0])
    && (s[0] == '/' <==> t in {Slash, DivAssign})
  }

  lemma LongMark(t: TokType)
    requires |SpellMark(t)| == 2
    ensures ReadsAsMark(t)
  {
  }

  predicate IsPunctuation(t: TokType) {
    t in {LBrace, RBrace, LParen, RParen, LBracket, RBracket, Semi, Comma, Dollar, Question, Colon, MatchTok}
  }

  lemma Punctuation(t: TokType)
    requires IsPunctuation(t)
    ensures ReadsAsMark(t)
  {
  }

  lemma ShortMark(t: TokType)
    requires |SpellMark(t)| == 1 && !IsPunctuation(t)
    ensures ReadsAsMark(t)
  {
  }

  lemma MarkLength(t: TokType)
    requires IsMark(t)
    ensures 1 <= |SpellMark(t)| <= 2
  {
  }

  lemma MarkCharacters(t: TokType)
    requires IsMark(t)
    ensures StartsNothingElse(t)
  {
  }

  lemma MarkIsOperator(t: TokType)
    requires IsMark(t)
    ensures ReadsAsMark(t) && StartsNothingElse(t)
  {
    hide *;
    MarkLength(t);
    MarkCharacters(t);
    if |SpellMark(t)| == 2 {
      LongMark(t);
    } else if IsPunctuation(t) {
      Punctuation(t);
    } else {
      ShortMark(t);
    }
  }

  lemma MarkIsRead(src: string, st: State, t: TokType)
    requires IsMark(t) && Stands(src, st.pos, SpellMark(t)) && Ends(src, st.pos + |SpellMark(t)|)
    requires t in {Slash, DivAssign} ==> st.division
    ensures Lex(src, st) == (Token(t, NoText, "", st.line), After(st, t, st.pos + |SpellMark(t)|))
  {
    hide SpellMark, Operator, After, SkipGap, Lex;
    MarkIsOperator(t);
    StandsAt(src, st.pos, SpellMark(t));
    LexAtMark(src, st);
  }

  lemma LexAtMark(src: string, st: State)
    requires st.pos < |src| && !InWord(src[st.pos]) && src[st.pos] !in {' ', '\t', '\r', '\n', '#', '\\', '"', '.'}
    requires src[st.pos] == '/' ==> st.division
    ensures Lex(src, st) == LexOperator(src, st)
  {
    NoGap(src, st.pos);
    hide SkipGap, LexWord, LexNumber, LexString, LexEre, LexOperator;
  }

  // ---------- numbers ----------

  predicate NumberShaped(s: string) {
    s != "" && StartsNumber(s, 0) && NumberEnd(s, 0) == |s|
  }

  lemma {:induction false} RunShifts(src: string, p: nat, s: string, k: nat, ok: char -> bool)
    requires Stands(src, p, s) && Ends(src, p + |s|) && k <= |s| && !ok(' ')
    ensures RunEnd(src, p + k, ok) == p + RunEnd(s, k, ok)
    decreases |s| - k
  {
    StandsAt(src, p, s);
    if k < |s| {
      RunShifts(src, p, s, k + 1, ok);
    }
  }

  /** What stands at p reads like the number itself, up to the blank behind it. */
  lemma SameCharacters(src: string, p: nat, s: string, k: nat)
    requires Stands(src, p, s) && Ends(src, p + |s|) && k <= |s|
    ensures k < |s| ==> At(src, p + k) == At(s, k)
    ensures k == |s| ==> At(src, p + k) in {' ', '\0'} && At(s, k) == '\0'
  {
    StandsAt(src, p, s);
  }

  lemma ExponentShifts(src: string, p: nat, s: string, k: nat)
    requires Stands(src, p, s) && Ends(src, p + |s|) && k <= |s|
    ensures ExponentEnd(src, p + k) == p + ExponentEnd(s, k)
  {
    SameCharacters(src, p, s, k);
    if k < |s| {
      SameCharacters(src, p, s, k + 1);
      RunShifts(src, p, s, k + 1, IsDigit);
      if k + 1 < |s| {
        SameCharacters(src, p, s, k + 2);
        RunShifts(src, p, s, k + 2, IsDigit);
      }
    }
    hide RunEnd;
  }

  lemma HexShifts(src: string, p: nat, s: string)
    requires |s| > 1 && s[0] == '0' && s[1] in {'x', 'X'} && Stands(src, p, s) && Ends(src, p + |s|)
    ensures NumberEnd(src, p) == p + NumberEnd(s, 0)
  {
    SameCharacters(src, p, s, 0);
    SameCharacters(src, p, s, 1);
    RunShifts(src, p, s, 2, IsHex);
    hide RunEnd, Stands;
  }

  lemma DecimalEnd(src: string, p: nat, q: nat)
    requires p < |src| && StartsNumber(src, p) && !(src[p] == '0' && At(src, p + 1) in {'x', 'X'}) && q == RunEnd(src, p, IsDigit)
    ensures NumberEnd(src, p) == ExponentEnd(src, if At(src, q) == '.' then RunEnd(src, q + 1, IsDigit) else q)
  {
    hide RunEnd, ExponentEnd, StartsNumber;
  }

  lemma DecimalShifts(src: string, p: nat, s: string)
    requires s != "" && StartsNumber(s, 0) && !(s[0] == '0' && At(s, 1) in {'x', 'X'})
    requires Stands(src, p, s) && Ends(src, p + |s|) && p < |src| && StartsNumber(src, p)
    ensures NumberEnd(src, p) == p + NumberEnd(s, 0)
  {
    hide *;
    var q := RunEnd(s, 0, IsDigit);
    StillNotHex(src, p, s);
    FractionShifts(src, p, s, q);
    DecimalEnd(src, p, p + q);
    DecimalEnd(s, 0, q);
  }

  lemma StillNotHex(src: string, p: nat, s: string)
    requires s != "" && !(s[0] == '0' && At(s, 1) in {'x', 'X'}) && Stands(src, p, s) && Ends(src, p + |s|) && p < |src|
    ensures !(src[p] == '0' && At(src, p + 1) in {'x', 'X'})
  {
    SameCharacters(src, p, s, 0);
    SameCharacters(src, p, s, 1);
  }

  lemma BlankIsNoDigit()
    ensures !IsDigit(' ')
  {
  }

  lemma FractionShifts(src: string, p: nat, s: string, q: nat)
    requires Stands(src, p, s) && Ends(src, p + |s|) && q == RunEnd(s, 0, IsDigit) && q <= |s|
    ensures RunEnd(src, p, IsDigit) == p + q && (At(src, p + q) == '.' <==> At(s, q) == '.')
    ensures ExponentEnd(src, if At(src, p + q) == '.' then RunEnd(src, p + q + 1, IsDigit) else p + q)
         == p + ExponentEnd(s, if At(s, q) == '.' then RunEnd(s, q + 1, IsDigit) else q)
  {
    BlankIsNoDigit();
    hide *;
    RunShifts(src, p, s, 0, IsDigit);
    SameCharacters(src, p, s, q);
    if At(s, q) == '.' {
      RunShifts(src, p, s, q + 1, IsDigit);
      ExponentShifts(src, p, s, RunEnd(s, q + 1, IsDigit));
    } else {
      ExponentShifts(src, p, s, q);
    }
  }

  lemma StartShifts(src: string, p: nat, s: string)
    requires s != "" && StartsNumber(s, 0) && Stands(src, p, s) && Ends(src, p + |s|)
    ensures p < |src| && StartsNumber(src, p)
  {
    SameCharacters(src, p, s, 0);
    SameCharacters(src, p, s, 1);
  }

  lemma NumberShifts(src: string, p: nat, s: string)
    requires NumberShaped(s) && Stands(src, p, s) && Ends(src, p + |s|)
    ensures p < |src| && StartsNumber(src, p) && NumberEnd(src, p) == p + |s|
  {
    StartShifts(src, p, s);
    hide NumberEnd, Stands, Ends, StartsNumber;
    if |s| > 1 && s[0] == '0' && s[1] in {'x', 'X'} {
      HexShifts(src, p, s);
    } else {
      DecimalShifts(src, p, s);
    }
  }

  lemma NumberIsRead(src: string, st: State, num: string)
    requires NumberShaped(num) && Stands(src, st.pos, num) && Ends(src, st.pos + |num|)
    ensures Lex(src, st) == (Token(Number, NoText, num, st.line), After(st, Number, st.pos + |num|))
  {
    NumberShifts(src, st.pos, num);
    NumberIsNoWord(src, st.pos);
    NoGap(src, st.pos);
    hide NumberEnd, NumberShaped, StartsNumber, StartsWord, After, SkipGap;
  }

  lemma NumberIsNoWord(src: string, p: nat)
    requires p < |src| && StartsNumber(src, p)
    ensures !StartsWord(src[p]) && src[p] !in {' ', '\t', '\r', '\n', '#', '\\'}
  {
  }

  // ---------- patterns ----------

  /** The text of a pattern: the first slash that ends it is the one behind it. */
  predicate EreShaped(s: string) {
    EreEnd(s + "/", 0, false) == |s|
  }

  lemma {:induction false} EreShifts(src: string, p: nat, s: string, k: nat, inBracket: bool)
    requires Stands(src, p, s) && s != "" && k < |s| && EreEnd(s, k, inBracket) == |s| - 1
    ensures EreEnd(src, p + k, inBracket) == p + |s| - 1
    decreases |s| - k
  {
    StandsAt(src, p, s);
    if !((s[k] == '/' && !inBracket) || s[k] == '\n') {
      StepShifts(src, p, s, k, inBracket);
      EreShifts(src, p, s, EreStep(s, k, inBracket), EreBracket(s, k, inBracket));
    }
  }

  lemma StepShifts(src: string, p: nat, s: string, k: nat, inBracket: bool)
    requires Stands(src, p, s) && k < |s| && !((s[k] == '/' && !inBracket) || s[k] == '\n')
    requires EreEnd(s, k, inBracket) == |s| - 1
    ensures EreStep(s, k, inBracket) < |s| && EreStep(src, p + k, inBracket) == p + EreStep(s, k, inBracket)
    ensures EreEnd(s, EreStep(s, k, inBracket), EreBracket(s, k, inBracket)) == |s| - 1
  {
    StandsAt(src, p, s);
    assert EreStep(s, k, inBracket) <= |s| - 1;
  }

  lemma EreIsRead(src: string, st: State, text: string)
    requires EreShaped(text) && Stands(src, st.pos, "/" + text + "/") && !st.division
    ensures Lex(src, st) == (Token(Ere, Text(text), "", st.line), After(st, Ere, st.pos + |text| + 2))
  {
    hide *;
    InsideSlashes(src, st.pos, text);
    EreEndsThere(src, st.pos + 1, text);
    LexAtSlash(src, st);
    EreToken(src, st, st.pos + 1 + |text|);
  }

  lemma EreToken(src: string, st: State, q: nat)
    requires st.pos < |src| && q < |src| && EreEnd(src, st.pos + 1, false) == q && src[q] == '/'
    ensures LexEre(src, st) == (Token(Ere, Text(src[st.pos + 1..q]), "", st.line), After(st, Ere, q + 1))
  {
    hide EreEnd, After;
  }

  lemma EreEndsThere(src: string, p: nat, text: string)
    requires EreShaped(text) && Stands(src, p, text + "/")
    ensures EreEnd(src, p, false) == p + |text|
  {
    EreShifts(src, p, text + "/", 0, false);
  }

  lemma LexAtSlash(src: string, st: State)
    requires st.pos < |src| && src[st.pos] == '/' && !st.division
    ensures Lex(src, st) == LexEre(src, st)
  {
    NoGap(src, st.pos);
    hide SkipGap, LexWord, LexNumber, LexString, LexEre, LexOperator;
  }

  lemma InsideSlashes(src: string, p: nat, text: string)
    requires Stands(src, p, "/" + text + "/")
    ensures p + |text| + 2 <= |src| && src[p] == '/' && src[p + 1 + |text|] == '/' && Stands(src, p + 1, text + "/")
    ensures src[p + 1..p + 1 + |text|] == text
  {
    StandsAt(src, p, "/" + text + "/");
    assert forall k :: 0 <= k < |text| ==> src[p + (1 + k)] == ("/" + text + "/")[1 + k] == text[k];
  }

  // ---------- token lists ----------

  /** What of the lexer's state decides how a text goes on. */
  datatype Context = Context(last: TokType, paren: nat, bracket: nat, division: bool)

  function ContextOf(st: State): Context {
    Context(st.last, st.paren, st.bracket, st.division)
  }

  const BEGINNING := ContextOf(START)

  function Behind(c: Context, t: TokType): Context {
    Context(t, Depth(c.paren, t, LParen, RParen), Depth(c.bracket, t, LBracket, RBracket), AllowsDivision(t))
  }

  ghost function Show(t: Sym): string {
    if t.typ == Newline then "\n"
    else if IsMark(t.typ) then SpellMark(t.typ)
    else if IsKeyword(t.typ) then SpellKeyword(t.typ)
    else if t.typ == Number then t.num
    else if t.text.NoText? then ""
    else if t.typ == StringLit && Bytes(t.text.chars) then "\"" + QuoteBody(t.text.chars) + "\""
    else if t.typ == Ere then "/" + t.text.chars + "/"
    else t.text.chars
  }

  /** A token that can be written where a slash divides or starts a pattern. */
  ghost predicate PrintableToken(t: Sym, division: bool) {
    if IsMark(t.typ) || IsKeyword(t.typ) then
      t == AwkGrammar.Op(t.typ) && (t.typ in {Slash, DivAssign} ==> division)
    else if t.typ == Number then t.text.NoText? && NumberShaped(t.num)
    else
      && t.text.Text? && t.num == ""
      && match t.typ
         case StringLit => Bytes(t.text.chars)
         case Ere => EreShaped(t.text.chars) && !division
         case Name => WordShaped(t.text.chars) && WordType(t.text.chars, false) == Name
         case FuncName => WordShaped(t.text.chars) && WordType(t.text.chars, true) == FuncName
         case BuiltinFunc => WordShaped(t.text.chars) && WordType(t.text.chars, false) == BuiltinFunc
         case _ => false
  }

  /** A line end where one is seen: outside parentheses and brackets, and not behind what
      goes on in the next line. */
  predicate EndsLine(c: Context) {
    && c.paren == 0 && c.bracket == 0
    && c.last !in {LBrace, Comma, AndAnd, OrOr, KwDo, KwElse, Question, Colon, Newline, Semi}
  }

  ghost predicate Printable(t: Sym, c: Context) {
    if t.typ == Newline then t == AwkGrammar.Op(Newline) && EndsLine(c) else PrintableToken(t, c.division)
  }

  ghost predicate AllPrintable(ts: seq<Sym>, c: Context)
    decreases |ts|
  {
    ts == [] ||
      (&& Printable(ts[0], c)
       && (ts[0].typ == FuncName ==> |ts| > 1 && ts[1].typ == LParen)
       && AllPrintable(ts[1..], Behind(c, ts[0].typ)))
  }

  /** A blank behind each token, but not behind the name of a call or a line end. */
  function Space(t: TokType): string {
    if t == FuncName || t == Newline then "" else " "
  }

  ghost function Render(ts: seq<Sym>, c: Context): string
    requires AllPrintable(ts, c)
    decreases |ts|
  {
    if ts == [] then "" else Show(ts[0]) + Space(ts[0].typ) + Render(ts[1..], Behind(c, ts[0].typ))
  }

  lemma TokenIsRead(src: string, st: State, t: Sym)
    requires t.typ != Newline && PrintableToken(t, st.division) && Stands(src, st.pos, Show(t))
    requires if t.typ == FuncName then At(src, st.pos + |Show(t)|) == '(' else Ends(src, st.pos + |Show(t)|)
    ensures Lex(src, st) == (Token(t.typ, t.text, t.num, st.line), After(st, t.typ, st.pos + |Show(t)|))
  {
    CallsAreNoMarks();
    if IsMark(t.typ) {
      hide Lex, After, SpellMark, SpellKeyword, WordShaped, NumberShaped, EreShaped, WordType;
      MarkIsRead(src, st, t.typ);
    } else if IsKeyword(t.typ) {
      hide Lex, After, SpellMark, SpellKeyword, WordShaped, NumberShaped, EreShaped, WordType;
      KeywordIsRead(src, st, t.typ);
    } else {
      hide Lex, After, SpellMark, SpellKeyword, WordShaped, NumberShaped, EreShaped, WordType;
      OtherIsRead(src, st, t);
    }
  }

  lemma CallsAreNoMarks()
    ensures !IsMark(FuncName) && !IsKeyword(FuncName)
  {
  }

  lemma OtherIsRead(src: string, st: State, t: Sym)
    requires t.typ != Newline && !IsMark(t.typ) && !IsKeyword(t.typ)
    requires PrintableToken(t, st.division) && Stands(src, st.pos, Show(t))
    requires if t.typ == FuncName then At(src, st.pos + |Show(t)|) == '(' else Ends(src, st.pos + |Show(t)|)
    ensures Lex(src, st) == (Token(t.typ, t.text, t.num, st.line), After(st, t.typ, st.pos + |Show(t)|))
  {
    hide Lex, After, IsMark, IsKeyword, WordShaped, NumberShaped, EreShaped, WordType, QuoteBody;
    if t.typ == Number {
      NumberIsRead(src, st, t.num);
    } else if t.typ == StringLit {
      QuotedStringIsRead(src, st, t.text.chars);
    } else if t.typ == Ere {
      EreIsRead(src, st, t.text.chars);
    } else {
      WordIsRead(src, st, t.text.chars, t.typ == FuncName);
    }
  }

  /** No spelling begins like a blank, a comment, a line end or a continuation. */
  lemma SpellingStarts(t: Sym, division: bool)
    requires t.typ != Newline && PrintableToken(t, division)
    ensures Show(t) != "" && Show(t)[0] !in {' ', '\t', '\r', '\n', '#', '\\'}
    ensures t.typ != EndOfFile && (t.typ == LParen ==> Show(t)[0] == '(')
  {
    MarkSpelled(t.typ);
    MarkStarts(t.typ);
    KeywordStarts(t.typ);
    hide SpellMark, SpellKeyword, WordType, NumberEnd, QuoteBody, EreShaped;
  }

  lemma MarkStarts(t: TokType)
    ensures IsMark(t) ==> SpellMark(t)[0] !in {' ', '\t', '\r', '\n', '#', '\\'}
  {
  }

  lemma KeywordStarts(t: TokType)
    ensures IsKeyword(t) ==> SpellKeyword(t)[0] !in {' ', '\t', '\r', '\n', '#', '\\'}
  {
  }

  lemma MarkSpelled(t: TokType)
    ensures t == LParen ==> IsMark(t) && SpellMark(t) == "("
    ensures t == EndOfFile || t == Newline ==> !IsMark(t) && !IsKeyword(t)
  {
  }

  // ---------- the round trip ----------

  /** A blank between tokens is passed over. */
  lemma BlankIsSkipped(src: string, st: State)
    requires st.pos < |src| && src[st.pos] == ' '
    ensures LexLines(src, st) == LexLines(src, st.(pos := st.pos + 1))
  {
    LexSkipsBlank(src, st);
    hide Lex;
    LexAllStep(src, st);
    LexAllStep(src, st.(pos := st.pos + 1));
  }

  lemma LexSkipsBlank(src: string, st: State)
    requires st.pos < |src| && src[st.pos] == ' '
    ensures Lex(src, st) == Lex(src, st.(pos := st.pos + 1))
  {
    assert SkipGap(src, st.pos) == SkipGap(src, st.pos + 1);
    hide *;
    GapDecides(src, st, st.pos + 1);
  }

  lemma GapDecides(src: string, st: State, q: nat)
    requires SkipGap(src, st.pos) == SkipGap(src, q)
    ensures Lex(src, st) == Lex(src, st.(pos := q))
  {
    hide SkipGap, LexToken, After;
  }

  /** A line end that counts is a token of its own. */
  lemma LineEndIsRead(src: string, st: State)
    requires st.pos < |src| && src[st.pos] == '\n' && EndsLine(ContextOf(st))
    requires st.pos + 1 < |src| ==> src[st.pos + 1] !in {' ', '\t', '\r', '\n', '#', '\\'}
    ensures Lex(src, st)
         == (Token(Newline, NoText, "", st.line + 1), After(st.(line := st.line + 1), Newline, st.pos + 1))
  {
    hide *;
    GapAtLineEnd(src, st.pos);
    NotSuppressed(st);
    LexAtLineEnd(src, st);
  }

  lemma GapAtLineEnd(src: string, p: nat)
    requires p < |src| && src[p] == '\n'
    requires p + 1 < |src| ==> src[p + 1] !in {' ', '\t', '\r', '\n', '#', '\\'}
    ensures SkipGap(src, p) == Gap(p + 1, 1, true)
  {
    if p + 1 < |src| {
      NoGap(src, p + 1);
    }
    assert SkipGap(src, p + 1) == Gap(p + 1, 0, false);
    assert SkipGap(src, p) == LineMore(SkipGap(src, p + 1), true);
    hide SkipGap;
  }

  lemma NotSuppressed(st: State)
    requires EndsLine(ContextOf(st))
    ensures !NewlineSuppressed(st)
  {
  }

  lemma LexAtLineEnd(src: string, st: State)
    requires SkipGap(src, st.pos) == Gap(st.pos + 1, 1, true) && !NewlineSuppressed(st)
    ensures Lex(src, st)
         == (Token(Newline, NoText, "", st.line + 1), After(st.(line := st.line + 1), Newline, st.pos + 1))
  {
    hide SkipGap, LexToken, NewlineSuppressed, Depth, AllowsDivision;
  }

  lemma NothingToRead(src: string, st: State)
    requires st.pos == |src|
    ensures LexLines(src, st) == []
  {
    LexMovesOn(src, st);
    assert SkipGap(src, st.pos) == Gap(st.pos, 0, false);
    hide SkipGap, LexToken, NewlineSuppressed, After;
  }

  /** One token read, and the rest from the state behind it. */
  lemma TokenAndRest(src: string, st: State, t: Sym, line: nat, next: State)
    requires st.pos < next.pos <= |src| && t.typ != EndOfFile
    requires Lex(src, st) == (Token(t.typ, t.text, t.num, line), next)
    ensures LexLines(src, st) == [t] + LexLines(src, next)
  {
    hide Lex;
    LexAllStep(src, st);
  }

  /** Every list of tokens that can be written is read back as it was, line ends among
      them, from any place in a text and in any context that agrees. */
  lemma {:induction false} RenderIsRead(src: string, st: State, ts: seq<Sym>)
    requires AllPrintable(ts, ContextOf(st))
    requires st.pos <= |src| && src[st.pos..] == Render(ts, ContextOf(st))
    ensures LexLines(src, st) == ts
    decreases |ts|
  {
    hide *;
    if ts == [] {
      RenderNothing(ContextOf(st));
      NothingToRead(src, st);
      return;
    }
    var t, rest := ts[0], ts[1..];
    var next := FirstIsRead(src, st, ts);
    if Space(t.typ) == " " {
      BlankIsSkipped(src, next);
      SameContext(next, next.pos + 1);
      RenderIsRead(src, next.(pos := next.pos + 1), rest);
    } else {
      SpaceIs(t.typ);
      RenderIsRead(src, next, rest);
    }
    assert [t] + rest == ts;
  }

  lemma SpaceIs(t: TokType)
    ensures Space(t) == " " || Space(t) == ""
  {
  }

  lemma SameContext(st: State, pos: nat)
    ensures ContextOf(st.(pos := pos)) == ContextOf(st)
  {
  }

  lemma RenderNothing(c: Context)
    ensures AllPrintable([], c) && Render([], c) == ""
  {
  }

  lemma ContextBehind(st: State, t: TokType, pos: nat, line: nat)
    ensures ContextOf(After(st.(line := line), t, pos)) == Behind(ContextOf(st), t)
    ensures After(st.(line := line), t, pos).pos == pos && st.(line := st.line) == st
  {
    hide Depth, AllowsDivision;
  }

  /** The first token is read, and the rest stands behind it. */
  lemma FirstIsRead(src: string, st: State, ts: seq<Sym>) returns (next: State)
    requires ts != [] && AllPrintable(ts, ContextOf(st))
    requires st.pos <= |src| && src[st.pos..] == Render(ts, ContextOf(st))
    ensures st.pos < next.pos && next.pos + |Space(ts[0].typ)| <= |src|
    ensures LexLines(src, st) == [ts[0]] + LexLines(src, next)
    ensures ContextOf(next) == Behind(ContextOf(st), ts[0].typ) && AllPrintable(ts[1..], ContextOf(next))
    ensures src[next.pos + |Space(ts[0].typ)|..] == Render(ts[1..], ContextOf(next))
    ensures Space(ts[0].typ) == " " ==> src[next.pos] == ' '
  {
    hide *;
    var t, rest := ts[0], ts[1..];
    FirstStands(src, st, ts);
    if t.typ == Newline {
      LineEndFirst(src, st, ts);
      next := After(st.(line := st.line + 1), Newline, st.pos + 1);
      ContextBehind(st, Newline, st.pos + 1, st.line + 1);
      TokenAndRest(src, st, t, st.line + 1, next);
    } else {
      TokenFirst(t, ContextOf(st));
      DivisionOf(st);
      TokenIsRead(src, st, t);
      next := After(st, t.typ, st.pos + |Show(t)|);
      ContextBehind(st, t.typ, st.pos + |Show(t)|, st.line);
      TokenAndRest(src, st, t, st.line, next);
    }
  }

  lemma DivisionOf(st: State)
    ensures ContextOf(st).division == st.division
  {
  }

  lemma TokenFirst(t: Sym, c: Context)
    requires Printable(t, c) && t.typ != Newline
    ensures PrintableToken(t, c.division) && t.typ != EndOfFile && Show(t) != ""
  {
    SpellingStarts(t, c.division);
    hide PrintableToken, Show;
  }

  lemma LineEndFirst(src: string, st: State, ts: seq<Sym>)
    requires ts != [] && AllPrintable(ts, ContextOf(st)) && ts[0].typ == Newline
    requires st.pos < |src| && src[st.pos..] == Render(ts, ContextOf(st))
    requires Stands(src, st.pos, Show(ts[0])) && src[st.pos + 1..] == Render(ts[1..], Behind(ContextOf(st), Newline))
    ensures ts[0].text == NoText && ts[0].num == ""
    ensures Lex(src, st)
         == (Token(Newline, NoText, "", st.line + 1), After(st.(line := st.line + 1), Newline, st.pos + 1))
  {
    StandsAt(src, st.pos, Show(ts[0]));
    assert src[st.pos] == '\n';
    hide Lex, After, PrintableToken, Render, Stands;
    NextStarts(ts, ContextOf(st));
    if st.pos + 1 < |src| {
      assert src[st.pos + 1] == src[st.pos + 1..][0];
    }
    LineEndIsRead(src, st);
  }

  /** Behind a line end no other follows. */
  lemma NextStarts(ts: seq<Sym>, c: Context)
    requires ts != [] && AllPrintable(ts, c) && ts[0].typ == Newline
    ensures AllPrintable(ts[1..], Behind(c, Newline))
    ensures var r := Render(ts[1..], Behind(c, Newline)); r != "" ==> r[0] !in {' ', '\t', '\r', '\n', '#', '\\'}
  {
    var rest, d := ts[1..], Behind(c, Newline);
    if rest != [] {
      assert !EndsLine(d);
      SpellingStarts(rest[0], d.division);
    }
    hide PrintableToken, Show;
  }

  /** Where the first token stands and what comes behind it. */
  lemma FirstStands(src: string, st: State, ts: seq<Sym>)
    requires ts != [] && AllPrintable(ts, ContextOf(st))
    requires st.pos <= |src| && src[st.pos..] == Render(ts, ContextOf(st))
    ensures var t, rest, d := ts[0], ts[1..], Behind(ContextOf(st), ts[0].typ);
            var q := st.pos + |Show(t)|;
            && Printable(t, ContextOf(st)) && AllPrintable(rest, d)
            && Stands(src, st.pos, Show(t)) && st.pos < q <= |src| && q + |Space(t.typ)| <= |src|
            && src[q + |Space(t.typ)|..] == Render(rest, d)
            && (t.typ == Newline ==> q == st.pos + 1 && |Space(t.typ)| == 0)
            && (Space(t.typ) == " " ==> src[q] == ' ')
            && (t.typ != Newline ==> if t.typ == FuncName then At(src, q) == '(' else Ends(src, q))
  {
    hide *;
    var t, rest, d := ts[0], ts[1..], Behind(ContextOf(st), ts[0].typ);
    RenderParts(ts, ContextOf(st));
    ShowIs(t, ContextOf(st));
    SpaceCases(t.typ);
    if t.typ == FuncName {
      RenderBegins(rest, d);
    }
    TextParts(src, st.pos, Show(t), Space(t.typ), Render(rest, d));
    BlankEnds(src, st.pos + |Show(t)|);
  }

  lemma SpaceCases(t: TokType)
    ensures Space(t) == if t == FuncName || t == Newline then "" else " "
  {
  }

  lemma BlankEnds(src: string, p: nat)
    ensures p < |src| && src[p] == ' ' ==> Ends(src, p)
  {
  }

  lemma ShowIs(t: Sym, c: Context)
    requires Printable(t, c)
    ensures Show(t) != "" && (t.typ == Newline ==> Show(t) == "\n")
  {
    if t.typ != Newline {
      SpellingStarts(t, c.division);
    }
    hide PrintableToken;
  }

  lemma RenderParts(ts: seq<Sym>, c: Context)
    requires ts != [] && AllPrintable(ts, c)
    ensures var t, rest, d := ts[0], ts[1..], Behind(c, ts[0].typ);
            && Printable(t, c) && AllPrintable(rest, d) && (t.typ == FuncName ==> rest != [] && rest[0].typ == LParen)
            && Render(ts, c) == Show(t) + Space(t.typ) + Render(rest, d)
  {
    hide Show, Printable, Behind, Space;
  }

  lemma TextParts(src: string, p: nat, x: string, gap: string, y: string)
    requires p <= |src| && src[p..] == x + gap + y && |gap| <= 1
    ensures Stands(src, p, x) && p + |x| + |gap| <= |src|
    ensures src[p + |x| + |gap|..] == y
    ensures gap != "" ==> src[p + |x|] == gap[0]
    ensures gap == "" && y != "" ==> At(src, p + |x|) == y[0]
  {
    var all := src[p..];
    assert forall k :: 0 <= k < |all| ==> all[k] == src[p + k];
    assert all[..|x|] == x && all[|x| + |gap|..] == y;
    assert src[p..p + |x|] == all[..|x|];
    assert src[p + |x| + |gap|..] == all[|x| + |gap|..];
    if gap != "" {
      assert all[|x|] == gap[0];
    } else if y != "" {
      assert all[|x|] == y[0];
    }
  }

  lemma RenderBegins(ts: seq<Sym>, c: Context)
    requires AllPrintable(ts, c) && ts != [] && ts[0].typ == LParen
    ensures Render(ts, c) != "" && Render(ts, c)[0] == '('
  {
    SpellingStarts(ts[0], c.division);
    hide Show, PrintableToken, Behind;
  }

  /** So a whole written text is lexed to its tokens. */
  lemma WrittenTextIsRead(ts: seq<Sym>)
    requires AllPrintable(ts, BEGINNING)
    ensures LexLines(Render(ts, BEGINNING), START) == ts
  {
    var src := Render(ts, BEGINNING);
    assert src[0..] == src;
    RenderIsRead(src, START, ts);
  }
}
