/** The awk lexer (src/awk_lexer.c): which newlines end a statement, when a slash
    starts a pattern, literals with escapes, and one token at a time. */
module AwkLexer {

  import opened AwkTokens
  import opened Strings

  /** Everything the lexer keeps besides the text. */
  datatype State = State(pos: nat, line: nat, last: TokType, paren: nat, bracket: nat, division: bool)

  const START := State(0, 1, Newline, 0, 0, false)

  /** The character at p; NUL from the end on. */
  function At(src: string, p: nat): char {
    if p < |src| then src[p] else '\0'
  }

  ghost predicate NulFree(src: string) {
    forall k :: 0 <= k < |src| ==> src[k] != '\0'
  }

  // ---------- characters ----------

  predicate IsOctal(c: char) {
    '0' <= c <= '7'
  }

  predicate IsHex(c: char) {
    IsDigit(c) || 'a' <= c <= 'f' || 'A' <= c <= 'F'
  }

  predicate StartsWord(c: char) {
    'a' <= c <= 'z' || 'A' <= c <= 'Z' || c == '_'
  }

  predicate InWord(c: char) {
    StartsWord(c) || IsDigit(c)
  }

  /** Where the characters from p on stop satisfying `ok`. */
  function RunEnd(src: string, p: nat, ok: char -> bool): (q: nat)
    ensures p <= q && (p <= |src| ==> q <= |src|)
    decreases |src| - p
  {
    if p < |src| && ok(src[p]) then RunEnd(src, p + 1, ok) else p
  }

  // ---------- between tokens ----------

  /** What lies between two tokens: where it ends, how many lines it ends and
      whether one of them is neither continued nor in a comment. */
  datatype Gap = Gap(end: nat, lines: nat, newline: bool)

  predicate NotNewline(c: char) {
    c != '\n'
  }

  function SkipGap(src: string, p: nat): (g: Gap)
    ensures g.end >= p && (g.end > |src| ==> g.end == p)
    ensures g.newline ==> g.end > p && g.lines > 0
    decreases |src| - p
  {
    if p >= |src| then Gap(p, 0, false)
    else if src[p] == '\\' && At(src, p + 1) == '\n' then LineMore(SkipGap(src, p + 2), false)
    else if src[p] == '\\' && At(src, p + 1) == '\r' && At(src, p + 2) == '\n' then LineMore(SkipGap(src, p + 3), false)
    else if src[p] in {' ', '\t', '\r'} then SkipGap(src, p + 1)
    else if src[p] == '#' then SkipGap(src, RunEnd(src, p, NotNewline))
    else if src[p] == '\n' then LineMore(SkipGap(src, p + 1), true)
    else Gap(p, 0, false)
  }

  function LineMore(g: Gap, newline: bool): Gap {
    Gap(g.end, g.lines + 1, g.newline || newline)
  }

  /** SkipGap by the character at p. */
  lemma GapStep(src: string, p: nat)
    requires NulFree(src)
    ensures var c, g := At(src, p), SkipGap(src, p);
            if c == '\0' then g == Gap(p, 0, false)
            else if c == '\\' && At(src, p + 1) == '\n' then g == LineMore(SkipGap(src, p + 2), false)
            else if c == '\\' && At(src, p + 1) == '\r' && At(src, p + 2) == '\n' then g == LineMore(SkipGap(src, p + 3), false)
            else if c == ' ' || c == '\t' || c == '\r' then g == SkipGap(src, p + 1)
            else if c == '#' then g == SkipGap(src, RunEnd(src, p, NotNewline)) && RunEnd(src, p, NotNewline) > p
            else if c == '\n' then g == LineMore(SkipGap(src, p + 1), true)
            else g == Gap(p, 0, false)
  {
  }

  lemma {:induction false} RunStops(src: string, p: nat, q: nat, ok: char -> bool)
    requires p <= q <= |src| && (forall k :: p <= k < q ==> ok(src[k])) && (q < |src| ==> !ok(src[q]))
    ensures RunEnd(src, p, ok) == q
    decreases q - p
  {
    if p < q {
      RunStops(src, p + 1, q, ok);
    }
  }

  /** A comment goes on to the end of its line, and the newline there is no part of it. */
  lemma CommentEndsWithLine(src: string, p: nat, q: nat)
    requires p < q <= |src| && src[p] == '#' && forall k :: p <= k < q ==> src[k] != '\n'
    ensures q < |src| && src[q] == '\n' ==> SkipGap(src, p) == LineMore(SkipGap(src, q + 1), true)
    ensures q == |src| ==> SkipGap(src, p) == Gap(q, 0, false)
  {
    if q == |src| || src[q] == '\n' {
      RunStops(src, p, q, NotNewline);
    }
  }

  predicate NewlineSuppressed(st: State) {
    || st.paren > 0 || st.bracket > 0
    || st.last in {LBrace, Comma, AndAnd, OrOr, KwDo, KwElse, Question, Colon, Newline, Semi}
  }

  // ---------- words and numbers ----------

  function LookupKeyword(name: string): TokType {
    match name
    case "BEGIN" => KwBegin
    case "END" => KwEnd
    case "function" => KwFunction
    case "func" => KwFunction
    case "if" => KwIf
    case "else" => KwElse
    case "while" => KwWhile
    case "for" => KwFor
    case "do" => KwDo
    case "break" => KwBreak
    case "continue" => KwContinue
    case "next" => KwNext
    case "nextfile" => KwNextFile
    case "exit" => KwExit
    case "return" => KwReturn
    case "delete" => KwDelete
    case "in" => KwIn
    case "getline" => KwGetline
    case "print" => KwPrint
    case "printf" => KwPrintf
    case _ => Name
  }

  const BUILTINS: set<string> := {
    "length", "substr", "index", "split", "sub", "gsub", "match",
    "sprintf", "sin", "cos", "atan2", "exp", "log", "sqrt", "int",
    "rand", "srand", "tolower", "toupper", "system", "close", "fflush"
  }

  /** What a word is, knowing whether a parenthesis follows at once. */
  function WordType(name: string, call: bool): TokType {
    if LookupKeyword(name) != Name then LookupKeyword(name)
    else if name in BUILTINS then BuiltinFunc
    else if call then FuncName
    else Name
  }

  lemma WordTypeIs(name: string, call: bool)
    ensures WordType(name, call) !in {EndOfFile, Newline, Number, StringLit, Ere, LParen, RParen, LBracket, RBracket}
  {
  }

  function ExponentEnd(src: string, p: nat): (q: nat)
    ensures p <= q && (p <= |src| ==> q <= |src|)
  {
    if At(src, p) in {'e', 'E'} then
      var r := if At(src, p + 1) in {'+', '-'} then p + 2 else p + 1;
      if IsDigit(At(src, r)) then RunEnd(src, r, IsDigit) else p
    else p
  }

  /** The end of the number at p; 0x alone is one too. */
  function NumberEnd(src: string, p: nat): (q: nat)
    requires p < |src| && (IsDigit(src[p]) || (src[p] == '.' && IsDigit(At(src, p + 1))))
    ensures p < q <= |src|
  {
    if src[p] == '0' && At(src, p + 1) in {'x', 'X'} then RunEnd(src, p + 2, IsHex)
    else
      var q := RunEnd(src, p, IsDigit);
      ExponentEnd(src, if At(src, q) == '.' then RunEnd(src, q + 1, IsDigit) else q)
  }

  // ---------- literals ----------

  datatype Scan = Scan(text: string, end: nat)

  function Prefixed(s: string, r: Scan): Scan {
    Scan(s + r.text, r.end)
  }

  /** The character an escape letter stands for. */
  function EscapeOf(c: char): (r: char)
    ensures r == '\0' || c in {'n', 't', 'r', '\\', '"', '/', 'a', 'b', 'f', 'v'}
  {
    match c
    case 'n' => '\n'
    case 't' => '\t'
    case 'r' => '\r'
    case '\\' => '\\'
    case '"' => '"'
    case '/' => '/'
    case 'a' => 7 as char
    case 'b' => 8 as char
    case 'f' => 12 as char
    case 'v' => 11 as char
    case _ => '\0'
  }

  /** Up to three octal digits. */
  function OctalEnd(src: string, p: nat): (q: nat)
    requires p < |src|
    ensures p < q <= |src| && q <= p + 3
  {
    if !IsOctal(At(src, p + 1)) then p + 1 else if !IsOctal(At(src, p + 2)) then p + 2 else p + 3
  }

  function OctalValue(digits: string): int {
    if digits == "" then 0 else OctalValue(digits[..|digits| - 1]) * 8 + (digits[|digits| - 1] as int - '0' as int)
  }

  /** A value stored in one byte. */
  function ByteOf(v: int): char {
    (v % 256) as char
  }

  /** The inside of a string literal from p on, up to the quote or the end. */
  function StringBody(src: string, p: nat): (r: Scan)
    ensures r.end >= p && (p <= |src| ==> r.end <= |src| + 1)
    decreases |src| + 2 - p
  {
    if p >= |src| || src[p] == '"' then Scan("", p)
    else if src[p] != '\\' then Prefixed([src[p]], StringBody(src, p + 1))
    else
      var esc := At(src, p + 1);
      if EscapeOf(esc) != '\0' then Prefixed([EscapeOf(esc)], StringBody(src, p + 2))
      else if IsOctal(esc) then
        var q := OctalEnd(src, p + 1);
        Prefixed([ByteOf(OctalValue(src[p + 1..q]))], StringBody(src, q))
      else Prefixed(['\\', esc], StringBody(src, p + 2))
  }

  /** A buffer read as a C string ends at the first NUL. */
  function CString(buf: string): string {
    if buf == "" || buf[0] == '\0' then "" else [buf[0]] + CString(buf[1..])
  }

  /** The end of a pattern literal from p on: the slash, a newline or the end. */
  function EreEnd(src: string, p: nat, inBracket: bool): (q: nat)
    ensures q >= p && (p <= |src| ==> q <= |src|)
    decreases |src| - p
  {
    if p >= |src| || (src[p] == '/' && !inBracket) || src[p] == '\n' then p
    else EreEnd(src, EreStep(src, p, inBracket), EreBracket(src, p, inBracket))
  }

  /** Behind one character of a pattern, an escaped one, or the start of a bracket. */
  function EreStep(src: string, p: nat, inBracket: bool): (q: nat)
    requires p < |src|
    ensures p < q <= |src|
  {
    if src[p] == '\\' then (if p + 1 < |src| then p + 2 else p + 1)
    else if src[p] == '[' && !inBracket then BracketStart(src, p)
    else p + 1
  }

  /** Whether what follows is inside a bracket. */
  predicate EreBracket(src: string, p: nat, inBracket: bool)
    requires p < |src|
  {
    if src[p] == '[' then true else if src[p] == ']' then false else inBracket
  }

  /** A bracket with the `^` and the `]` that may follow it at once. */
  function BracketStart(src: string, p: nat): (q: nat)
    requires p < |src|
    ensures p < q <= |src| && q <= p + 3
  {
    var q := if At(src, p + 1) == '^' then p + 2 else p + 1;
    if At(src, q) == ']' then q + 1 else q
  }

  // ---------- operators ----------

  datatype OpToken = NoOp | OpToken(typ: TokType, len: nat)

  function Operator(c: char, c1: char): (op: OpToken)
    ensures op.OpToken? ==> 1 <= op.len <= 2 && (op.len == 2 ==> c1 != '\0') && op.typ !in {EndOfFile, Newline}
  {
    match c
    case '{' => OpToken(LBrace, 1)
    case '}' => OpToken(RBrace, 1)
    case '(' => OpToken(LParen, 1)
    case ')' => OpToken(RParen, 1)
    case '[' => OpToken(LBracket, 1)
    case ']' => OpToken(RBracket, 1)
    case ';' => OpToken(Semi, 1)
    case ',' => OpToken(Comma, 1)
    case '$' => OpToken(Dollar, 1)
    case '?' => OpToken(Question, 1)
    case ':' => OpToken(Colon, 1)
    case '~' => OpToken(MatchTok, 1)
    case '^' => if c1 == '=' then OpToken(PowAssign, 2) else OpToken(Caret, 1)
    case '+' => if c1 == '+' then OpToken(Incr, 2) else if c1 == '=' then OpToken(AddAssign, 2) else OpToken(Plus, 1)
    case '-' => if c1 == '-' then OpToken(Decr, 2) else if c1 == '=' then OpToken(SubAssign, 2) else OpToken(Minus, 1)
    case '*' => if c1 == '=' then OpToken(MulAssign, 2) else OpToken(Star, 1)
    case '/' => if c1 == '=' then OpToken(DivAssign, 2) else OpToken(Slash, 1)
    case '%' => if c1 == '=' then OpToken(ModAssign, 2) else OpToken(Percent, 1)
    case '=' => if c1 == '=' then OpToken(Equal, 2) else OpToken(AssignTok, 1)
    case '<' => if c1 == '=' then OpToken(LessEq, 2) else OpToken(Less, 1)
    case '>' => if c1 == '=' then OpToken(GreaterEq, 2) else if c1 == '>' then OpToken(Append, 2) else OpToken(Greater, 1)
    case '!' => if c1 == '=' then OpToken(NotEqual, 2) else if c1 == '~' then OpToken(NoMatch, 2) else OpToken(NotTok, 1)
    case '&' => if c1 == '&' then OpToken(AndAnd, 2) else NoOp
    case '|' => if c1 == '|' then OpToken(OrOr, 2) else OpToken(Pipe, 1)
    case _ => NoOp
  }

  /** After these a slash divides. */
  predicate AllowsDivision(t: TokType) {
    t in {Name, FuncName, Number, StringLit, Ere, RParen, RBracket, Incr, Decr}
  }

  /** How deep the lexer is in parentheses or brackets after token t. */
  function Depth(n: nat, t: TokType, open: TokType, close: TokType): nat {
    if t == open then n + 1 else if t == close && n > 0 then n - 1 else n
  }

  /** The state after a token that ends at `pos`. */
  function After(st: State, t: TokType, pos: nat): (s: State)
    ensures s.pos == pos && s.line == st.line && s.last == t
  {
    hide Depth, AllowsDivision;
    State(pos, st.line, t, Depth(st.paren, t, LParen, RParen), Depth(st.bracket, t, LBracket, RBracket), AllowsDivision(t))
  }

  // ---------- one token ----------

  predicate StartsNumber(src: string, p: nat)
    requires p < |src|
  {
    IsDigit(src[p]) || (src[p] == '.' && IsDigit(At(src, p + 1)))
  }

  /** Keywords carry no text. */
  function WordText(t: TokType, name: string): Text {
    if t in {Name, FuncName, BuiltinFunc} then Text(name) else NoText
  }

  function LexWord(src: string, st: State): (r: (Token, State))
    requires st.pos < |src| && StartsWord(src[st.pos])
    ensures st.pos < r.1.pos <= |src|
    ensures r.0.typ !in {EndOfFile, Newline} && r.1.last == r.0.typ
  {
    hide WordType, After;
    var q := RunEnd(src, st.pos, InWord);
    var name := src[st.pos..q];
    WordTypeIs(name, At(src, q) == '(');
    var t := WordType(name, At(src, q) == '(');
    (Token(t, WordText(t, name), "", st.line), After(st, t, q))
  }

  function LexNumber(src: string, st: State): (r: (Token, State))
    requires st.pos < |src| && StartsNumber(src, st.pos)
    ensures st.pos < r.1.pos <= |src| && r.0.typ == r.1.last == Number
  {
    hide NumberEnd, After;
    var q := NumberEnd(src, st.pos);
    (Token(Number, NoText, src[st.pos..q], st.line), After(st, Number, q))
  }

  /** Past the closing character, if it is there. */
  function PastClose(src: string, p: nat, close: char): (q: nat)
    ensures p <= q && (q > p ==> q <= |src|)
    requires close != '\0'
  {
    if At(src, p) == close then p + 1 else p
  }

  function LexString(src: string, st: State): (r: (Token, State))
    requires st.pos < |src|
    ensures st.pos < r.1.pos <= |src| + 1 && r.0.typ == r.1.last == StringLit
  {
    hide StringBody, CString, PastClose, After;
    var body := StringBody(src, st.pos + 1);
    (Token(StringLit, Text(CString(body.text)), "", st.line), After(st, StringLit, PastClose(src, body.end, '"')))
  }

  function LexEre(src: string, st: State): (r: (Token, State))
    requires st.pos < |src|
    ensures st.pos < r.1.pos <= |src| && r.0.typ == r.1.last == Ere
  {
    hide EreEnd, PastClose, After;
    var q := EreEnd(src, st.pos + 1, false);
    (Token(Ere, Text(src[st.pos + 1..q]), "", st.line), After(st, Ere, PastClose(src, q, '/')))
  }

  /** An operator; a character no token starts with is passed over and reported
      as the end of the text. */
  function LexOperator(src: string, st: State): (r: (Token, State))
    requires st.pos < |src|
    ensures st.pos < r.1.pos <= |src| && r.0.typ != Newline
    ensures r.0.typ != EndOfFile ==> r.1.last == r.0.typ
  {
    hide Operator, After;
    match Operator(src[st.pos], At(src, st.pos + 1))
    case OpToken(t, len) => (Token(t, NoText, "", st.line), After(st, t, st.pos + len))
    case NoOp => (Token(EndOfFile, NoText, "", st.line), st.(pos := st.pos + 1))
  }

  /** The token that starts at st.pos. */
  function LexToken(src: string, st: State): (r: (Token, State))
    requires st.pos < |src|
    ensures st.pos < r.1.pos <= |src| + 1
    ensures r.0.typ != Newline
    ensures r.0.typ != EndOfFile ==> r.1.last == r.0.typ
  {
    hide LexWord, LexNumber, LexString, LexEre, LexOperator;
    if StartsWord(src[st.pos]) then LexWord(src, st)
    else if StartsNumber(src, st.pos) then LexNumber(src, st)
    else if src[st.pos] == '"' then LexString(src, st)
    else if src[st.pos] == '/' && !st.division then LexEre(src, st)
    else LexOperator(src, st)
  }

  function Lex(src: string, st: State): (r: (Token, State)) {
    var g := SkipGap(src, st.pos);
    var there := st.(pos := g.end, line := st.line + g.lines);
    if g.newline && !NewlineSuppressed(st) then (Token(Newline, NoText, "", there.line), After(there, Newline, g.end))
    else if g.end >= |src| then (Token(EndOfFile, NoText, "", there.line), there)
    else LexToken(src, there)
  }

  /** The lexer moves on with every token, and stands still only at the end. */
  lemma LexMovesOn(src: string, st: State)
    requires st.pos <= |src| + 1
    ensures var (tok, next) := Lex(src, st);
            && st.pos <= next.pos <= |src| + 1
            && (tok.typ != EndOfFile ==> next.pos > st.pos)
            && (next.pos == st.pos ==> st.pos >= |src|)
  {
    hide LexToken, NewlineSuppressed;
  }

  /** A newline token comes exactly from a newline that neither the context nor a
      comment nor a continuation takes away, and never twice in a row. */
  lemma NewlineTokens(src: string, st: State)
    ensures var (tok, next) := Lex(src, st);
            && (tok.typ == Newline <==> SkipGap(src, st.pos).newline && !NewlineSuppressed(st))
            && (st.paren > 0 || st.bracket > 0 ==> tok.typ != Newline)
            && (tok.typ in {Newline, Semi, Comma, LBrace, AndAnd, OrOr, KwDo, KwElse, Question, Colon} ==>
                  Lex(src, next).0.typ != Newline)
  {
    hide SkipGap, LexToken, After;
    var (tok, next) := Lex(src, st);
    if tok.typ != EndOfFile {
      assert next.last == tok.typ;
    }
  }

  // ---------- string literals ----------

  /** The letter that escapes c; NUL when there is none. */
  function LetterFor(c: char): (r: char)
    ensures r != '\0' ==> EscapeOf(r) == c
  {
    if c == '\n' then 'n' else if c == '\t' then 't' else if c == '\r' then 'r'
    else if c == '\\' then '\\' else if c == '"' then '"'
    else if c == 7 as char then 'a' else if c == 8 as char then 'b'
    else if c == 12 as char then 'f' else if c == 11 as char then 'v' else '\0'
  }

  function OctalDigit(d: int): (c: char)
    requires 0 <= d < 8
    ensures IsOctal(c) && c as int - '0' as int == d
  {
    ('0' as int + d) as char
  }

  /** A character as it is written inside a literal: a letter after a backslash,
      three octal digits for the other control and high bytes, or itself. */
  function QuoteChar(c: char): (s: string)
    requires 0 < c as int < 256
    ensures s != ""
  {
    if LetterFor(c) != '\0' then ['\\', LetterFor(c)]
    else if c < ' ' || c >= 127 as char then
      ['\\', OctalDigit(c as int / 64), OctalDigit(c as int / 8 % 8), OctalDigit(c as int % 8)]
    else [c]
  }

  ghost predicate Bytes(s: string) {
    forall k :: 0 <= k < |s| ==> 0 < s[k] as int < 256
  }

  function QuoteBody(s: string): string
    requires Bytes(s)
  {
    if s == "" then "" else QuoteChar(s[0]) + QuoteBody(s[1..])
  }

  lemma OctalOfByte(c: char)
    requires 0 < c as int < 256
    ensures var digits := [OctalDigit(c as int / 64), OctalDigit(c as int / 8 % 8), OctalDigit(c as int % 8)];
            ByteOf(OctalValue(digits)) == c
  {
    var n := c as int;
    var d2, d1, d0 := OctalDigit(n / 64), OctalDigit(n / 8 % 8), OctalDigit(n % 8);
    assert OctalValue([]) == 0;
    assert [d2][..0] == [] && OctalValue([d2]) == n / 64;
    assert [d2, d1][..1] == [d2] && OctalValue([d2, d1]) == n / 64 * 8 + n / 8 % 8;
    assert [d2, d1, d0][..2] == [d2, d1];
    assert n / 64 * 8 + n / 8 % 8 == n / 8;
  }

  lemma LetterIsRead(src: string, p: nat, e: char)
    requires p + 2 <= |src| && src[p] == '\\' && src[p + 1] == e && EscapeOf(e) != '\0'
    ensures StringBody(src, p) == Prefixed([EscapeOf(e)], StringBody(src, p + 2))
  {
  }

  lemma OctalIsRead(src: string, p: nat, digits: string)
    requires p + 4 <= |src| && src[p] == '\\' && |digits| == 3 && src[p + 1..p + 4] == digits
    requires IsOctal(digits[0]) && IsOctal(digits[1]) && IsOctal(digits[2])
    ensures StringBody(src, p) == Prefixed([ByteOf(OctalValue(digits))], StringBody(src, p + 4))
  {
    assert forall k :: 0 <= k < 3 ==> src[p + 1 + k] == digits[k];
    assert OctalEnd(src, p + 1) == p + 4;
    hide OctalValue;
  }

  lemma QuotedCharIsRead(src: string, p: nat, c: char)
    requires 0 < c as int < 256
    requires p + |QuoteChar(c)| <= |src| && src[p..p + |QuoteChar(c)|] == QuoteChar(c)
    ensures StringBody(src, p) == Prefixed([c], StringBody(src, p + |QuoteChar(c)|))
  {
    var q := QuoteChar(c);
    assert forall k :: 0 <= k < |q| ==> src[p + k] == q[k];
    if LetterFor(c) != '\0' {
      LetterIsRead(src, p, LetterFor(c));
    } else if |q| == 4 {
      assert src[p + 1..p + 4] == q[1..];
      OctalOfByte(c);
      OctalIsRead(src, p, q[1..]);
    }
    hide OctalValue, LetterFor, EscapeOf;
    if |q| == 1 {
      PlainIsRead(src, p);
    }
  }

  lemma PlainIsRead(src: string, p: nat)
    requires p < |src| && src[p] != '"' && src[p] != '\\'
    ensures StringBody(src, p) == Prefixed([src[p]], StringBody(src, p + 1))
  {
  }

  lemma QuoteBodyIs(s: string)
    requires s != "" && Bytes(s)
    ensures QuoteBody(s) == QuoteChar(s[0]) + QuoteBody(s[1..])
  {
    hide QuoteChar;
  }

  lemma QuoteBodyParts(src: string, p: nat, s: string)
    requires s != "" && Bytes(s) && p + |QuoteBody(s)| <= |src| && src[p..p + |QuoteBody(s)|] == QuoteBody(s)
    ensures var n, m := |QuoteChar(s[0])|, |QuoteBody(s[1..])|;
            && |QuoteBody(s)| == n + m
            && src[p..p + n] == QuoteChar(s[0])
            && src[p + n..p + n + m] == QuoteBody(s[1..])
  {
    hide QuoteBody, QuoteChar;
    QuoteBodyIs(s);
    SliceParts(src, p, QuoteChar(s[0]), QuoteBody(s[1..]));
  }

  lemma SliceParts(src: string, p: nat, x: string, y: string)
    requires p + |x| + |y| <= |src| && src[p..p + |x| + |y|] == x + y
    ensures src[p..p + |x|] == x && src[p + |x|..p + |x| + |y|] == y
  {
    var all := src[p..p + |x| + |y|];
    assert all[..|x|] == x && all[|x|..] == y;
    assert src[p..p + |x|] == all[..|x|];
    assert src[p + |x|..p + |x| + |y|] == all[|x|..];
  }

  lemma NothingQuoted(src: string, p: nat)
    ensures QuoteBody("") == ""
    ensures p < |src| && src[p] == '"' ==> StringBody(src, p) == Scan("", p)
  {
  }

  lemma {:induction false} QuotedBodyIsRead(src: string, p: nat, s: string)
    requires Bytes(s) && p + |QuoteBody(s)| < |src| && src[p..p + |QuoteBody(s)|] == QuoteBody(s)
    requires src[p + |QuoteBody(s)|] == '"'
    ensures StringBody(src, p) == Scan(s, p + |QuoteBody(s)|)
    decreases |s|
  {
    hide StringBody, QuoteBody, QuoteChar;
    if s == "" {
      NothingQuoted(src, p);
    } else {
      QuoteBodyParts(src, p, s);
      QuotedCharIsRead(src, p, s[0]);
      QuotedBodyIsRead(src, p + |QuoteChar(s[0])|, s[1..]);
      assert [s[0]] + s[1..] == s;
    }
  }

  lemma {:induction false} CStringOfBytes(s: string)
    requires Bytes(s)
    ensures CString(s) == s
  {
    if s != "" {
      CStringOfBytes(s[1..]);
    }
  }

  /** Where a token starts there is nothing to skip. */
  lemma NoGap(src: string, p: nat)
    requires p < |src| && src[p] !in {' ', '\t', '\r', '\n', '#', '\\'}
    ensures SkipGap(src, p) == Gap(p, 0, false)
  {
  }

  /** The literal that escapes s is read as one string token with the text s, and
      reading stops just behind the closing quote. */
  lemma QuotedStringIsRead(src: string, st: State, s: string)
    requires Bytes(s) && st.pos + |QuoteBody(s)| + 2 <= |src|
    requires src[st.pos..st.pos + |QuoteBody(s)| + 2] == "\"" + QuoteBody(s) + "\""
    ensures var (tok, next) := Lex(src, st);
            tok == Token(StringLit, Text(s), "", st.line) && next == After(st, StringLit, st.pos + |QuoteBody(s)| + 2)
  {
    hide *;
    var p, q := st.pos, QuoteBody(s);
    InsideQuotes(src, p, q);
    LexAtQuote(src, st);
    QuotedBodyIsRead(src, p + 1, s);
    CStringOfBytes(s);
    LexStringIs(src, st, Scan(s, p + 1 + |q|));
    ClosingQuote(src, p + 1 + |q|);
  }

  lemma LexAtQuote(src: string, st: State)
    requires st.pos < |src| && src[st.pos] == '"'
    ensures Lex(src, st) == LexString(src, st)
  {
    hide SkipGap, LexString, LexWord, LexNumber, LexEre, LexOperator;
    NoGap(src, st.pos);
  }

  lemma ClosingQuote(src: string, p: nat)
    requires p < |src| && src[p] == '"'
    ensures PastClose(src, p, '"') == p + 1
  {
  }

  lemma InsideQuotes(src: string, p: nat, q: string)
    requires p + |q| + 2 <= |src| && src[p..p + |q| + 2] == "\"" + q + "\""
    ensures src[p] == '"' && src[p + 1 + |q|] == '"' && src[p + 1..p + 1 + |q|] == q
  {
    var lit := src[p..p + |q| + 2];
    assert lit[0] == '"' && lit[1 + |q|] == '"' && lit[1..1 + |q|] == q;
    assert forall k :: 0 <= k < |q| ==> src[p + 1 + k] == lit[1 + k] == q[k];
  }

  // ---------- the code ----------

  class Lexer {
    const src: string
    var pos: nat
    var line: nat
    var lastSignificant: TokType
    var parenDepth: nat
    var bracketDepth: nat
    var prevAllowsDivision: bool

    constructor (src: string)
      ensures this.src == src && St() == START
    {
      this.src := src;
      pos, line := 0, 1;
      lastSignificant := Newline;
      parenDepth, bracketDepth := 0, 0;
      prevAllowsDivision := false;
    }

    /** A copy to look ahead with. */
    constructor Clone(lx: Lexer)
      ensures src == lx.src && St() == lx.St()
    {
      src := lx.src;
      pos, line := lx.pos, lx.line;
      lastSignificant := lx.lastSignificant;
      parenDepth, bracketDepth := lx.parenDepth, lx.bracketDepth;
      prevAllowsDivision := lx.prevAllowsDivision;
    }

    function St(): State
      reads this
    {
      State(pos, line, lastSignificant, parenDepth, bracketDepth, prevAllowsDivision)
    }

    ghost predicate Valid()
      reads this
    {
      NulFree(src) && pos <= |src| + 1
    }

    function Peek(ahead: nat): char
      reads this
    {
      At(src, pos + ahead)
    }

    /** Passes over the characters that satisfy `ok`. */
    method SkipRun(ok: char -> bool)
      modifies this`pos
      ensures pos == RunEnd(src, old(pos), ok)
    {
      while pos < |src| && ok(src[pos])
        invariant RunEnd(src, pos, ok) == RunEnd(src, old(pos), ok)
        decreases |src| - pos
      {
        pos := pos + 1;
      }
    }

    method SetSignificant(t: TokType, allowsDivision: bool)
      modifies this`lastSignificant, this`prevAllowsDivision
      ensures lastSignificant == t && prevAllowsDivision == allowsDivision
    {
      lastSignificant, prevAllowsDivision := t, allowsDivision;
    }

    method SkipBlanks() returns (sawSignificantNewline: bool)
      requires Valid()
      modifies this`pos, this`line
      ensures pos == SkipGap(src, old(pos)).end && line == old(line) + SkipGap(src, old(pos)).lines
      ensures sawSignificantNewline <==> SkipGap(src, old(pos)).newline && !NewlineSuppressed(old(St()))
    {
      hide SkipGap;
      ghost var all := SkipGap(src, pos);
      ghost var seen := false;
      sawSignificantNewline := false;
      while true
        modifies this`pos, this`line
        invariant SkipGap(src, pos).end == all.end
        invariant line + SkipGap(src, pos).lines == old(line) + all.lines
        invariant seen || SkipGap(src, pos).newline <==> all.newline
        invariant sawSignificantNewline <==> seen && !NewlineSuppressed(old(St()))
        decreases |src| - pos
      {
        GapStep(src, pos);
        var c := Peek(0);
        if c == '\0' {
          return;
        }
        if c == '\\' && Peek(1) == '\n' {
          pos := pos + 2;
          line := line + 1;
          continue;
        }
        if c == '\\' && Peek(1) == '\r' && Peek(2) == '\n' {
          pos := pos + 3;
          line := line + 1;
          continue;
        }
        if c == ' ' || c == '\t' || c == '\r' {
          pos := pos + 1;
          continue;
        }
        if c == '#' {
          SkipRun(NotNewline);
          continue;
        }
        if c == '\n' {
          if !sawSignificantNewline && !NewlineSuppressed(St()) {
            sawSignificantNewline := true;
          }
          seen := true;
          pos := pos + 1;
          line := line + 1;
          continue;
        }
        return;
      }
    }

    method TakeWord() returns (name: string)
      requires pos <= |src|
      modifies this`pos
      ensures pos == RunEnd(src, old(pos), InWord) && name == src[old(pos)..pos]
    {
      var start := pos;
      SkipRun(InWord);
      name := src[start..pos];
    }

    method ScanWord() returns (tok: Token)
      requires pos < |src| && StartsWord(src[pos])
      modifies this
      ensures (tok, St()) == LexWord(src, old(St()))
    {
      hide WordType, WordText, AllowsDivision, After, RunEnd, StartsWord;
      var name := TakeWord();
      var call := Peek(0) == '(';
      var t := WordType(name, call);
      AfterWord(old(St()), name, call, pos);
      SetSignificant(t, AllowsDivision(t));
      return Token(t, WordText(t, name), "", line);
    }

    method ScanExponent()
      requires pos <= |src|
      modifies this`pos
      ensures pos == ExponentEnd(src, old(pos))
    {
      if Peek(0) == 'e' || Peek(0) == 'E' {
        var save := pos;
        pos := pos + 1;
        if Peek(0) == '+' || Peek(0) == '-' {
          pos := pos + 1;
        }
        if IsDigit(Peek(0)) {
          SkipRun(IsDigit);
        } else {
          pos := save;
        }
      }
    }

    method SkipNumber()
      requires pos < |src| && StartsNumber(src, pos)
      modifies this`pos
      ensures pos == NumberEnd(src, old(pos))
    {
      hide ExponentEnd;
      if src[pos] == '0' && (Peek(1) == 'x' || Peek(1) == 'X') {
        pos := pos + 2;
        SkipRun(IsHex);
        return;
      }
      SkipRun(IsDigit);
      if Peek(0) == '.' {
        pos := pos + 1;
        SkipRun(IsDigit);
      }
      ScanExponent();
    }

    method ScanNumber() returns (tok: Token)
      requires pos < |src| && StartsNumber(src, pos)
      modifies this
      ensures (tok, St()) == LexNumber(src, old(St()))
    {
      hide NumberEnd, AllowsDivision, After;
      LiteralsAllowDivision();
      var start := pos;
      SkipNumber();
      AfterPlain(old(St()), Number, pos);
      SetSignificant(Number, true);
      return Token(Number, NoText, src[start..pos], line);
    }

    /** Up to three octal digits. */
    method ScanOctal() returns (val: int)
      requires pos < |src| && IsOctal(src[pos])
      modifies this`pos
      ensures pos == OctalEnd(src, old(pos)) && val == OctalValue(src[old(pos)..pos])
    {
      hide OctalValue;
      var start := pos;
      val := src[pos] as int - '0' as int;
      OctalOne(src[pos]);
      pos := pos + 1;
      assert src[start..pos] == [src[start]];
      var i := 0;
      while i < 2 && IsOctal(Peek(0))
        invariant i <= 2 && pos == start + 1 + i && pos <= |src|
        invariant val == OctalValue(src[start..pos])
        invariant forall k :: start <= k < pos ==> IsOctal(src[k])
      {
        OctalMore(src[start..pos], src[pos]);
        assert src[start..pos + 1] == src[start..pos] + [src[pos]];
        val := val * 8 + (Peek(0) as int - '0' as int);
        pos := pos + 1;
        i := i + 1;
      }
    }

    /** The escape behind a backslash. */
    method ScanEscape() returns (text: string)
      requires pos < |src| && src[pos] == '\\'
      modifies this`pos
      ensures StringBody(src, old(pos)) == Prefixed(text, StringBody(src, pos))
      ensures old(pos) < pos <= |src| + 1
    {
      hide OctalValue, EscapeOf, OctalEnd, Prefixed;
      var esc := Peek(1);
      if EscapeOf(esc) == '\0' && IsOctal(esc) {
        pos := pos + 1;
        var val := ScanOctal();
        return [ByteOf(val)];
      }
      pos := pos + 2;
      if EscapeOf(esc) != '\0' {
        return [EscapeOf(esc)];
      }
      return ['\\', esc];
    }

    method PassClose(close: char)
      requires close != '\0'
      modifies this`pos
      ensures pos == PastClose(src, old(pos), close)
    {
      if Peek(0) == close {
        pos := pos + 1;
      }
    }

    method ScanStringBody() returns (buf: string)
      requires Valid() && pos <= |src|
      modifies this`pos
      ensures Valid() && StringBody(src, old(pos)) == Scan(buf, pos)
    {
      hide StringBody, Prefixed;
      buf := "";
      PrefixNothing(StringBody(src, pos));
      while Peek(0) != '\0' && Peek(0) != '"'
        invariant pos <= |src| + 1
        invariant Prefixed(buf, StringBody(src, pos)) == StringBody(src, old(pos))
        decreases |src| + 1 - pos
      {
        var text := ScanStringPart();
        PrefixTwice(buf, text, StringBody(src, pos));
        buf := buf + text;
      }
      BodyEnds(src, pos, buf);
    }

    method ScanString() returns (tok: Token)
      requires Valid() && pos < |src| && src[pos] == '"'
      modifies this
      ensures (tok, St()) == LexString(src, old(St()))
    {
      hide StringBody, CString, PastClose, AllowsDivision, After;
      LiteralsAllowDivision();
      pos := pos + 1;
      var buf := ScanStringBody();
      PassClose('"');
      AfterPlain(old(St()), StringLit, pos);
      SetSignificant(StringLit, true);
      return Token(StringLit, Text(CString(buf)), "", line);
    }

    /** One character of the literal, or one escape. */
    method ScanStringPart() returns (text: string)
      requires pos < |src| && src[pos] != '"'
      modifies this`pos
      ensures StringBody(src, old(pos)) == Prefixed(text, StringBody(src, pos))
      ensures old(pos) < pos <= |src| + 1
    {
      hide StringBody;
      var ch := Peek(0);
      if ch == '\\' {
        text := ScanEscape();
      } else {
        PlainIsRead(src, pos);
        text := [ch];
        pos := pos + 1;
      }
    }

    method ScanEreBody() returns (buf: string)
      requires Valid() && pos <= |src|
      modifies this`pos
      ensures Valid() && pos == EreEnd(src, old(pos), false) && buf == src[old(pos)..pos]
    {
      hide EreStep, EreBracket;
      buf := "";
      var start := pos;
      var inBracket := false;
      while Peek(0) != '\0'
        invariant start <= pos <= |src| && buf == src[start..pos]
        invariant EreEnd(src, pos, inBracket) == EreEnd(src, start, false)
        decreases |src| - pos
      {
        var ch := Peek(0);
        if (ch == '/' && !inBracket) || ch == '\n' {
          break;
        }
        var text;
        text, inBracket := ScanErePart(inBracket);
        buf := buf + text;
      }
    }

    method ScanEre() returns (tok: Token)
      requires Valid() && pos < |src| && src[pos] == '/'
      modifies this
      ensures (tok, St()) == LexEre(src, old(St()))
    {
      hide EreEnd, PastClose, AllowsDivision, After;
      LiteralsAllowDivision();
      pos := pos + 1;
      var buf := ScanEreBody();
      PassClose('/');
      AfterPlain(old(St()), Ere, pos);
      SetSignificant(Ere, true);
      return Token(Ere, Text(buf), "", line);
    }

    /** One character of the pattern, an escaped one, or the start of a bracket. */
    method ScanErePart(inBracket: bool) returns (text: string, bracket: bool)
      requires pos < |src|
      modifies this`pos
      ensures pos == EreStep(src, old(pos), inBracket) && bracket == EreBracket(src, old(pos), inBracket)
      ensures text == src[old(pos)..pos]
    {
      var ch := Peek(0);
      bracket := inBracket;
      text := TakeChar();
      if ch == '\\' {
        if pos < |src| {
          var escaped := TakeChar();
          text := text + escaped;
        }
        return;
      }
      if ch == '[' && !inBracket {
        bracket := true;
        if Peek(0) == '^' {
          var caret := TakeChar();
          text := text + caret;
        }
        if Peek(0) == ']' {
          var close := TakeChar();
          text := text + close;
        }
        return;
      }
      if ch == ']' && inBracket {
        bracket := false;
      }
    }

    method TakeChar() returns (text: string)
      requires pos < |src|
      modifies this`pos
      ensures pos == old(pos) + 1 && text == src[old(pos)..pos]
    {
      text := [src[pos]];
      pos := pos + 1;
    }

    method TrackDepth(t: TokType)
      modifies this`parenDepth, this`bracketDepth
      ensures parenDepth == Depth(old(parenDepth), t, LParen, RParen)
      ensures bracketDepth == Depth(old(bracketDepth), t, LBracket, RBracket)
    {
      if t == LParen {
        parenDepth := parenDepth + 1;
      } else if t == RParen && parenDepth > 0 {
        parenDepth := parenDepth - 1;
      } else if t == LBracket {
        bracketDepth := bracketDepth + 1;
      } else if t == RBracket && bracketDepth > 0 {
        bracketDepth := bracketDepth - 1;
      }
    }

    method ScanOperator() returns (tok: Token)
      requires pos < |src|
      modifies this
      ensures (tok, St()) == LexOperator(src, old(St()))
    {
      hide Operator, AllowsDivision, Depth, After;
      ghost var st := St();
      var op := Operator(Peek(0), Peek(1));
      if op.NoOp? {
        pos := pos + 1;
        return Token(EndOfFile, NoText, "", line);
      }
      pos := pos + op.len;
      AfterIs(st, op.typ, pos);
      TrackDepth(op.typ);
      SetSignificant(op.typ, AllowsDivision(op.typ));
      return Token(op.typ, NoText, "", line);
    }

    method Next() returns (tok: Token)
      requires Valid()
      modifies this
      ensures Valid() && (tok, St()) == Lex(src, old(St()))
    {
      hide LexWord, LexNumber, LexString, LexEre, LexOperator, SkipGap, NewlineSuppressed, After, StartsWord, StartsNumber;
      LexMovesOn(src, St());
      var sawSignificantNewline := SkipBlanks();
      if sawSignificantNewline {
        AfterNewline(St(), pos);
        SetSignificant(Newline, false);
        return Token(Newline, NoText, "", line);
      }
      var c := Peek(0);
      if c == '\0' {
        return Token(EndOfFile, NoText, "", line);
      }
      if StartsWord(c) {
        tok := ScanWord();
      } else if StartsNumber(src, pos) {
        tok := ScanNumber();
      } else if c == '"' {
        tok := ScanString();
      } else if c == '/' && !prevAllowsDivision {
        tok := ScanEre();
      } else {
        tok := ScanOperator();
      }
    }
  }

  lemma AfterNewline(st: State, pos: nat)
    ensures After(st, Newline, pos) == st.(pos := pos, last := Newline, division := false)
  {
  }

  lemma LexStringIs(src: string, st: State, body: Scan)
    requires st.pos < |src| && StringBody(src, st.pos + 1) == body
    ensures LexString(src, st) == (Token(StringLit, Text(CString(body.text)), "", st.line),
                                   After(st, StringLit, PastClose(src, body.end, '"')))
  {
    hide StringBody, CString, PastClose, After;
  }

  /** After a token that is no parenthesis the depths stay. */
  lemma AfterPlain(st: State, t: TokType, pos: nat)
    requires t !in {LParen, RParen, LBracket, RBracket}
    ensures After(st, t, pos) == State(pos, st.line, t, st.paren, st.bracket, AllowsDivision(t))
  {
    hide AllowsDivision;
  }

  lemma AfterIs(st: State, t: TokType, pos: nat)
    ensures After(st, t, pos)
         == State(pos, st.line, t, Depth(st.paren, t, LParen, RParen), Depth(st.bracket, t, LBracket, RBracket), AllowsDivision(t))
  {
  }

  lemma AfterWord(st: State, name: string, call: bool, pos: nat)
    ensures var t := WordType(name, call);
            After(st, t, pos) == State(pos, st.line, t, st.paren, st.bracket, AllowsDivision(t))
  {
    hide WordType, AllowsDivision, After;
    WordTypeIs(name, call);
    AfterPlain(st, WordType(name, call), pos);
  }

  lemma LiteralsAllowDivision()
    ensures AllowsDivision(StringLit) && AllowsDivision(Ere) && AllowsDivision(Number)
  {
  }

  lemma PrefixNothing(r: Scan)
    ensures Prefixed("", r) == r
  {
    assert "" + r.text == r.text;
  }

  lemma PrefixTwice(x: string, y: string, r: Scan)
    ensures Prefixed(x, Prefixed(y, r)) == Prefixed(x + y, r)
  {
    assert x + (y + r.text) == (x + y) + r.text;
  }

  lemma BodyEnds(src: string, p: nat, buf: string)
    requires p >= |src| || src[p] == '"'
    ensures Prefixed(buf, StringBody(src, p)) == Scan(buf, p)
  {
    assert buf + "" == buf;
  }

  lemma OctalOne(c: char)
    ensures OctalValue([c]) == c as int - '0' as int
  {
    assert [c][..0] == [];
  }

  lemma OctalMore(digits: string, c: char)
    ensures OctalValue(digits + [c]) == OctalValue(digits) * 8 + (c as int - '0' as int)
  {
    assert (digits + [c])[..|digits|] == digits;
  }
}
