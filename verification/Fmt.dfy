/** fmt: greedy filling of paragraphs (src/fmt_app.c). */
module Fmt {
  import opened Lines
  import opened Sequences
  import opened Strings
  import opened Wrappers

  type Word = string

  // ---------- layouts ----------

  /** The width of a line of words with one blank between neighbours. */
  function LineWidth(line: seq<Word>): nat {
    if line == [] then 0
    else if |line| == 1 then |line[0]|
    else LineWidth(line[..|line| - 1]) + 1 + |line[|line| - 1]|
  }

  function Flatten(lines: seq<seq<Word>>): seq<Word> {
    if lines == [] then [] else Flatten(lines[..|lines| - 1]) + lines[|lines| - 1]
  }

  /** A line holds at least one word, and only a single word may be too wide. */
  predicate LineFits(line: seq<Word>, width: nat) {
    line != [] && (|line| > 1 ==> LineWidth(line) <= width)
  }

  /** A way of breaking `words`, in order, into lines. */
  ghost predicate Layout(lines: seq<seq<Word>>, words: seq<Word>, width: nat) {
    Flatten(lines) == words && forall k :: 0 <= k < |lines| ==> LineFits(lines[k], width)
  }

  /** A word goes on the current line if it fits, else on a new one. */
  function Place(g: seq<seq<Word>>, w: Word, width: nat): seq<seq<Word>> {
    if g == [] then [[w]]
    else
      var last := g[|g| - 1];
      if LineWidth(last) + 1 + |w| <= width then g[..|g| - 1] + [last + [w]]
      else g + [[w]]
  }

  /** The layout of the greedy loop. */
  function Greedy(words: seq<Word>, width: nat): seq<seq<Word>> {
    if words == [] then [] else Place(Greedy(words[..|words| - 1], width), words[|words| - 1], width)
  }

  lemma FlattenLonger(lines: seq<seq<Word>>, line: seq<Word>)
    ensures Flatten(lines + [line]) == Flatten(lines) + line
  {
    assert (lines + [line])[..|lines|] == lines;
  }

  lemma WidthLonger(line: seq<Word>, w: Word)
    requires line != []
    ensures LineWidth(line + [w]) == LineWidth(line) + 1 + |w|
  {
    assert (line + [w])[..|line|] == line;
  }

  /** Greedy keeps the words in order and breaks the width only for single words. */
  lemma {:induction false} GreedyIsLayout(words: seq<Word>, width: nat)
    ensures Layout(Greedy(words, width), words, width)
  {
    if words != [] {
      var front, w := words[..|words| - 1], words[|words| - 1];
      GreedyIsLayout(front, width);
      var g := Greedy(front, width);
      assert front + [w] == words;
      if g == [] {
        FlattenLonger([], [w]);
      } else {
        var last := g[|g| - 1];
        FlattenLonger(g[..|g| - 1], last);
        FlattenLonger(g[..|g| - 1], last + [w]);
        FlattenLonger(g, [w]);
        WidthLonger(last, w);
        assert g == g[..|g| - 1] + [last];
      }
    }
  }

  /** The layout of all words but the last that another layout contains. */
  lemma DropLastWord(lines: seq<seq<Word>>, words: seq<Word>, width: nat) returns (shorter: seq<seq<Word>>)
    requires Layout(lines, words, width) && words != []
    ensures lines != []
    ensures Layout(shorter, words[..|words| - 1], width)
    ensures var last := lines[|lines| - 1];
            && last[|last| - 1] == words[|words| - 1]
            && if |last| == 1 then shorter == lines[..|lines| - 1]
               else shorter == lines[..|lines| - 1] + [last[..|last| - 1]]
                    && LineWidth(last) == LineWidth(last[..|last| - 1]) + 1 + |words[|words| - 1]|
  {
    var init, last := lines[..|lines| - 1], lines[|lines| - 1];
    assert LineFits(last, width);
    var cut := last[..|last| - 1];
    assert words[..|words| - 1] == Flatten(init) + cut;
    if |last| == 1 {
      shorter := init;
    } else {
      shorter := init + [cut];
      FlattenLonger(init, cut);
      WidthLonger(cut, last[|last| - 1]);
      assert cut + [last[|last| - 1]] == last;
    }
  }

  /** Greedy stays ahead: fewer lines, or as many with a last line no wider. */
  lemma {:induction false} GreedyStaysAhead(words: seq<Word>, width: nat, lines: seq<seq<Word>>)
    requires Layout(lines, words, width)
    ensures var g := Greedy(words, width);
            && |g| <= |lines|
            && (|g| == |lines| > 0 ==> LineWidth(g[|g| - 1]) <= LineWidth(lines[|lines| - 1]))
    decreases |words|
  {
    if words != [] {
      var front, w := words[..|words| - 1], words[|words| - 1];
      var shorter := DropLastWord(lines, words, width);
      GreedyStaysAhead(front, width, shorter);
      var g, last := Greedy(front, width), lines[|lines| - 1];
      assert LineFits(last, width);
      if g != [] {
        GreedyIsLayout(front, width);
        assert LineFits(g[|g| - 1], width);
        WidthLonger(g[|g| - 1], w);
      }
    }
  }

  /** No layout of the words uses fewer lines than the greedy one. */
  lemma GreedyIsOptimal(words: seq<Word>, width: nat)
    ensures Layout(Greedy(words, width), words, width)
    ensures forall lines :: Layout(lines, words, width) ==> |Greedy(words, width)| <= |lines|
  {
    GreedyIsLayout(words, width);
    forall lines | Layout(lines, words, width)
      ensures |Greedy(words, width)| <= |lines|
    {
      GreedyStaysAhead(words, width, lines);
    }
  }

  // ---------- text ----------

  function JoinWords(line: seq<Word>): string {
    if line == [] then ""
    else if |line| == 1 then line[0]
    else JoinWords(line[..|line| - 1]) + " " + line[|line| - 1]
  }

  function Rendered(lines: seq<seq<Word>>): (r: seq<string>)
    ensures |r| == |lines|
  {
    if lines == [] then [] else Rendered(lines[..|lines| - 1]) + [JoinWords(lines[|lines| - 1])]
  }

  lemma {:induction false} WidthOfJoined(line: seq<Word>)
    ensures |JoinWords(line)| == LineWidth(line)
  {
    if |line| > 1 {
      WidthOfJoined(line[..|line| - 1]);
    }
  }

  predicate IsBlank(line: string) {
    forall k :: 0 <= k < |line| ==> IsSpace(line[k])
  }

  predicate IsSeparator(c: char) {
    c == ' ' || c == '\t'
  }

  /** The length of the word a string begins with. */
  function WordEnd(s: string): (n: nat)
    ensures n <= |s| && forall k :: 0 <= k < n ==> !IsSeparator(s[k])
    ensures n < |s| ==> IsSeparator(s[n])
  {
    if s == [] || IsSeparator(s[0]) then 0 else 1 + WordEnd(s[1..])
  }

  /** The words strtok cuts out of a line; its separators are fewer than isspace's. */
  function Tokens(s: string): seq<Word>
    decreases |s|
  {
    if s == [] then []
    else if IsSeparator(s[0]) then Tokens(s[1..])
    else [s[..WordEnd(s)]] + Tokens(s[WordEnd(s)..])
  }

  predicate PlainWord(w: Word) {
    w != [] && forall k :: 0 <= k < |w| ==> !IsSeparator(w[k])
  }

  predicate VisibleWord(w: Word) {
    PlainWord(w) && !IsBlank(w)
  }

  predicate AllPlain(words: seq<Word>) {
    forall k :: 0 <= k < |words| ==> PlainWord(words[k])
  }

  predicate AllVisible(words: seq<Word>) {
    forall k :: 0 <= k < |words| ==> VisibleWord(words[k])
  }

  lemma {:induction false} TokensArePlain(s: string)
    ensures AllPlain(Tokens(s))
    decreases |s|
  {
    if s != [] {
      if IsSeparator(s[0]) {
        TokensArePlain(s[1..]);
      } else {
        TokensArePlain(s[WordEnd(s)..]);
      }
    }
  }

  lemma {:induction false} WordEndBefore(s: string, t: string)
    requires t != [] && IsSeparator(t[0])
    ensures WordEnd(s + t) == WordEnd(s)
  {
    if s == [] {
      assert s + t == t;
    } else if !IsSeparator(s[0]) {
      WordEndBefore(s[1..], t);
      assert (s + t)[1..] == s[1..] + t;
    }
  }

  lemma {:induction false} TokensOfTwo(s: string, t: string)
    ensures Tokens(s + " " + t) == Tokens(s) + Tokens(t)
    decreases |s|
  {
    var u := s + " " + t;
    if s == [] {
      assert u[1..] == t;
    } else if IsSeparator(s[0]) {
      assert u[1..] == s[1..] + " " + t;
      TokensOfTwo(s[1..], t);
    } else {
      var n := WordEnd(s);
      assert u == s + (" " + t);
      WordEndBefore(s, " " + t);
      assert u[..n] == s[..n] && u[n..] == s[n..] + " " + t;
      TokensOfTwo(s[n..], t);
    }
  }

  lemma {:induction false} WordEndWhole(w: Word)
    requires forall k :: 0 <= k < |w| ==> !IsSeparator(w[k])
    ensures WordEnd(w) == |w|
  {
    if w != [] {
      WordEndWhole(w[1..]);
    }
  }

  lemma TokensOfWord(w: Word)
    requires PlainWord(w)
    ensures Tokens(w) == [w]
  {
    WordEndWhole(w);
    assert w[..|w|] == w && w[|w|..] == [];
  }

  /** A rendered line splits into the words it was made of. */
  lemma {:induction false} TokensOfJoined(line: seq<Word>)
    requires AllPlain(line)
    ensures Tokens(JoinWords(line)) == line
  {
    if line != [] {
      var front, w := line[..|line| - 1], line[|line| - 1];
      TokensOfWord(w);
      assert line == front + [w];
      if front != [] {
        TokensOfJoined(front);
        TokensOfTwo(JoinWords(front), w);
      }
    }
  }

  lemma JoinedVisible(line: seq<Word>)
    requires line != [] && AllVisible(line)
    ensures !IsBlank(JoinWords(line))
  {
    var w, joined := line[|line| - 1], JoinWords(line);
    var k :| 0 <= k < |w| && !IsSpace(w[k]);
    assert joined[|joined| - |w|..] == w;
    assert joined[|joined| - |w| + k] == w[k];
  }

  // ---------- the whole stream ----------

  /** The output lines of one paragraph. */
  function Paragraph(words: seq<Word>, width: nat): seq<string> {
    Rendered(Greedy(words, width))
  }

  /** The output lines for the lines still to come, given the words collected so far. */
  function Format(lines: seq<string>, pending: seq<Word>, width: nat): seq<string> {
    if lines == [] then Paragraph(pending, width)
    else if IsBlank(lines[0]) then Paragraph(pending, width) + [""] + Format(lines[1..], [], width)
    else Format(lines[1..], pending + Tokens(lines[0]), width)
  }

  /** The words of the lines that are not blank. */
  function InputWords(lines: seq<string>): seq<Word> {
    if lines == [] then []
    else (if IsBlank(lines[0]) then [] else Tokens(lines[0])) + InputWords(lines[1..])
  }

  function OutputWords(lines: seq<string>): seq<Word> {
    if lines == [] then [] else OutputWords(lines[..|lines| - 1]) + Tokens(lines[|lines| - 1])
  }

  lemma {:induction false} OutputWordsOfTwo(s: seq<string>, t: seq<string>)
    ensures OutputWords(s + t) == OutputWords(s) + OutputWords(t)
  {
    if t == [] {
      assert s + t == s;
    } else {
      OutputWordsOfTwo(s, t[..|t| - 1]);
      assert (s + t)[..|s + t| - 1] == s + t[..|t| - 1];
    }
  }

  lemma {:induction false} WordsOfRendered(lines: seq<seq<Word>>)
    requires AllPlain(Flatten(lines))
    ensures OutputWords(Rendered(lines)) == Flatten(lines)
  {
    if lines != [] {
      var front, last := lines[..|lines| - 1], lines[|lines| - 1];
      assert Flatten(lines) == Flatten(front) + last;
      assert AllPlain(Flatten(front)) by {
        assert forall k :: 0 <= k < |Flatten(front)| ==> Flatten(lines)[k] == Flatten(front)[k];
      }
      assert AllPlain(last) by {
        assert forall k :: 0 <= k < |last| ==> Flatten(lines)[|Flatten(front)| + k] == last[k];
      }
      WordsOfRendered(front);
      TokensOfJoined(last);
      assert Rendered(lines)[..|lines| - 1] == Rendered(front);
    }
  }

  lemma NoWordsInEmptyLine()
    ensures OutputWords([""]) == []
  {
    assert Tokens("") == [];
  }

  /** No word is lost, added or moved, whatever the paragraphs. */
  lemma {:induction false} FormatKeepsWords(lines: seq<string>, pending: seq<Word>, width: nat)
    requires AllPlain(pending)
    ensures OutputWords(Format(lines, pending, width)) == pending + InputWords(lines)
  {
    hide Greedy, Rendered, Tokens, IsBlank, PlainWord;
    GreedyIsLayout(pending, width);
    WordsOfRendered(Greedy(pending, width));
    if lines != [] {
      TokensArePlain(lines[0]);
      if IsBlank(lines[0]) {
        FormatKeepsWords(lines[1..], [], width);
        OutputWordsOfTwo(Paragraph(pending, width) + [""], Format(lines[1..], [], width));
        OutputWordsOfTwo(Paragraph(pending, width), [""]);
        NoWordsInEmptyLine();
      } else {
        FormatKeepsWords(lines[1..], pending + Tokens(lines[0]), width);
      }
    }
  }

  /** The lines up to a blank one are set as one paragraph, and the blank one stays. */
  lemma {:induction false} ParagraphsApart(x: seq<string>, blank: string, rest: seq<string>, pending: seq<Word>, width: nat)
    requires forall k :: 0 <= k < |x| ==> !IsBlank(x[k])
    requires forall k :: 0 <= k < |blank| ==> IsSpace(blank[k])
    ensures Format(x + ([blank] + rest), pending, width)
         == Rendered(Greedy(pending + InputWords(x), width)) + [""] + Format(rest, [], width)
    ensures Format(x, pending, width) == Rendered(Greedy(pending + InputWords(x), width))
  {
    hide Greedy, Rendered, Tokens;
    var all := x + ([blank] + rest);
    if x == [] {
      assert all == [blank] + rest && all[1..] == rest;
      assert pending + InputWords(x) == pending;
    } else {
      assert all[0] == x[0] && all[1..] == x[1..] + ([blank] + rest);
      ParagraphsApart(x[1..], blank, rest, pending + Tokens(x[0]), width);
      Regroup(pending, Tokens(x[0]), InputWords(x[1..]));
    }
  }

  // ---------- formatting twice ----------

  lemma {:induction false} RenderedAt(lines: seq<seq<Word>>, k: nat)
    requires k < |lines|
    ensures Rendered(lines)[k] == JoinWords(lines[k])
  {
    if k < |lines| - 1 {
      RenderedAt(lines[..|lines| - 1], k);
    }
  }

  lemma {:induction false} WordsOfLine(lines: seq<seq<Word>>, k: nat)
    requires k < |lines|
    ensures forall w :: w in lines[k] ==> w in Flatten(lines)
  {
    if k < |lines| - 1 {
      WordsOfLine(lines[..|lines| - 1], k);
    }
  }

  /** A line of the output is made of words of the input, at least one. */
  ghost predicate MadeOf(text: string, words: seq<Word>) {
    exists line: seq<Word> :: line != [] && text == JoinWords(line) && forall w :: w in line ==> w in words
  }

  lemma SomeWords(line: seq<Word>, words: seq<Word>)
    requires forall w :: w in line ==> w in words
    ensures AllPlain(words) ==> AllPlain(line)
    ensures AllVisible(words) ==> AllVisible(line)
  {
    hide PlainWord, VisibleWord;
    assert forall k :: 0 <= k < |line| ==> line[k] in line;
  }

  lemma ParagraphLines(words: seq<Word>, width: nat, k: nat)
    requires k < |Paragraph(words, width)|
    ensures MadeOf(Paragraph(words, width)[k], words)
  {
    var g := Greedy(words, width);
    GreedyIsLayout(words, width);
    RenderedAt(g, k);
    WordsOfLine(g, k);
    assert LineFits(g[k], width);
  }

  lemma {:induction false} FormatLines(lines: seq<string>, pending: seq<Word>, width: nat, k: nat)
    requires k < |Format(lines, pending, width)|
    ensures var text := Format(lines, pending, width)[k]; text == "" || MadeOf(text, pending + InputWords(lines))
    decreases |lines|
  {
    hide Paragraph, Tokens, IsBlank;
    var first := Paragraph(pending, width);
    if (lines == [] || IsBlank(lines[0])) && k < |first| {
      ParagraphLines(pending, width, k);
    } else if !IsBlank(lines[0]) {
      FormatLines(lines[1..], pending + Tokens(lines[0]), width, k);
      assert pending + Tokens(lines[0]) + InputWords(lines[1..]) == pending + InputWords(lines);
    } else if k > |first| {
      FormatLines(lines[1..], [], width, k - |first| - 1);
    }
  }

  lemma {:induction false} InputIsPlain(lines: seq<string>)
    ensures AllPlain(InputWords(lines))
  {
    if lines != [] {
      TokensArePlain(lines[0]);
      InputIsPlain(lines[1..]);
    }
  }

  /** No line looks blank and yet holds something. */
  predicate NoHiddenWords(lines: seq<string>) {
    forall k :: 0 <= k < |lines| ==> lines[k] == "" || !IsBlank(lines[k])
  }

  lemma {:induction false} FormatRendered(lines: seq<seq<Word>>, rest: seq<string>, pending: seq<Word>, width: nat)
    requires AllPlain(Flatten(lines)) && forall k :: 0 <= k < |lines| ==> !IsBlank(JoinWords(lines[k]))
    ensures Format(Rendered(lines) + rest, pending, width) == Format(rest, pending + Flatten(lines), width)
    decreases |lines|
  {
    if lines == [] {
      assert Rendered(lines) + rest == rest && pending + Flatten(lines) == pending;
    } else {
      var front, last := lines[..|lines| - 1], lines[|lines| - 1];
      var text := JoinWords(last);
      assert Flatten(lines) == Flatten(front) + last;
      assert AllPlain(Flatten(front)) by {
        assert forall k :: 0 <= k < |Flatten(front)| ==> Flatten(lines)[k] == Flatten(front)[k];
      }
      assert AllPlain(last) by {
        assert forall k :: 0 <= k < |last| ==> Flatten(lines)[|Flatten(front)| + k] == last[k];
      }
      assert Rendered(lines) + rest == Rendered(front) + ([text] + rest);
      FormatRendered(front, [text] + rest, pending, width);
      TokensOfJoined(last);
      assert ([text] + rest)[1..] == rest;
      assert pending + Flatten(front) + last == pending + Flatten(lines);
    }
  }

  lemma JoinedNotEmpty(line: seq<Word>)
    requires line != [] && AllPlain(line)
    ensures JoinWords(line) != "" && Tokens(JoinWords(line)) != []
  {
    TokensOfJoined(line);
    assert Tokens("") == [];
  }

  /** The lines of a paragraph are read back as the paragraph's words. */
  lemma ParagraphAgain(words: seq<Word>, rest: seq<string>, width: nat)
    requires AllPlain(words) && NoHiddenWords(Paragraph(words, width))
    ensures Format(Paragraph(words, width) + rest, [], width) == Format(rest, words, width)
  {
    GreedyIsLayout(words, width);
    var g := Greedy(words, width);
    forall k | 0 <= k < |g|
      ensures !IsBlank(JoinWords(g[k]))
    {
      RenderedAt(g, k);
      WordsOfLine(g, k);
      assert LineFits(g[k], width);
      SomeWords(g[k], words);
      JoinedNotEmpty(g[k]);
      assert Paragraph(words, width)[k] == JoinWords(g[k]);
    }
    FormatRendered(g, rest, [], width);
    assert [] + Flatten(g) == words;
  }

  lemma {:induction false} SettledIsKept(lines: seq<string>, pending: seq<Word>, width: nat)
    requires AllPlain(pending) && NoHiddenWords(Format(lines, pending, width))
    ensures Format(Format(lines, pending, width), [], width) == Format(lines, pending, width)
  {
    hide Paragraph, Tokens, PlainWord;
    var first := Paragraph(pending, width);
    if lines == [] {
      ParagraphAgain(pending, [], width);
      assert first + [] == first;
    } else if IsBlank(lines[0]) {
      var tail := Format(lines[1..], [], width);
      var out := first + [""] + tail;
      assert NoHiddenWords(first) by {
        assert forall k :: 0 <= k < |first| ==> out[k] == first[k];
      }
      assert NoHiddenWords(tail) by {
        assert forall k :: 0 <= k < |tail| ==> out[|first| + 1 + k] == tail[k];
      }
      ParagraphAgain(pending, [""] + tail, width);
      assert out == first + ([""] + tail) && ([""] + tail)[1..] == tail;
      SettledIsKept(lines[1..], [], width);
    } else {
      TokensArePlain(lines[0]);
      SettledIsKept(lines[1..], pending + Tokens(lines[0]), width);
    }
  }

  /** The words of a line that looks blank are in the output and not in the input. */
  lemma {:induction false} HiddenWordsCount(lines: seq<string>)
    ensures |InputWords(lines)| <= |OutputWords(lines)|
    ensures |InputWords(lines)| == |OutputWords(lines)| ==>
              forall k :: 0 <= k < |lines| && IsBlank(lines[k]) ==> Tokens(lines[k]) == []
  {
    hide IsBlank, Tokens;
    if lines != [] {
      HiddenWordsCount(lines[1..]);
      assert lines == [lines[0]] + lines[1..];
      OutputWordsOfTwo([lines[0]], lines[1..]);
      assert OutputWords([lines[0]]) == Tokens(lines[0]) by {
        assert OutputWords([]) == [];
      }
    }
  }

  lemma KeptHasNothingHidden(lines: seq<string>, width: nat)
    requires Format(Format(lines, [], width), [], width) == Format(lines, [], width)
    ensures NoHiddenWords(Format(lines, [], width))
  {
    hide *;
    var out := Format(lines, [], width);
    NoPending();
    FormatKeepsWords(out, [], width);
    HiddenWordsCount(out);
    InputIsPlain(lines);
    forall k | 0 <= k < |out|
      ensures out[k] == "" || !IsBlank(out[k])
    {
      FormatLines(lines, [], width, k);
      if out[k] != "" {
        HasWords(out[k], [] + InputWords(lines));
      }
    }
    NothingHidden(out);
  }

  lemma NoPending()
    ensures AllPlain([]) && forall words: seq<Word> :: [] + words == words
  {
  }

  lemma HasWords(text: string, words: seq<Word>)
    requires MadeOf(text, words) && AllPlain(words)
    ensures Tokens(text) != []
  {
    hide AllPlain, Tokens, JoinWords;
    var line: seq<Word> :| line != [] && text == JoinWords(line) && forall w :: w in line ==> w in words;
    SomeWords(line, words);
    JoinedNotEmpty(line);
  }

  lemma NothingHidden(lines: seq<string>)
    requires forall k :: 0 <= k < |lines| ==> lines[k] == "" || !IsBlank(lines[k])
    ensures NoHiddenWords(lines)
  {
    hide IsBlank;
  }

  /** Exactly when formatting twice is formatting once, width by width. */
  lemma IdempotentIffNothingHidden(lines: seq<string>, width: nat)
    ensures Format(Format(lines, [], width), [], width) == Format(lines, [], width)
            <==> NoHiddenWords(Format(lines, [], width))
  {
    hide *;
    if NoHiddenWords(Format(lines, [], width)) {
      NoPending();
      SettledIsKept(lines, [], width);
    } else if Format(Format(lines, [], width), [], width) == Format(lines, [], width) {
      KeptHasNothingHidden(lines, width);
    }
  }

  /** At width 1 every word has a line of its own. */
  lemma {:induction false} GreedyNarrow(words: seq<Word>)
    requires AllPlain(words)
    ensures Greedy(words, 1) == seq(|words|, i requires 0 <= i < |words| => [words[i]])
  {
    if words != [] {
      var front, w := words[..|words| - 1], words[|words| - 1];
      GreedyNarrow(front);
      assert w != [];
      if front != [] {
        assert front[|front| - 1] == words[|words| - 2];
      }
    }
  }

  lemma ParagraphNarrow(words: seq<Word>)
    requires AllPlain(words)
    ensures Paragraph(words, 1) == words
  {
    GreedyNarrow(words);
    var g := Greedy(words, 1);
    forall k | 0 <= k < |words|
      ensures Rendered(g)[k] == words[k]
    {
      RenderedAt(g, k);
    }
  }

  lemma {:induction false} FormatNarrow(lines: seq<string>, pending: seq<Word>)
    requires AllPlain(pending)
    ensures forall w :: w in pending + InputWords(lines) ==> w in Format(lines, pending, 1)
  {
    hide Tokens, PlainWord, IsBlank, Paragraph;
    ParagraphNarrow(pending);
    if lines != [] {
      if IsBlank(lines[0]) {
        FormatNarrow(lines[1..], []);
      } else {
        TokensArePlain(lines[0]);
        FormatNarrow(lines[1..], pending + Tokens(lines[0]));
      }
    }
  }

  /** Formatting formatted text changes nothing when every word can be seen. */
  lemma FormatIsIdempotent(lines: seq<string>, width: nat)
    requires AllVisible(InputWords(lines))
    ensures Format(Format(lines, [], width), [], width) == Format(lines, [], width)
  {
    hide Format, IsBlank;
    var out := Format(lines, [], width);
    forall k | 0 <= k < |out|
      ensures out[k] == "" || !IsBlank(out[k])
    {
      FormatLines(lines, [], width, k);
      if out[k] != "" {
        var line: seq<Word> :| line != [] && out[k] == JoinWords(line) && forall w :: w in line ==> w in [] + InputWords(lines);
        assert [] + InputWords(lines) == InputWords(lines);
        SomeWords(line, InputWords(lines));
        JoinedVisible(line);
      }
    }
    IdempotentIffNothingHidden(lines, width);
  }

  /** Formatting formatted text changes nothing at any width exactly when no word
      of the input consists only of characters that isspace takes and strtok does not. */
  lemma IdempotentIffVisible(lines: seq<string>)
    ensures (forall width: nat :: width > 0 ==> Format(Format(lines, [], width), [], width) == Format(lines, [], width))
            <==> AllVisible(InputWords(lines))
  {
    hide Format, IsBlank;
    var words := InputWords(lines);
    if AllVisible(words) {
      forall width: nat | width > 0
        ensures Format(Format(lines, [], width), [], width) == Format(lines, [], width)
      {
        FormatIsIdempotent(lines, width);
      }
    } else {
      var i :| 0 <= i < |words| && !VisibleWord(words[i]);
      InputIsPlain(lines);
      FormatNarrow(lines, []);
      var out := Format(lines, [], 1);
      assert words[i] in [] + words;
      var k :| 0 <= k < |out| && out[k] == words[i];
      IdempotentIffNothingHidden(lines, 1);
    }
  }

  lemma CarriageReturnWords()
    ensures Tokens("a \r") == ["a", "\r"] && Tokens("a") == ["a"]
    ensures !IsBlank("a \r") && !IsBlank("a") && IsBlank("\r")
  {
    TokensOfWord("a");
    TokensOfWord("\r");
    assert "a \r" == "a" + " " + "\r";
    TokensOfTwo("a", "\r");
    assert "a \r"[0] == 'a' && "a"[0] == 'a';
  }

  lemma CarriageReturnParagraphs()
    ensures Paragraph(["a", "\r"], 1) == ["a", "\r"] && Paragraph(["a"], 1) == ["a"] && Paragraph([], 1) == []
  {
    hide PlainWord, IsBlank, Tokens;
    assert Greedy([], 1) == [];
    assert ["a"][..0] == [];
    assert Greedy(["a"], 1) == [["a"]];
    assert ["a", "\r"][..1] == ["a"];
    assert Greedy(["a", "\r"], 1) == [["a"], ["\r"]];
    hide Greedy;
    assert [["a"]][..0] == [] && [["a"], ["\r"]][..1] == [["a"]];
    assert Rendered([["a"]]) == ["a"];
  }

  /** An input where it fails: a carriage return alone on an output line is taken
      for a blank line the second time. */
  lemma IdempotenceNeedsVisibleWords()
    ensures Format(["a \r"], [], 1) == ["a", "\r"]
    ensures Format(["a", "\r"], [], 1) == ["a", ""]
  {
    hide Tokens, IsBlank, Paragraph;
    CarriageReturnWords();
    CarriageReturnParagraphs();
    assert [] + ["a", "\r"] == ["a", "\r"] && [] + ["a"] == ["a"];
    assert Format([], ["a", "\r"], 1) == ["a", "\r"];
    assert Format([], [], 1) == [];
    assert Format(["\r"], ["a"], 1) == ["a"] + [""] + Format([], [], 1);
    assert ["a", "\r"][1..] == ["\r"];
  }

  // ---------- the code ----------

  /** Text of a layout whose last line is still open. */
  function OpenText(lines: seq<seq<Word>>): string {
    if lines == [] then ""
    else Unlines(Rendered(lines[..|lines| - 1])) + JoinWords(lines[|lines| - 1])
  }

  lemma CloseText(lines: seq<seq<Word>>)
    requires lines != []
    ensures OpenText(lines) + "\n" == Unlines(Rendered(lines))
  {
    var front, text := Rendered(lines[..|lines| - 1]), JoinWords(lines[|lines| - 1]);
    UnlinesOfLonger(front, [text]);
    assert Unlines([text]) == text + "\n" + Unlines([]) == text + "\n";
    assert OpenText(lines) + "\n" == Unlines(front) + (text + "\n");
  }

  /** What putting one more word on the page writes. */
  lemma PlaceWrites(g: seq<seq<Word>>, w: Word, width: nat)
    requires g != [] ==> g[|g| - 1] != []
    ensures var h := Place(g, w, width);
            && h != [] && h[|h| - 1] != []
            && if g == [] then OpenText(h) == w && LineWidth(h[|h| - 1]) == |w|
               else if LineWidth(g[|g| - 1]) + 1 + |w| <= width then
                 OpenText(h) == OpenText(g) + " " + w && LineWidth(h[|h| - 1]) == LineWidth(g[|g| - 1]) + 1 + |w|
               else OpenText(h) == OpenText(g) + "\n" + w && LineWidth(h[|h| - 1]) == |w|
  {
    if g == [] {
      assert OpenText([[w]]) == w;
    } else if LineWidth(g[|g| - 1]) + 1 + |w| <= width {
      ExtendLine(g, w);
    } else {
      CloseText(g);
      OpenLine(g, w);
    }
  }

  lemma OpenTextOf(front: seq<seq<Word>>, last: seq<Word>)
    ensures OpenText(front + [last]) == Unlines(Rendered(front)) + JoinWords(last)
  {
    hide Rendered, JoinWords, Unlines;
    assert (front + [last])[..|front|] == front;
  }

  lemma NextWord(words: seq<Word>, i: nat, width: nat)
    requires i < |words|
    ensures Greedy(words[..i + 1], width) == Place(Greedy(words[..i], width), words[i], width)
  {
    assert words[..i + 1][..i] == words[..i];
  }

  lemma ExtendLine(g: seq<seq<Word>>, w: Word)
    requires g != [] && g[|g| - 1] != []
    ensures var last := g[|g| - 1];
            && OpenText(g[..|g| - 1] + [last + [w]]) == OpenText(g) + " " + w
            && LineWidth(last + [w]) == LineWidth(last) + 1 + |w|
  {
    var front, last := g[..|g| - 1], g[|g| - 1];
    WidthLonger(last, w);
    assert (last + [w])[..|last|] == last;
    assert JoinWords(last + [w]) == JoinWords(last) + " " + w;
    hide LineWidth, JoinWords, Rendered, Unlines;
    OpenTextOf(front, last);
    OpenTextOf(front, last + [w]);
    assert g == front + [last];
  }

  lemma OpenLine(g: seq<seq<Word>>, w: Word)
    ensures OpenText(g + [[w]]) == Unlines(Rendered(g)) + w
  {
    hide Rendered;
    assert (g + [[w]])[..|g|] == g && JoinWords([w]) == w;
  }

  class Formatter {
    const width: nat
    var words: seq<Word>
    var out: string

    constructor (width: nat)
      ensures this.width == width && words == [] && out == ""
    {
      this.width := width;
      words, out := [], "";
    }

    method FlushParagraph()
      requires AllPlain(words)
      modifies this`out
      ensures out == old(out) + Unlines(Paragraph(words, width))
    {
      hide PlainWord, Greedy, Place, OpenText, Rendered, LineWidth;
      var col, i := 0, 0;
      ghost var g: seq<seq<Word>> := Greedy(words[..0], width);
      FirstWord(words, width);
      while i < |words|
        invariant 0 <= i <= |words| && g == Greedy(words[..i], width)
        invariant out == old(out) + OpenText(g)
        invariant (i == 0 <==> g == []) && (g != [] ==> g[|g| - 1] != [])
        invariant col == if g == [] then 0 else LineWidth(g[|g| - 1])
        invariant i > 0 ==> col > 0
      {
        var w := words[i];
        WordNotEmpty(words, i);
        NextWord(words, i, width);
        PlaceWrites(g, w, width);
        if col == 0 {
          out := out + w;
          col := |w|;
        } else if col + 1 + |w| <= width {
          out := out + " " + w;
          col := col + 1 + |w|;
        } else {
          out := out + "\n" + w;
          col := |w|;
        }
        i := i + 1;
        g := Greedy(words[..i], width);
      }
      assert words[..i] == words;
      if |words| > 0 {
        CloseText(g);
        out := out + "\n";
      } else {
        NoWords(width);
      }
    }

    /** The whole stream: blank lines end paragraphs and are kept. */
    method FmtStream(input: LineReader)
      requires input.Valid() && words == []
      modifies this, input
      ensures out == old(out) + Unlines(Format(old(input.Rest()), [], width))
    {
      hide Greedy, Paragraph, Format, Tokens, IsBlank, PlainWord, LinesOf, Unlines;
      ghost var all := input.Rest();
      while true
        invariant input.Valid() && AllPlain(words)
        invariant out + Unlines(Format(input.Rest(), words, width)) == old(out) + Unlines(Format(all, [], width))
        decreases |input.Rest()|
      {
        ghost var before, rest := out, input.Rest();
        var line := input.GetLine();
        if line == None {
          break;
        }
        if IsBlank(line.value) {
          BlankLine(rest, words, width);
          NoWords(width);
          if |words| > 0 {
            FlushParagraph();
            words := [];
          }
          out := out + "\n";
          continue;
        }
        MoreWords(rest, words, width);
        words := words + Tokens(line.value);
      }
      LastParagraph(words, width);
      NoWords(width);
      if |words| > 0 {
        FlushParagraph();
      }
    }
  }

  lemma BlankLine(lines: seq<string>, pending: seq<Word>, width: nat)
    requires lines != [] && IsBlank(lines[0])
    ensures Unlines(Format(lines, pending, width))
         == Unlines(Paragraph(pending, width)) + "\n" + Unlines(Format(lines[1..], [], width))
  {
    hide Paragraph, IsBlank;
    UnlinesOfLonger(Paragraph(pending, width) + [""], Format(lines[1..], [], width));
    UnlinesOfLonger(Paragraph(pending, width), [""]);
    assert Unlines([""]) == "\n";
  }

  lemma MoreWords(lines: seq<string>, pending: seq<Word>, width: nat)
    requires lines != [] && !IsBlank(lines[0]) && AllPlain(pending)
    ensures Format(lines, pending, width) == Format(lines[1..], pending + Tokens(lines[0]), width)
    ensures AllPlain(pending + Tokens(lines[0]))
  {
    TokensArePlain(lines[0]);
    hide Tokens, PlainWord, Paragraph, IsBlank;
  }

  lemma LastParagraph(pending: seq<Word>, width: nat)
    ensures Format([], pending, width) == Paragraph(pending, width)
  {
  }

  lemma FirstWord(words: seq<Word>, width: nat)
    ensures Greedy(words[..0], width) == [] && OpenText([]) == ""
  {
  }

  lemma NoWords(width: nat)
    ensures Paragraph([], width) == [] && Unlines([]) == "" && OpenText([]) == "" && Greedy([], width) == []
  {
  }

  lemma WordNotEmpty(words: seq<Word>, i: nat)
    requires AllPlain(words) && i < |words|
    ensures words[i] != []
  {
  }
}
