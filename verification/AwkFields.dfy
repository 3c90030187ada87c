/** The record $0, its fields and NF (src/awk_interp.c, awkSplitLineWithFS,
    awkResplitFields, awkRebuildRecord, awkSetRecord, awkGetField, awkSetField
    and awkSetNF). */
module AwkFields {

  import opened AwkRegex
  import opened Sequences

  const BLANKS: set<char> := {' ', '\t', '\n'}

  // ---------- cutting and joining ----------

  predicate Free(s: string, seps: set<char>) {
    forall k :: 0 <= k < |s| ==> s[k] !in seps
  }

  predicate AllFree(fields: seq<string>, seps: set<char>) {
    forall k :: 0 <= k < |fields| ==> Free(fields[k], seps)
  }

  /** `w` put in front of the first piece. */
  function Prepend(w: string, pieces: seq<string>): (r: seq<string>)
    requires pieces != []
    ensures |r| == |pieces|
  {
    [w + pieces[0]] + pieces[1..]
  }

  /** The pieces between separators: one more than there are separators. */
  function Cut(s: string, seps: set<char>): (r: seq<string>)
    ensures r != []
  {
    if s == "" then [""]
    else if s[0] in seps then [""] + Cut(s[1..], seps)
    else Prepend([s[0]], Cut(s[1..], seps))
  }

  function Join(fields: seq<string>, ofs: string): string {
    if fields == [] then ""
    else if |fields| == 1 then fields[0]
    else fields[0] + ofs + Join(fields[1..], ofs)
  }

  function NonEmpty(fields: seq<string>): seq<string> {
    if fields == [] then []
    else (if fields[0] == "" then [] else [fields[0]]) + NonEmpty(fields[1..])
  }

  lemma CutGrows(x: char, w: string, seps: set<char>)
    ensures Cut([x] + w, seps) == if x in seps then [""] + Cut(w, seps) else Prepend([x], Cut(w, seps))
  {
    assert ([x] + w)[1..] == w;
  }

  lemma PrependTwice(v: string, w: string, pieces: seq<string>)
    requires pieces != []
    ensures Prepend(v, Prepend(w, pieces)) == Prepend(v + w, pieces)
    ensures Prepend("", pieces) == pieces
  {
    assert v + (w + pieces[0]) == (v + w) + pieces[0];
    assert "" + pieces[0] == pieces[0];
  }

  lemma {:induction false} CutPrefix(w: string, rest: string, seps: set<char>)
    requires Free(w, seps)
    ensures Cut(w + rest, seps) == Prepend(w, Cut(rest, seps))
  {
    hide Cut, Prepend;
    var r := Cut(rest, seps);
    if w == "" {
      PrependTwice("", "", r);
      assert w + rest == rest;
    } else {
      CutPrefix(w[1..], rest, seps);
      CutGrows(w[0], w[1..] + rest, seps);
      PrependTwice([w[0]], w[1..], r);
      assert [w[0]] + w[1..] == w;
      assert w + rest == [w[0]] + (w[1..] + rest);
    }
  }

  lemma {:induction false} PiecesAreFree(s: string, seps: set<char>)
    ensures AllFree(Cut(s, seps), seps)
  {
    if s != "" {
      PiecesAreFree(s[1..], seps);
    }
  }

  lemma JoinOfPrepend(w: string, r: seq<string>, ofs: string)
    requires r != []
    ensures Join(Prepend(w, r), ofs) == w + Join(r, ofs)
  {
    if |r| > 1 {
      assert Prepend(w, r)[1..] == r[1..];
      assert (w + r[0]) + ofs + Join(r[1..], ofs) == w + (r[0] + ofs + Join(r[1..], ofs));
    }
  }

  lemma JoinAfterEmpty(r: seq<string>, ofs: string)
    requires r != []
    ensures Join([""] + r, ofs) == ofs + Join(r, ofs)
  {
    assert ([""] + r)[1..] == r;
    assert "" + ofs == ofs;
  }

  /** Joining the pieces restores the text. */
  lemma {:induction false} JoinOfCut(s: string, c: char)
    ensures Join(Cut(s, {c}), [c]) == s
  {
    if s != "" {
      JoinOfCut(s[1..], c);
      var r := Cut(s[1..], {c});
      JoinAfterEmpty(r, [c]);
      JoinOfPrepend([s[0]], r, [c]);
      assert s == [s[0]] + s[1..];
      hide Join, Prepend;
    }
  }

  /** Cutting a joined list restores the list, whatever other separators there are. */
  lemma {:induction false} CutOfJoin(fields: seq<string>, c: char, seps: set<char>)
    requires fields != [] && c in seps && AllFree(fields, seps)
    ensures Cut(Join(fields, [c]), seps) == fields
  {
    var w := fields[0];
    if |fields| == 1 {
      CutPrefix(w, "", seps);
      assert w + "" == w;
    } else {
      CutOfJoin(fields[1..], c, seps);
      var rest := [c] + Join(fields[1..], [c]);
      assert Join(fields, [c]) == w + rest;
      CutPrefix(w, rest, seps);
      assert rest[1..] == Join(fields[1..], [c]);
      assert w + "" == w;
      assert Cut(rest, seps) == [""] + fields[1..];
    }
  }

  lemma {:induction false} NonEmptyAll(fields: seq<string>)
    ensures NonEmpty(fields) == fields <==> "" !in fields
    ensures |NonEmpty(fields)| <= |fields| && "" !in NonEmpty(fields)
  {
    if fields != [] {
      NonEmptyAll(fields[1..]);
      if NonEmpty(fields) == fields && fields[0] != "" {
        assert NonEmpty(fields)[1..] == NonEmpty(fields[1..]);
      }
    }
  }

  lemma {:induction false} JoinSnoc(fields: seq<string>, f: string, ofs: string)
    ensures Join(fields + [f], ofs) == if fields == [] then f else Join(fields, ofs) + ofs + f
  {
    if fields == [] {
      assert fields + [f] == [f];
    } else {
      JoinSnoc(fields[1..], f, ofs);
      assert (fields + [f])[1..] == fields[1..] + [f];
      if |fields| > 1 {
        assert fields[0] + ofs + (Join(fields[1..], ofs) + ofs + f) == (fields[0] + ofs + Join(fields[1..], ofs)) + ofs + f;
      }
    }
  }

  function Lengths(fields: seq<string>): nat {
    if fields == [] then 0 else Lengths(fields[..|fields| - 1]) + |fields[|fields| - 1]|
  }

  /** The size awkRebuildRecord computes before it writes is the size of the result. */
  lemma {:induction false} JoinLength(fields: seq<string>, ofs: string)
    ensures |Join(fields, ofs)| == Lengths(fields) + if |fields| > 1 then |ofs| * (|fields| - 1) else 0
  {
    if |fields| > 1 {
      var front, f := fields[..|fields| - 1], fields[|fields| - 1];
      JoinLength(front, ofs);
      JoinSnoc(front, f, ofs);
      assert front + [f] == fields;
      hide Join;
      OneMoreTime(|ofs|, |front|);
    } else if |fields| == 1 {
      assert fields[..0] == [] && Lengths([]) == 0;
    }
  }

  lemma LengthsSnoc(fields: seq<string>, i: nat)
    requires i < |fields|
    ensures fields[..i + 1] == fields[..i] + [fields[i]]
    ensures Lengths(fields[..i + 1]) == Lengths(fields[..i]) + |fields[i]|
  {
    assert fields[..i + 1][..i] == fields[..i];
  }

  lemma JoinNothing(ofs: string)
    ensures Join([], ofs) == "" && Lengths([]) == 0
  {
  }

  lemma OneMoreTime(x: int, n: int)
    ensures x * (n - 1) + x == x * n
  {
  }

  // ---------- splitting by a pattern ----------

  /** A match that is not empty. */
  predicate Proper(m: Span) {
    m.Span? && m.start != m.end
  }

  function RegexFields(find: string -> Span, s: string): seq<string>
    requires Sound(find)
    decreases |s|
  {
    if s == "" then []
    else if Proper(find(s)) then [s[..find(s).start]] + RegexFields(find, s[find(s).end..])
    else [s]
  }

  /** What lies between the fields: the first match in what is left each time. */
  function RegexGaps(find: string -> Span, s: string): seq<string>
    requires Sound(find)
    decreases |s|
  {
    if s == "" then []
    else if Proper(find(s)) then [s[find(s).start..find(s).end]] + RegexGaps(find, s[find(s).end..])
    else []
  }

  function Interleave(fields: seq<string>, gaps: seq<string>): string {
    (if fields == [] then "" else fields[0]) + (if gaps == [] then "" else gaps[0])
    + if |fields| <= 1 && |gaps| <= 1 then "" else Interleave(if fields == [] then [] else fields[1..], if gaps == [] then [] else gaps[1..])
  }

  lemma InterleaveMore(f: string, g: string, fields: seq<string>, gaps: seq<string>)
    ensures Interleave([f] + fields, [g] + gaps) == f + g + Interleave(fields, gaps)
  {
    assert ([f] + fields)[1..] == fields && ([g] + gaps)[1..] == gaps;
    if fields == [] && gaps == [] {
      assert Interleave(fields, gaps) == "";
      assert (f + g) + "" == f + g;
    }
  }

  lemma RegexSplitStep(find: string -> Span, s: string)
    requires Sound(find) && s != ""
    ensures var m := find(s);
            if Proper(m) then
              && m.Span? && m.start < m.end <= |s|
              && RegexFields(find, s) == [s[..m.start]] + RegexFields(find, s[m.end..])
              && RegexGaps(find, s) == [s[m.start..m.end]] + RegexGaps(find, s[m.end..])
            else RegexFields(find, s) == [s] && RegexGaps(find, s) == []
  {
  }

  lemma InterleaveOne(s: string)
    ensures Interleave([s], []) == s && Interleave([], []) == ""
  {
    assert s + "" == s;
  }

  /** Splitting by a pattern loses nothing: fields and gaps alternate to give the
      text, and only a gap at the very end has no field after it. */
  lemma {:induction false} RegexSplitConserves(find: string -> Span, s: string)
    requires Sound(find)
    ensures Interleave(RegexFields(find, s), RegexGaps(find, s)) == s
    ensures |RegexGaps(find, s)| == |RegexFields(find, s)| || |RegexGaps(find, s)| == |RegexFields(find, s)| - 1
    ensures "" !in RegexGaps(find, s)
    decreases |s|
  {
    hide *;
    InterleaveOne(s);
    if s == "" {
      RegexSplitNothing(find);
      return;
    }
    RegexSplitStep(find, s);
    if Proper(find(s)) {
      var m := find(s);
      var rest := s[m.end..];
      RegexSplitConserves(find, rest);
      InterleaveMore(s[..m.start], s[m.start..m.end], RegexFields(find, rest), RegexGaps(find, rest));
      assert s == s[..m.start] + s[m.start..m.end] + rest;
      assert s[m.start..m.end] != "";
    }
  }

  lemma RegexSplitNothing(find: string -> Span)
    requires Sound(find)
    ensures RegexFields(find, "") == [] && RegexGaps(find, "") == []
  {
  }

  /** A match that is not empty ends a field; with no match, or an empty one, what is
      left is one field. */
  lemma MatchEndsField(find: string -> Span, s: string)
    requires Sound(find) && s != ""
    ensures find(s).Span? && find(s).start < find(s).end ==>
              RegexFields(find, s) == [s[..find(s).start]] + RegexFields(find, s[find(s).end..])
    ensures find(s).NoMatch? || find(s).start == find(s).end ==> RegexFields(find, s) == [s]
  {
  }

  // ---------- splitting by FS ----------

  /** One character each. */
  function Characters(s: string): (r: seq<string>)
    ensures |r| == |s| && forall k :: 0 <= k < |s| ==> r[k] == [s[k]]
  {
    seq(|s|, k requires 0 <= k < |s| => [s[k]])
  }

  /** The fields of a line: words for a blank FS, pieces for one character, single
      characters for none, and the matcher's pieces for a longer FS. */
  function Split(compile: string -> Compiled, line: string, fs: string): seq<string>
    requires SoundCompiler(compile)
  {
    if fs == " " then NonEmpty(Cut(line, BLANKS))
    else if |fs| == 1 then Cut(line, {fs[0]})
    else if fs == "" then Characters(line)
    else if compile(fs).BadPattern? then [line]
    else RegexFields(compile(fs).find, line)
  }

  lemma CutAfterWord(word: string, c: char, rest: string, seps: set<char>)
    requires Free(word, seps) && c in seps
    ensures Cut(word + ([c] + rest), seps) == [word] + Cut(rest, seps) && Cut(word, seps) == [word]
  {
    CutGrows(c, rest, seps);
    CutPrefix(word, [c] + rest, seps);
    CutPrefix(word, "", seps);
    assert word + "" == word && Cut("", seps) == [""];
    hide Cut, Free;
    assert ([""] + Cut(rest, seps))[1..] == Cut(rest, seps);
  }

  lemma NonEmptyCons(w: string, more: seq<string>)
    ensures NonEmpty([w] + more) == (if w == "" then [] else [w]) + NonEmpty(more)
    ensures NonEmpty([w]) == if w == "" then [] else [w]
  {
    assert ([w] + more)[1..] == more;
    assert [w][1..] == [];
  }

  /** With a blank FS a blank, a tab and a newline end a word; they make no empty ones,
      and no other character ends one. */
  lemma BlankEndsWord(compile: string -> Compiled, word: string, c: char, rest: string)
    requires SoundCompiler(compile) && c in {' ', '\t', '\n'}
    requires forall k :: 0 <= k < |word| ==> word[k] !in {' ', '\t', '\n'}
    ensures Split(compile, word + ([c] + rest), " ") == (if word == "" then [] else [word]) + Split(compile, rest, " ")
    ensures Split(compile, word, " ") == if word == "" then [] else [word]
  {
    hide Cut, NonEmpty;
    CutAfterWord(word, c, rest, BLANKS);
    NonEmptyCons(word, Cut(rest, BLANKS));
  }

  /** In paragraph mode, with an FS that is not the blank, a newline also ends a field. */
  function Resplit(compile: string -> Compiled, record: string, fs: string, paragraph: bool): seq<string>
    requires SoundCompiler(compile)
  {
    if paragraph && fs != " " then SplitAll(compile, NonEmpty(Cut(record, {'\n'})), fs)
    else Split(compile, record, fs)
  }

  function SplitAll(compile: string -> Compiled, lines: seq<string>, fs: string): seq<string>
    requires SoundCompiler(compile)
  {
    if lines == [] then [] else Split(compile, lines[0], fs) + SplitAll(compile, lines[1..], fs)
  }

  lemma WordHead(w: string, rest: string, seps: set<char>)
    requires w != "" && Free(w, seps) && (rest != "" ==> rest[0] in seps)
    ensures NonEmpty(Cut(w + rest, seps)) == [w] + NonEmpty(Cut(rest, seps))
  {
    CutPrefix(w, rest, seps);
    var r := Cut(rest, seps);
    assert r[0] == "" && w + "" == w;
  }

  lemma SkipSeparator(s: string, p: nat, seps: set<char>)
    requires p < |s| && s[p] in seps
    ensures NonEmpty(Cut(s[p..], seps)) == NonEmpty(Cut(s[p + 1..], seps))
  {
    assert s[p..][1..] == s[p + 1..];
    assert ([""] + Cut(s[p + 1..], seps))[1..] == Cut(s[p + 1..], seps);
  }

  /** The next stretch of other characters from p on, as strtok_r finds it. */
  method NextRun(s: string, from: nat, seps: set<char>) returns (found: bool, start: nat, end: nat)
    requires from <= |s|
    ensures !found ==> NonEmpty(Cut(s[from..], seps)) == []
    ensures found ==> from <= start < end <= |s|
                      && NonEmpty(Cut(s[from..], seps)) == [s[start..end]] + NonEmpty(Cut(s[end..], seps))
  {
    start := from;
    while start < |s| && s[start] in seps
      invariant from <= start <= |s|
      invariant NonEmpty(Cut(s[start..], seps)) == NonEmpty(Cut(s[from..], seps))
    {
      SkipSeparator(s, start, seps);
      start := start + 1;
    }
    end := start;
    if start == |s| {
      assert s[start..] == "";
      return false, start, end;
    }
    while end < |s| && s[end] !in seps
      invariant start <= end <= |s|
      invariant forall k :: start <= k < end ==> s[k] !in seps
    {
      end := end + 1;
    }
    WordHead(s[start..end], s[end..], seps);
    assert s[start..] == s[start..end] + s[end..];
    found := true;
  }

  method SplitWords(line: string) returns (fields: seq<string>)
    ensures fields == NonEmpty(Cut(line, BLANKS))
  {
    hide Cut, NonEmpty;
    fields := [];
    var p := 0;
    assert line[p..] == line;
    while true
      invariant p <= |line| && fields + NonEmpty(Cut(line[p..], BLANKS)) == NonEmpty(Cut(line, BLANKS))
      decreases |line| - p
    {
      var found, start, end := NextRun(line, p, BLANKS);
      if !found {
        break;
      }
      Regroup(fields, [line[start..end]], NonEmpty(Cut(line[end..], BLANKS)));
      fields := fields + [line[start..end]];
      p := end;
    }
  }

  method SplitAtCharacter(line: string, sep: char) returns (fields: seq<string>)
    ensures fields == Cut(line, {sep})
  {
    hide Cut, Prepend;
    fields := [];
    var start, p := 0, 0;
    assert line[p..] == line && line[start..p] == "";
    PrependTwice("", "", Cut(line, {sep}));
    while true
      invariant start <= p <= |line|
      invariant fields + Prepend(line[start..p], Cut(line[p..], {sep})) == Cut(line, {sep})
      decreases |line| - p
    {
      CutStep(line, start, p, sep);
      if p == |line| || line[p] == sep {
        if p < |line| {
          Regroup(fields, [line[start..p]], Cut(line[p + 1..], {sep}));
        }
        fields := fields + [line[start..p]];
        if p == |line| {
          break;
        }
        p := p + 1;
        start := p;
        assert line[start..p] == "";
        PrependTwice("", "", Cut(line[p..], {sep}));
      } else {
        p := p + 1;
      }
    }
  }

  lemma CutStep(line: string, start: nat, p: nat, sep: char)
    requires start <= p <= |line|
    ensures p == |line| ==> Prepend(line[start..p], Cut(line[p..], {sep})) == [line[start..p]]
    ensures p < |line| && line[p] == sep ==>
              Prepend(line[start..p], Cut(line[p..], {sep})) == [line[start..p]] + Cut(line[p + 1..], {sep})
    ensures p < |line| && line[p] != sep ==>
              Prepend(line[start..p], Cut(line[p..], {sep})) == Prepend(line[start..p + 1], Cut(line[p + 1..], {sep}))
  {
    var w := line[start..p];
    assert w + "" == w;
    if p < |line| {
      assert line[p..][1..] == line[p + 1..];
      var r := Cut(line[p + 1..], {sep});
      assert ([""] + r)[1..] == r;
      assert line[start..p + 1] == w + [line[p]];
      assert w + ([line[p]] + r[0]) == (w + [line[p]]) + r[0];
    }
  }

  lemma RegexStepAt(find: string -> Span, line: string, p: nat)
    requires Sound(find) && p < |line|
    ensures var m := find(line[p..]);
            if Proper(m) then
              && m.Span? && m.start < m.end <= |line| - p
              && RegexFields(find, line[p..]) == [line[p..p + m.start]] + RegexFields(find, line[p + m.end..])
            else RegexFields(find, line[p..]) == [line[p..]]
  {
    var m := find(line[p..]);
    RegexSplitStep(find, line[p..]);
    hide RegexFields, Sound;
    if Proper(m) {
      assert line[p..][..m.start] == line[p..p + m.start];
      assert line[p..][m.end..] == line[p + m.end..];
    }
  }

  method SplitByRegex(line: string, find: string -> Span) returns (fields: seq<string>)
    requires Sound(find)
    ensures fields == RegexFields(find, line)
  {
    hide *;
    fields := [];
    var p := 0;
    assert line[p..] == line;
    while p < |line|
      invariant p <= |line| && fields + RegexFields(find, line[p..]) == RegexFields(find, line)
    {
      var m := find(line[p..]);
      RegexStepAt(find, line, p);
      if Proper(m) {
        Regroup(fields, [line[p..p + m.start]], RegexFields(find, line[p + m.end..]));
        fields := fields + [line[p..p + m.start]];
        p := p + m.end;
      } else {
        fields := fields + [line[p..]];
        return;
      }
    }
    RegexSplitNothing(find);
    assert line[p..] == "";
  }

  method SplitLineWithFS(compile: string -> Compiled, line: string, fs: string) returns (fields: seq<string>)
    requires SoundCompiler(compile)
    ensures fields == Split(compile, line, fs)
  {
    if fs == " " {
      fields := SplitWords(line);
    } else if |fs| == 1 {
      fields := SplitAtCharacter(line, fs[0]);
    } else if fs == "" {
      fields := [];
      for p := 0 to |line|
        invariant fields == Characters(line)[..p]
      {
        fields := fields + [[line[p]]];
      }
    } else {
      var re := compile(fs);
      if re.BadPattern? {
        return [line];
      }
      fields := SplitByRegex(line, re.find);
    }
  }

  // ---------- newlines in paragraph mode ----------

  lemma SplitAllStep(compile: string -> Compiled, line: string, lines: seq<string>, fs: string)
    requires SoundCompiler(compile)
    ensures SplitAll(compile, [line] + lines, fs) == Split(compile, line, fs) + SplitAll(compile, lines, fs)
  {
    hide Split;
    assert ([line] + lines)[1..] == lines;
  }

  lemma {:induction false} SplitAllAppend(compile: string -> Compiled, x: seq<string>, y: seq<string>, fs: string)
    requires SoundCompiler(compile)
    ensures SplitAll(compile, x + y, fs) == SplitAll(compile, x, fs) + SplitAll(compile, y, fs)
  {
    if x == [] {
      assert x + y == y && SplitAll(compile, x, fs) == [];
    } else {
      hide *;
      var line, lines := x[0], x[1..];
      FirstApart(x, y);
      SplitAllAppend(compile, lines, y, fs);
      SplitAllStep(compile, line, lines, fs);
      SplitAllStep(compile, line, lines + y, fs);
      Regroup(Split(compile, line, fs), SplitAll(compile, lines, fs), SplitAll(compile, y, fs));
    }
  }

  /** Cutting at newlines and then each line at c is cutting at both at once. */
  lemma {:induction false} CutAtBoth(compile: string -> Compiled, s: string, c: char)
    requires SoundCompiler(compile) && c != ' ' && c != '\n'
    ensures SplitAll(compile, Cut(s, {'\n'}), [c]) == Cut(s, {c, '\n'})
  {
    if s == "" {
      assert SplitAll(compile, [""], [c]) == Cut("", {c}) + [];
    } else {
      CutAtBoth(compile, s[1..], c);
      var r := Cut(s[1..], {'\n'});
      if s[0] == '\n' {
        assert ([""] + r)[1..] == r;
        assert Split(compile, "", [c]) == [""];
      } else {
        LineGrows(compile, s[0], r, c);
      }
    }
  }

  lemma SplitAllHead(compile: string -> Compiled, first: string, others: seq<string>, fs: string)
    requires SoundCompiler(compile)
    ensures SplitAll(compile, [first] + others, fs) == Split(compile, first, fs) + SplitAll(compile, others, fs)
  {
    hide Split;
    assert ([first] + others)[1..] == others;
  }

  lemma SplitAtOne(compile: string -> Compiled, line: string, c: char)
    requires SoundCompiler(compile) && c != ' '
    ensures Split(compile, line, [c]) == Cut(line, {c})
  {
  }

  lemma PrependAppend(w: string, x: seq<string>, y: seq<string>)
    requires x != []
    ensures Prepend(w, x) + y == Prepend(w, x + y)
  {
  }

  lemma LineGrows(compile: string -> Compiled, x: char, r: seq<string>, c: char)
    requires SoundCompiler(compile) && c != ' ' && x != '\n' && r != []
    ensures SplitAll(compile, r, [c]) != []
    ensures SplitAll(compile, Prepend([x], r), [c])
         == if x == c then [""] + SplitAll(compile, r, [c]) else Prepend([x], SplitAll(compile, r, [c]))
  {
    var first, others := Cut(r[0], {c}), SplitAll(compile, r[1..], [c]);
    assert Prepend([x], r) == [[x] + r[0]] + r[1..];
    hide *;
    SplitAllHead(compile, [x] + r[0], r[1..], [c]);
    SplitAllHead(compile, r[0], r[1..], [c]);
    assert [r[0]] + r[1..] == r;
    SplitAtOne(compile, [x] + r[0], c);
    SplitAtOne(compile, r[0], c);
    CutGrows(x, r[0], {c});
    PrependAppend([x], first, others);
    Regroup([""], first, others);
  }

  /** No newline at either end and none doubled. */
  predicate NoBlankLine(s: string) {
    s != "" && forall k :: 0 <= k < |s| && s[k] == '\n' ==> 0 < k < |s| - 1 && s[k + 1] != '\n'
  }

  lemma {:induction false} LinesNotEmpty(s: string)
    requires forall k :: 0 <= k < |s| && s[k] == '\n' ==> k < |s| - 1 && s[k + 1] != '\n'
    ensures "" !in Cut(s, {'\n'})[1..]
    ensures s != "" && s[0] != '\n' ==> "" !in Cut(s, {'\n'})
  {
    if s != "" {
      var t := s[1..];
      assert forall k :: 0 <= k < |t| ==> t[k] == s[k + 1];
      LinesNotEmpty(t);
      var r := Cut(t, {'\n'});
      assert ([""] + r)[1..] == r;
      assert Prepend([s[0]], r)[1..] == r[1..];
    }
  }

  /** In a record as paragraph mode reads them, the newline is one more separator. */
  lemma ParagraphSplitsAtEither(compile: string -> Compiled, record: string, c: char)
    requires SoundCompiler(compile) && c != ' ' && c != '\n' && NoBlankLine(record)
    ensures Resplit(compile, record, [c], true) == Cut(record, {c, '\n'})
  {
    LinesNotEmpty(record);
    NonEmptyAll(Cut(record, {'\n'}));
    CutAtBoth(compile, record, c);
  }

  // ---------- assignments ----------

  datatype Settings = Settings(compile: string -> Compiled, fs: string, ofs: string, paragraph: bool)

  datatype Line = Line(record: string, fields: seq<string>)

  datatype Op = SetRecord(text: string) | SetField(idx: int, val: string) | SetNF(n: int)

  function Empties(n: nat): (r: seq<string>)
    ensures |r| == n && forall k :: 0 <= k < n ==> r[k] == ""
  {
    seq(n, _ => "")
  }

  function Resized(fields: seq<string>, n: nat): (r: seq<string>)
    ensures |r| == n && forall k :: 0 <= k < n ==> r[k] == if k < |fields| then fields[k] else ""
  {
    if n <= |fields| then fields[..n] else fields + Empties(n - |fields|)
  }

  /** $idx := val, for idx > 0. */
  function WithField(fields: seq<string>, idx: int, val: string): (r: seq<string>)
    requires idx > 0
    ensures |r| == if idx > |fields| then idx else |fields|
    ensures forall k :: 0 <= k < |r| ==> r[k] == if k == idx - 1 then val else if k < |fields| then fields[k] else ""
  {
    Resized(fields, if idx > |fields| then idx else |fields|)[idx - 1 := val]
  }

  function Step(s: Settings, v: Line, op: Op): Line
    requires SoundCompiler(s.compile)
  {
    match op
    case SetRecord(text) => Line(text, Resplit(s.compile, text, s.fs, s.paragraph))
    case SetField(idx, val) =>
      if idx == 0 then Line(val, Resplit(s.compile, val, s.fs, s.paragraph))
      else if idx < 0 then v
      else Line(Join(WithField(v.fields, idx, val), s.ofs), WithField(v.fields, idx, val))
    case SetNF(n) =>
      var fields := Resized(v.fields, if n < 0 then 0 else n);
       Line(Join(fields, s.ofs), fields)
  }

  function Run(s: Settings, v: Line, ops: seq<Op>): Line
    requires SoundCompiler(s.compile)
  {
    if ops == [] then v else Step(s, Run(s, v, ops[..|ops| - 1]), ops[|ops| - 1])
  }

  function FieldOf(v: Line, idx: int): string {
    if idx == 0 then v.record
    else if idx < 0 || idx > |v.fields| then ""
    else v.fields[idx - 1]
  }

  /** What a field reads after an assignment to another, to itself or to NF. */
  lemma ReadAfterWrite(s: Settings, v: Line, i: int, val: string, n: int, j: int)
    requires SoundCompiler(s.compile) && j > 0
    ensures var w := Step(s, v, SetField(i, val));
            && (i > 0 ==> FieldOf(w, j) == (if j == i then val else FieldOf(v, j)))
            && (i > 0 ==> |w.fields| == if i > |v.fields| then i else |v.fields|)
            && (i < 0 ==> w == v)
    ensures FieldOf(Step(s, v, SetNF(n)), j) == if j <= n then FieldOf(v, j) else ""
  {
    hide Join, Resplit;
  }

  /** The values assigned to single fields hold none of the characters in `seps`. */
  predicate ValuesFree(ops: seq<Op>, seps: set<char>) {
    forall k :: 0 <= k < |ops| && ops[k].SetField? && ops[k].idx > 0 ==> Free(ops[k].val, seps)
  }

  /** The record is the fields joined by c, and no field holds a c. */
  predicate Synced(v: Line, c: char) {
    v.record == Join(v.fields, [c]) && AllFree(v.fields, {c})
  }

  lemma {:induction false} RunKeepsRecordAndFields(s: Settings, c: char, v: Line, ops: seq<Op>)
    requires SoundCompiler(s.compile) && s.fs == [c] && s.ofs == [c] && c != ' ' && !s.paragraph
    requires Synced(v, c) && ValuesFree(ops, {c})
    ensures Synced(Run(s, v, ops), c)
    decreases |ops|
  {
    if ops != [] {
      var front, op := ops[..|ops| - 1], ops[|ops| - 1];
      assert forall k :: 0 <= k < |front| ==> front[k] == ops[k];
      RunKeepsRecordAndFields(s, c, v, front);
      var was := Run(s, v, front);
      hide Run, Join;
      StepKeepsRecordAndFields(s, c, was, op);
    }
  }

  lemma StepKeepsRecordAndFields(s: Settings, c: char, v: Line, op: Op)
    requires SoundCompiler(s.compile) && s.fs == [c] && s.ofs == [c] && c != ' ' && !s.paragraph
    requires Synced(v, c) && (op.SetField? && op.idx > 0 ==> Free(op.val, {c}))
    ensures Synced(Step(s, v, op), c)
  {
    hide Join, Cut;
    if op.SetRecord? || (op.SetField? && op.idx == 0) {
      var text := if op.SetRecord? then op.text else op.val;
      JoinOfCut(text, c);
      PiecesAreFree(text, {c});
    }
  }

  /** Splitting the record again gives the fields back exactly when there is one. */
  lemma SyncedSplitsBack(s: Settings, c: char, v: Line)
    requires SoundCompiler(s.compile) && s.fs == [c] && c != ' ' && !s.paragraph && Synced(v, c)
    ensures Resplit(s.compile, v.record, s.fs, s.paragraph) == v.fields <==> v.fields != []
  {
    hide Join, Cut;
    if v.fields != [] {
      CutOfJoin(v.fields, c, {c});
    }
  }

  /** With the default separators, splitting the record again gives the fields
      that are not empty. */
  predicate SyncedByBlanks(v: Line) {
    NonEmpty(Cut(v.record, BLANKS)) == NonEmpty(v.fields) && AllFree(v.fields, BLANKS)
  }

  lemma {:induction false} RunKeepsWords(s: Settings, v: Line, ops: seq<Op>)
    requires SoundCompiler(s.compile) && s.fs == " " && s.ofs == " "
    requires SyncedByBlanks(v) && ValuesFree(ops, BLANKS)
    ensures SyncedByBlanks(Run(s, v, ops))
    decreases |ops|
  {
    if ops != [] {
      var front, op := ops[..|ops| - 1], ops[|ops| - 1];
      assert forall k :: 0 <= k < |front| ==> front[k] == ops[k];
      RunKeepsWords(s, v, front);
      var was := Run(s, v, front);
      hide Run, Join, Cut, NonEmpty, SyncedByBlanks, Resplit, AllFree, Free;
      StepKeepsWords(s, was, op);
    }
  }

  lemma StepKeepsWords(s: Settings, v: Line, op: Op)
    requires SoundCompiler(s.compile) && s.fs == " " && s.ofs == " "
    requires SyncedByBlanks(v) && (op.SetField? && op.idx > 0 ==> Free(op.val, BLANKS))
    ensures SyncedByBlanks(Step(s, v, op))
  {
    hide Join, Cut, NonEmpty;
    var w := Step(s, v, op);
    if op.SetRecord? || (op.SetField? && op.idx == 0) {
      var pieces := Cut(w.record, BLANKS);
      PiecesAreFree(w.record, BLANKS);
      NonEmptyAll(NonEmpty(pieces));
      NonEmptyAll(pieces);
      NonEmptyFree(pieces, BLANKS);
    } else if op.SetNF? || op.idx > 0 {
      WordsOfJoin(w.fields);
    }
  }

  lemma {:induction false} NonEmptyFree(fields: seq<string>, seps: set<char>)
    requires AllFree(fields, seps)
    ensures AllFree(NonEmpty(fields), seps)
  {
    if fields != [] {
      NonEmptyFree(fields[1..], seps);
    }
  }

  lemma WordsOfJoin(fields: seq<string>)
    requires AllFree(fields, BLANKS)
    ensures NonEmpty(Cut(Join(fields, " "), BLANKS)) == NonEmpty(fields)
  {
    if fields != [] {
      assert " " == [' '];
      CutOfJoin(fields, ' ', BLANKS);
    }
  }

  /** So with the default separators the fields come back exactly when none is empty. */
  lemma WordsSplitBack(s: Settings, v: Line)
    requires SoundCompiler(s.compile) && s.fs == " " && SyncedByBlanks(v)
    ensures Resplit(s.compile, v.record, s.fs, s.paragraph) == v.fields <==> "" !in v.fields
  {
    hide Cut, NonEmpty;
    NonEmptyAll(v.fields);
  }

  // ---------- the interpreter's state ----------

  class FieldState {
    var record: string
    var fields: seq<string>
    var NF: int
    var settings: Settings

    constructor (settings: Settings)
      ensures View() == Line("", []) && NF == 0 && this.settings == settings
    {
      record, fields, NF := "", [], 0;
      this.settings := settings;
    }

    function View(): Line
      reads this
    {
      Line(record, fields)
    }

    /** NF is the number of fields. */
    ghost predicate Valid()
      reads this
    {
      SoundCompiler(settings.compile) && NF == |fields|
    }

    method ResplitFields()
      requires SoundCompiler(settings.compile)
      modifies this`fields, this`NF
      ensures Valid() && fields == Resplit(settings.compile, record, settings.fs, settings.paragraph)
    {
      fields := [];
      if settings.paragraph && settings.fs != " " {
        fields := SplitLines();
      } else {
        fields := SplitLineWithFS(settings.compile, record, settings.fs);
      }
      NF := |fields|;
    }

    method SplitLines() returns (all: seq<string>)
      requires SoundCompiler(settings.compile)
      ensures all == SplitAll(settings.compile, NonEmpty(Cut(record, {'\n'})), settings.fs)
    {
      hide Cut, NonEmpty, Split;
      all := [];
      ghost var lines: seq<string> := [];
      var p := 0;
      assert record[p..] == record;
      while true
        invariant p <= |record| && lines + NonEmpty(Cut(record[p..], {'\n'})) == NonEmpty(Cut(record, {'\n'}))
        invariant all == SplitAll(settings.compile, lines, settings.fs)
        decreases |record| - p
      {
        var found, start, end := NextRun(record, p, {'\n'});
        if !found {
          assert lines + [] == lines;
          break;
        }
        var line := record[start..end];
        var sub := SplitLineWithFS(settings.compile, line, settings.fs);
        Regroup(lines, [line], NonEmpty(Cut(record[end..], {'\n'})));
        SplitAllAppend(settings.compile, lines, [line], settings.fs);
        assert SplitAll(settings.compile, [line], settings.fs) == sub + [];
        lines := lines + [line];
        all := all + sub;
        p := end;
      }
    }

    /** The record as the fields joined by OFS, in a buffer of just that size. */
    method RebuildRecord()
      modifies this`record
      ensures record == Join(fields, settings.ofs)
    {
      hide Join, Lengths;
      var ofs := settings.ofs;
      JoinNothing(ofs);
      var total := 0;
      for i := 0 to |fields|
        invariant total == Lengths(fields[..i])
      {
        LengthsSnoc(fields, i);
        total := total + |fields[i]|;
      }
      assert fields[..|fields|] == fields;
      JoinLength(fields, ofs);
      if |fields| > 1 {
        total := total + |ofs| * (|fields| - 1);
      }
      var rec: string := "";
      for i := 0 to |fields|
        invariant rec == Join(fields[..i], ofs)
      {
        JoinSnoc(fields[..i], fields[i], ofs);
        LengthsSnoc(fields, i);
        if i > 0 {
          rec := rec + ofs;
        }
        rec := rec + fields[i];
      }
      assert |rec| == total;
      record := rec;
    }

    method SetRecord(s: string)
      requires Valid()
      modifies this`record, this`fields, this`NF
      ensures Valid() && View() == Step(settings, old(View()), Op.SetRecord(s))
    {
      record := s;
      ResplitFields();
    }

    method GetField(idx: int) returns (r: string)
      requires Valid()
      ensures r == FieldOf(View(), idx)
    {
      if idx == 0 {
        return record;
      }
      if idx < 0 {
        return "";
      }
      if idx > |fields| {
        return "";
      }
      return fields[idx - 1];
    }

    method SetField(idx: int, val: string)
      requires Valid()
      modifies this`record, this`fields, this`NF
      ensures Valid() && View() == Step(settings, old(View()), Op.SetField(idx, val))
    {
      if idx == 0 {
        SetRecord(val);
        return;
      }
      if idx < 0 {
        return;
      }
      if idx > |fields| {
        PadFields(idx);
        NF := idx;
      }
      fields := fields[idx - 1 := val];
      assert fields == WithField(old(fields), idx, val);
      RebuildRecord();
    }

    method PadFields(n: nat)
      requires n >= |fields|
      modifies this`fields
      ensures fields == Resized(old(fields), n)
    {
      while |fields| < n
        invariant |fields| <= n && fields == Resized(old(fields), |fields|)
      {
        fields := fields + [""];
      }
    }

    method SetNF(newNF: int)
      requires Valid()
      modifies this`record, this`fields, this`NF
      ensures Valid() && View() == Step(settings, old(View()), Op.SetNF(newNF))
    {
      var n := if newNF < 0 then 0 else newNF;
      if n < |fields| {
        fields := fields[..n];
      } else if n > |fields| {
        PadFields(n);
      }
      assert fields == Resized(old(fields), n);
      NF := n;
      RebuildRecord();
    }
  }
}
