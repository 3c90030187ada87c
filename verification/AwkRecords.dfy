/** Reading records (src/awk_interp.c, awkReadRecordFromFile): paragraph mode for
    an empty RS, a separator character, or a pattern. */
module AwkRecords {

  import opened AwkFields
  import opened AwkRegex
  import opened Sequences
  import opened Wrappers

  const NL: set<char> := {'\n'}

  // ---------- paragraphs ----------

  /** How many of the first lines are not empty. */
  function RunLength(lines: seq<string>): (n: nat)
    ensures n <= |lines|
    ensures "" !in lines[..n]
    ensures n < |lines| ==> lines[n] == ""
  {
    if lines == [] || lines[0] == "" then 0 else 1 + RunLength(lines[1..])
  }

  /** The maximal runs of non-empty lines, each joined by newlines. */
  function Paragraphs(lines: seq<string>): seq<string>
    decreases |lines|
  {
    if lines == [] then []
    else
      var n := RunLength(lines);
      if n == 0 then Paragraphs(lines[1..])
      else [Join(lines[..n], "\n")] + Paragraphs(lines[n..])
  }

  lemma {:induction false} RunOf(lines: seq<string>, more: seq<string>)
    requires "" !in lines && (more != [] ==> more[0] == "")
    ensures RunLength(lines + more) == |lines|
  {
    if lines == [] {
      assert lines + more == more;
    } else {
      RunOf(lines[1..], more);
      assert (lines + more)[1..] == lines[1..] + more;
    }
  }

  lemma FirstParagraph(lines: seq<string>, more: seq<string>)
    requires lines != [] && "" !in lines
    ensures Paragraphs(lines + [""] + more) == [Join(lines, "\n")] + Paragraphs(more)
    ensures Paragraphs(lines) == [Join(lines, "\n")]
  {
    hide Join;
    var all := lines + [""] + more;
    RunOf(lines, [""] + more);
    assert all == lines + ([""] + more);
    assert all[..|lines|] == lines && all[|lines|..] == [""] + more;
    assert ([""] + more)[1..] == more;
    RunOf(lines, []);
    assert lines + [] == lines && lines[..|lines|] == lines;
  }

  /** Cutting at a separator in the text. */
  lemma {:induction false} CutAtSeparator(x: string, c: char, y: string, seps: set<char>)
    requires c in seps
    ensures Cut(x + [c] + y, seps) == Cut(x, seps) + Cut(y, seps)
  {
    if x == "" {
      assert x + [c] + y == [c] + y;
      CutGrows(c, y, seps);
    } else {
      CutAtSeparator(x[1..], c, y, seps);
      CutGrows(x[0], x[1..] + [c] + y, seps);
      CutGrows(x[0], x[1..], seps);
      assert x == [x[0]] + x[1..];
      assert x + [c] + y == [x[0]] + (x[1..] + [c] + y);
      hide Cut, Prepend;
      Regroup([""], Cut(x[1..], seps), Cut(y, seps));
      PrependAppend([x[0]], Cut(x[1..], seps), Cut(y, seps));
    }
  }

  lemma LeadingNewline(s: string)
    ensures Paragraphs(Cut(['\n'] + s, NL)) == Paragraphs(Cut(s, NL))
    ensures Paragraphs(Cut("", NL)) == []
  {
    CutGrows('\n', s, NL);
    assert ([""] + Cut(s, NL))[1..] == Cut(s, NL);
  }

  /** A text without blank lines is one paragraph, and the first one of what it begins. */
  lemma BodyIsParagraph(body: string, rest: string)
    requires NoBlankLine(body)
    ensures Paragraphs(Cut(body, NL)) == [body]
    ensures Paragraphs(Cut(body + "\n", NL)) == [body]
    ensures Paragraphs(Cut(body + "\n\n" + rest, NL)) == [body] + Paragraphs(Cut(rest, NL))
  {
    LinesNotEmpty(body);
    hide *;
    var lines := Cut(body, NL);
    BodyOfLines(body);
    FirstParagraph(lines, Cut(rest, NL));
    FirstParagraph(lines, []);
    NoParagraphs();
    CutAtEnd(body);
    CutAtBlankLine(body, rest);
    assert lines + [""] + [] == lines + [""];
    assert [body] + [] == [body];
  }

  lemma BodyOfLines(body: string)
    ensures Join(Cut(body, NL), "\n") == body
  {
    assert "\n" == ['\n'];
    JoinOfCut(body, '\n');
  }

  lemma NoParagraphs()
    ensures Paragraphs([]) == []
  {
  }

  lemma CutAtEnd(body: string)
    ensures Cut(body + "\n", NL) == Cut(body, NL) + [""]
  {
    CutAtSeparator(body, '\n', "", NL);
    assert body + "\n" == body + ['\n'] + "";
  }

  lemma CutAtBlankLine(body: string, rest: string)
    ensures Cut(body + "\n\n" + rest, NL) == Cut(body, NL) + [""] + Cut(rest, NL)
  {
    CutAtSeparator(body, '\n', ['\n'] + rest, NL);
    CutGrows('\n', rest, NL);
    hide Cut;
    assert body + "\n\n" + rest == body + ['\n'] + (['\n'] + rest);
    Regroup(Cut(body, NL), [""], Cut(rest, NL));
  }

  // ---------- a separator character ----------

  /** The pieces between separators; nothing follows a separator at the very end. */
  function Pieces(s: string, c: char): seq<string> {
    var pieces := Cut(s, {c});
    if pieces[|pieces| - 1] == "" then pieces[..|pieces| - 1] else pieces
  }

  function Terminated(records: seq<string>, c: char): string {
    if records == [] then "" else records[0] + [c] + Terminated(records[1..], c)
  }

  lemma FirstPiece(rec: string, c: char, rest: string)
    requires Free(rec, {c})
    ensures Pieces(rec + [c] + rest, c) == [rec] + Pieces(rest, c)
    ensures rec != "" ==> Pieces(rec, c) == [rec]
    ensures Pieces("", c) == []
  {
    CutPrefix(rec, "", {c});
    assert rec + "" == rec && Prepend(rec, [""]) == [rec];
    CutAtSeparator(rec, c, rest, {c});
    hide Cut, Prepend, Free;
    var pieces := Cut(rest, {c});
    assert ([rec] + pieces)[..|pieces|] == [rec] + pieces[..|pieces| - 1];
  }

  /** Ending every record with the separator gives the text back, up to a final one. */
  lemma {:induction false} PiecesConserve(s: string, c: char)
    ensures Terminated(Pieces(s, c), c) == if s == "" || s[|s| - 1] == c then s else s + [c]
    decreases |s|
  {
    hide Pieces;
    FirstPiece("", c, "");
    if s != "" {
      var k := FirstAt(s, c);
      var rec := s[..k];
      if k == |s| {
        FirstPiece(rec, c, "");
        assert rec == s && Terminated([rec], c) == rec + [c] + "";
      } else {
        var rest := s[k + 1..];
        assert s == rec + [c] + rest;
        FirstPiece(rec, c, rest);
        PiecesConserve(rest, c);
        assert ([rec] + Pieces(rest, c))[1..] == Pieces(rest, c);
        assert rest != "" ==> rest[|rest| - 1] == s[|s| - 1];
      }
    }
  }

  /** Where the first c is; |s| when there is none. */
  function FirstAt(s: string, c: char): (k: nat)
    ensures k <= |s| && Free(s[..k], {c}) && (k < |s| ==> s[k] == c)
  {
    if s == "" || s[0] == c then 0 else 1 + FirstAt(s[1..], c)
  }

  // ---------- a separating pattern ----------

  /** The first k characters end with a match, one that is not empty. */
  predicate EndsWithMatch(find: string -> Span, s: string, k: nat)
    requires k <= |s|
  {
    Proper(find(s[..k])) && find(s[..k]).end == k
  }

  /** The least such k from k0 on; |s| + 1 when there is none. */
  function MatchEnd(find: string -> Span, s: string, k0: nat): (k: nat)
    requires k0 <= |s| + 1
    ensures k0 <= k <= |s| + 1
    ensures k <= |s| ==> EndsWithMatch(find, s, k)
    ensures forall j :: k0 <= j < k ==> !EndsWithMatch(find, s, j)
    decreases |s| + 1 - k0
  {
    if k0 > |s| || EndsWithMatch(find, s, k0) then k0 else MatchEnd(find, s, k0 + 1)
  }

  function PatternRecords(find: string -> Span, s: string): seq<string>
    requires Sound(find)
    decreases |s|
  {
    if s == "" then []
    else
      var k := MatchEnd(find, s, 1);
      if k > |s| then [s] else [s[..find(s[..k]).start]] + PatternRecords(find, s[k..])
  }

  /** The separators between the records. */
  function PatternGaps(find: string -> Span, s: string): seq<string>
    requires Sound(find)
    decreases |s|
  {
    if s == "" then []
    else
      var k := MatchEnd(find, s, 1);
      if k > |s| then [] else [s[find(s[..k]).start..k]] + PatternGaps(find, s[k..])
  }

  lemma PatternStep(find: string -> Span, s: string)
    requires Sound(find) && s != ""
    ensures var k := MatchEnd(find, s, 1);
            if k > |s| then PatternRecords(find, s) == [s] && PatternGaps(find, s) == []
            else
              && find(s[..k]).Span? && find(s[..k]).start < k
              && PatternRecords(find, s) == [s[..find(s[..k]).start]] + PatternRecords(find, s[k..])
              && PatternGaps(find, s) == [s[find(s[..k]).start..k]] + PatternGaps(find, s[k..])
    ensures PatternRecords(find, "") == [] && PatternGaps(find, "") == []
  {
  }

  /** Records and separators alternate to give the text. */
  lemma {:induction false} PatternConserves(find: string -> Span, s: string)
    requires Sound(find)
    ensures Interleave(PatternRecords(find, s), PatternGaps(find, s)) == s
    decreases |s|
  {
    hide *;
    InterleaveOne(s);
    if s == "" {
      PatternNothing(find);
      return;
    }
    PatternStep(find, s);
    var k := MatchEnd(find, s, 1);
    if k <= |s| {
      var so, rest := find(s[..k]).start, s[k..];
      PatternConserves(find, rest);
      InterleaveMore(s[..so], s[so..k], PatternRecords(find, rest), PatternGaps(find, rest));
      assert s == s[..so] + s[so..k] + rest;
    }
  }

  lemma PatternNothing(find: string -> Span)
    requires Sound(find)
    ensures PatternRecords(find, "") == [] && PatternGaps(find, "") == []
  {
  }

  /** The first k characters end a record: they end with a match that is not empty. */
  ghost predicate RecordEnds(find: string -> Span, s: string, k: nat)
    requires k <= |s|
  {
    var m := find(s[..k]);
    m.Span? && m.start < m.end == k
  }

  /** The first place where a match that is not empty ends what is read ends the record;
      where there is none the record is all that is left. */
  lemma MatchEndsRecord(find: string -> Span, s: string, k: nat)
    requires Sound(find) && s != "" && 1 <= k <= |s| + 1
    requires forall j :: 1 <= j < k ==> !RecordEnds(find, s, j)
    requires k <= |s| ==> RecordEnds(find, s, k)
    ensures k <= |s| ==> PatternRecords(find, s) == [s[..find(s[..k]).start]] + PatternRecords(find, s[k..])
    ensures k > |s| ==> PatternRecords(find, s) == [s]
  {
    forall j | 1 <= j <= |s|
      ensures EndsWithMatch(find, s, j) <==> RecordEnds(find, s, j)
    {
      assert find(s[..j]).Span? ==> find(s[..j]).start <= find(s[..j]).end;
    }
    MatchEndIs(find, s, k);
    hide MatchEnd, EndsWithMatch, RecordEnds;
    PatternStep(find, s);
  }

  // ---------- the records of a file ----------

  function Records(compile: string -> Compiled, rs: string, s: string): seq<string>
    requires SoundCompiler(compile)
  {
    if rs == "" then Paragraphs(Cut(s, NL))
    else if |rs| == 1 then Pieces(s, rs[0])
    else if compile(rs).Compiled? then PatternRecords(compile(rs).find, s)
    else if s == "" then [] else [s]
  }

  class RecordReader {
    const data: string
    var pos: nat
    var paragraphMode: bool

    constructor (data: string)
      ensures this.data == data && pos == 0
    {
      this.data := data;
      pos, paragraphMode := 0, false;
    }

    predicate Valid()
      reads this
    {
      pos <= |data|
    }

    /** What is still to be read. */
    function Left(): string
      requires Valid()
      reads this
    {
      data[pos..]
    }

    method Getc() returns (c: Option<char>)
      requires Valid()
      modifies this`pos
      ensures Valid()
      ensures c == if old(pos) == |data| then None else Some(data[old(pos)])
      ensures pos == if old(pos) == |data| then old(pos) else old(pos) + 1
    {
      if pos == |data| {
        return None;
      }
      c := Some(data[pos]);
      pos := pos + 1;
    }

    method Ungetc()
      requires Valid() && pos > 0
      modifies this`pos
      ensures Valid() && pos == old(pos) - 1
    {
      pos := pos - 1;
    }

    /** Passes over newlines; the next character is pushed back. */
    method SkipNewlines() returns (more: bool)
      requires Valid()
      modifies this`pos
      ensures Valid() && pos >= old(pos)
      ensures Paragraphs(Cut(Left(), NL)) == Paragraphs(Cut(old(Left()), NL))
      ensures more <==> pos < |data|
      ensures more ==> data[pos] != '\n'
    {
      hide Paragraphs, Cut;
      while true
        invariant Valid() && pos >= old(pos)
        invariant Paragraphs(Cut(Left(), NL)) == Paragraphs(Cut(old(Left()), NL))
        decreases |data| - pos
      {
        ghost var was := Left();
        var c := Getc();
        if c.None? {
          return false;
        }
        if c.value == '\n' {
          assert was == ['\n'] + Left();
          LeadingNewline(Left());
          continue;
        }
        Ungetc();
        return true;
      }
    }

    /** Reads up to the second of two newlines; only the first is kept. */
    method ScanParagraph() returns (buf: string, blankLine: bool)
      requires Valid() && pos < |data| && data[pos] != '\n'
      modifies this`pos
      ensures Valid() && pos > old(pos)
      ensures old(Left()) == if blankLine then buf + "\n" + Left() else buf
      ensures !blankLine ==> Left() == ""
      ensures buf != "" && buf[0] != '\n' && forall k :: 0 <= k < |buf| - 1 && buf[k] == '\n' ==> buf[k + 1] != '\n'
      ensures blankLine ==> buf[|buf| - 1] == '\n'
    {
      buf := "";
      var blankRun := 0;
      var start := pos;
      while true
        invariant Valid() && start <= pos && buf == data[start..pos]
        invariant blankRun == if pos > start && data[pos - 1] == '\n' then 1 else 0
        invariant forall k :: start <= k < pos - 1 && data[k] == '\n' ==> data[k + 1] != '\n'
        decreases |data| - pos
      {
        var c := Getc();
        if c.None? {
          break;
        }
        if c.value == '\n' {
          blankRun := blankRun + 1;
          if blankRun >= 2 {
            assert data[start..] == data[start..pos - 1] + "\n" + data[pos..];
            return buf, true;
          }
          buf := buf + "\n";
          continue;
        }
        blankRun := 0;
        buf := buf + [c.value];
      }
      return buf, false;
    }

    /** Drops the newline that ends a paragraph. */
    static method TrimEnd(buf: string) returns (body: string)
      requires buf != "" && buf[0] != '\n' && forall k :: 0 <= k < |buf| - 1 && buf[k] == '\n' ==> buf[k + 1] != '\n'
      ensures NoBlankLine(body) && (buf == body || buf == body + "\n")
    {
      var len := |buf|;
      while len > 0 && buf[len - 1] == '\n'
        invariant 1 <= len <= |buf| && len >= |buf| - 1
        invariant len == |buf| || buf[|buf| - 1] == '\n'
        invariant len < |buf| ==> len > 0 && buf[len - 1] != '\n'
      {
        len := len - 1;
      }
      return buf[..len];
    }

    method ReadParagraph() returns (r: Option<string>)
      requires Valid()
      modifies this`pos
      ensures Valid()
      ensures r.None? ==> Paragraphs(Cut(old(Left()), NL)) == []
      ensures r.Some? ==> pos > old(pos) && NoBlankLine(r.value)
                          && Paragraphs(Cut(old(Left()), NL)) == [r.value] + Paragraphs(Cut(Left(), NL))
    {
      hide Paragraphs, Cut;
      LeadingNewline("");
      var more := SkipNewlines();
      if !more {
        assert Left() == "";
        return None;
      }
      ghost var text := Left();
      var buf, blankLine := ScanParagraph();
      ghost var rest := Left();
      if blankLine {
        more := SkipNewlines();
      }
      var body := TrimEnd(buf);
      BodyIsParagraph(body, rest);
      assert blankLine ==> text == body + "\n\n" + rest;
      return Some(body);
    }

    method ReadToCharacter(sep: char) returns (r: Option<string>)
      requires Valid()
      modifies this`pos
      ensures Valid()
      ensures r.None? ==> Pieces(old(Left()), sep) == []
      ensures r.Some? ==> pos > old(pos) && Pieces(old(Left()), sep) == [r.value] + Pieces(Left(), sep)
    {
      hide Pieces;
      FirstPiece("", sep, "");
      var buf: string := "";
      var any := false;
      var start := pos;
      while true
        invariant Valid() && start <= pos && buf == data[start..pos] && Free(buf, {sep})
        invariant any <==> pos > start
        decreases |data| - pos
      {
        var c := Getc();
        if c.None? {
          break;
        }
        any := true;
        if c.value == sep {
          FirstPiece(buf, sep, Left());
          assert data[start..] == buf + [sep] + Left();
          return Some(buf);
        }
        buf := buf + [c.value];
      }
      assert Left() == "" && data[start..] == buf;
      if !any {
        return None;
      }
      FirstPiece(buf, sep, "");
      return Some(buf);
    }

    method ReadToMatch(re: Compiled) returns (r: Option<string>)
      requires Valid() && (re.Compiled? ==> Sound(re.find))
      modifies this`pos
      ensures Valid()
      ensures r.None? ==> old(Left()) == ""
      ensures r.Some? ==> pos > old(pos)
      ensures r.Some? && re.BadPattern? ==> r.value == old(Left()) && Left() == ""
      ensures r.Some? && re.Compiled? ==> PatternRecords(re.find, old(Left())) == [r.value] + PatternRecords(re.find, Left())
    {
      hide PatternRecords, Sound, MatchEnd;
      var buf: string := "";
      var any := false;
      var start := pos;
      ghost var s := Left();
      while true
        invariant Valid() && start <= pos && buf == data[start..pos]
        invariant any <==> pos > start
        invariant re.Compiled? ==> forall j :: 1 <= j <= pos - start ==> !EndsWithMatch(re.find, s, j)
        decreases |data| - pos
      {
        var c := Getc();
        if c.None? {
          break;
        }
        any := true;
        buf := buf + [c.value];
        assert buf == s[..pos - start];
        if re.Compiled? {
          var m := re.find(buf);
          if m.Span? && m.end == |buf| && m.start != m.end {
            MatchEndIs(re.find, s, pos - start);
            PatternStep(re.find, s);
            assert s[pos - start..] == Left() && buf[..m.start] == s[..m.start];
            return Some(buf[..m.start]);
          }
        }
      }
      assert Left() == "" && s == buf;
      if !any {
        return None;
      }
      if re.Compiled? {
        MatchEndIs(re.find, s, |s| + 1);
        PatternStep(re.find, s);
      }
      return Some(buf);
    }

    /** The next record of what is left, or none. */
    method ReadRecord(compile: string -> Compiled, rs: string) returns (r: Option<string>)
      requires Valid() && SoundCompiler(compile)
      modifies this`pos, this`paragraphMode
      ensures Valid()
      ensures r.None? ==> Records(compile, rs, old(Left())) == []
      ensures r.Some? ==> pos > old(pos) && Records(compile, rs, old(Left())) == [r.value] + Records(compile, rs, Left())
      ensures paragraphMode <==> rs == ""
      ensures paragraphMode && r.Some? ==> NoBlankLine(r.value)
    {
      hide Paragraphs, Cut, Pieces, NoBlankLine;
      if rs == "" {
        paragraphMode := true;
        r := ReadParagraph();
        return;
      }
      paragraphMode := false;
      if |rs| == 1 {
        r := ReadToCharacter(rs[0]);
        return;
      }
      r := ReadToMatch(compile(rs));
    }

    /** Reading until there is none gives the records of the text, in order. */
    method ReadAll(compile: string -> Compiled, rs: string) returns (records: seq<string>)
      requires Valid() && SoundCompiler(compile)
      modifies this`pos, this`paragraphMode
      ensures records == Records(compile, rs, old(Left()))
    {
      hide Records;
      records := [];
      while true
        invariant Valid() && records + Records(compile, rs, Left()) == Records(compile, rs, old(Left()))
        decreases |data| - pos
      {
        var r := ReadRecord(compile, rs);
        if r.None? {
          return;
        }
        Regroup(records, [r.value], Records(compile, rs, Left()));
        records := records + [r.value];
      }
    }
  }

  lemma MatchEndIs(find: string -> Span, s: string, k: nat)
    requires 1 <= k <= |s| + 1
    requires forall j :: 1 <= j < k ==> !EndsWithMatch(find, s, j)
    requires k <= |s| ==> EndsWithMatch(find, s, k)
    ensures MatchEnd(find, s, 1) == k
  {
    hide EndsWithMatch;
  }
}
