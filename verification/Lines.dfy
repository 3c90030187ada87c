/** Reading a text line by line, as getline does. */
module Lines {

  import opened Wrappers

  /** The length of the first line, without its newline. */
  function LineEnd(text: string): (n: nat)
    ensures n <= |text|
    ensures forall k :: 0 <= k < n ==> text[k] != '\n'
    ensures n < |text| ==> text[n] == '\n'
  {
    if text == [] || text[0] == '\n' then 0 else 1 + LineEnd(text[1..])
  }

  /** The lines of a text without their newlines; a last line needs none. */
  function LinesOf(text: string): seq<string>
    decreases |text|
  {
    if text == [] then []
    else
      var n := LineEnd(text);
      [text[..n]] + if n == |text| then [] else LinesOf(text[n + 1..])
  }

  /** Every line followed by a newline. */
  function Unlines(lines: seq<string>): string {
    if lines == [] then "" else lines[0] + "\n" + Unlines(lines[1..])
  }

  predicate NewlineFree(line: string) {
    '\n' !in line
  }

  lemma {:induction false} UnlinesOfLonger(s: seq<string>, t: seq<string>)
    ensures Unlines(s + t) == Unlines(s) + Unlines(t)
  {
    if s == [] {
      assert s + t == t;
    } else {
      UnlinesOfLonger(s[1..], t);
      assert (s + t)[1..] == s[1..] + t;
    }
  }

  lemma {:induction false} LineEndOf(line: string, rest: string)
    requires NewlineFree(line)
    ensures LineEnd(line + "\n" + rest) == |line|
  {
    var text := line + "\n" + rest;
    if line != [] {
      LineEndOf(line[1..], rest);
      assert text[1..] == line[1..] + "\n" + rest;
    }
  }

  /** Reading what was written line by line gives the lines back. */
  lemma {:induction false} LinesOfUnlines(lines: seq<string>)
    requires forall k :: 0 <= k < |lines| ==> NewlineFree(lines[k])
    ensures LinesOf(Unlines(lines)) == lines
  {
    if lines != [] {
      var rest := Unlines(lines[1..]);
      LineEndOf(lines[0], rest);
      var text := lines[0] + "\n" + rest;
      assert text[..|lines[0]|] == lines[0] && text[|lines[0]| + 1..] == rest;
      LinesOfUnlines(lines[1..]);
    }
  }

  /** The first line apart, and what is left behind its newline. */
  lemma FirstLine(text: string, rest: string)
    requires text != []
    requires rest == if LineEnd(text) == |text| then [] else text[LineEnd(text) + 1..]
    ensures LinesOf(text) == [text[..LineEnd(text)]] + LinesOf(rest)
  {
    hide LineEnd;
  }

  /** A stream with its read position. */
  class LineReader {
    const text: string
    var pos: nat

    constructor (text: string)
      ensures this.text == text && Valid() && Rest() == LinesOf(text)
    {
      this.text := text;
      pos := 0;
      new;
      assert text[0..] == text;
    }

    ghost predicate Valid()
      reads this
    {
      pos <= |text|
    }

    /** The lines that are still to come. */
    function Rest(): seq<string>
      requires Valid()
      reads this
    {
      LinesOf(text[pos..])
    }

    method GetLine() returns (line: Option<string>)
      requires Valid()
      modifies this
      ensures Valid()
      ensures old(Rest()) == [] ==> line == None && Rest() == []
      ensures old(Rest()) != [] ==> line == Some(old(Rest())[0]) && Rest() == old(Rest())[1..]
    {
      if pos == |text| {
        return None;
      }
      hide LinesOf;
      ghost var before := text[pos..];
      var start := pos;
      while pos < |text| && text[pos] != '\n'
        invariant start <= pos <= |text|
        invariant LineEnd(before) == pos - start + LineEnd(text[pos..])
      {
        assert text[pos..][1..] == text[pos + 1..];
        pos := pos + 1;
      }
      line := Some(text[start..pos]);
      ghost var n := pos - start;
      assert before[..n] == text[start..pos];
      if pos < |text| {
        pos := pos + 1;
        assert before[n + 1..] == text[pos..];
      }
      FirstLine(before, text[pos..]);
    }
  }
}
