/** comm: the merge of two line streams into three columns (src/comm_app.c). */
module Comm {
  import opened Lines
  import opened Sequences
  import opened Strings
  import opened Wrappers

  /** One step of the merge: a line of file 1 only, of file 2 only, or of both. */
  datatype Event = Only1(line: string) | Only2(line: string) | Both(line: string)

  datatype Flags = Flags(suppress1: bool, suppress2: bool, suppress3: bool)

  function Merge(f1: seq<string>, f2: seq<string>): seq<Event>
    decreases |f1| + |f2|
  {
    if f1 == [] && f2 == [] then []
    else if f2 == [] || (f1 != [] && StrCmp(f1[0], f2[0]) < 0) then [Only1(f1[0])] + Merge(f1[1..], f2)
    else if f1 == [] || StrCmp(f1[0], f2[0]) > 0 then [Only2(f2[0])] + Merge(f1, f2[1..])
    else [Both(f1[0])] + Merge(f1[1..], f2[1..])
  }

  // ---------- reading the columns back ----------

  /** The lines of columns 1 and 3, in order. */
  function Side1(events: seq<Event>): seq<string> {
    if events == [] then []
    else (if events[0].Only2? then [] else [events[0].line]) + Side1(events[1..])
  }

  /** The lines of columns 2 and 3, in order. */
  function Side2(events: seq<Event>): seq<string> {
    if events == [] then []
    else (if events[0].Only1? then [] else [events[0].line]) + Side2(events[1..])
  }

  /** How often a line appears in each column. */
  function Count1(events: seq<Event>): multiset<string> {
    if events == [] then multiset{}
    else (if events[0].Only1? then multiset{events[0].line} else multiset{}) + Count1(events[1..])
  }

  function Count2(events: seq<Event>): multiset<string> {
    if events == [] then multiset{}
    else (if events[0].Only2? then multiset{events[0].line} else multiset{}) + Count2(events[1..])
  }

  function Count3(events: seq<Event>): multiset<string> {
    if events == [] then multiset{}
    else (if events[0].Both? then multiset{events[0].line} else multiset{}) + Count3(events[1..])
  }

  /** The first event, and the files left after it. */
  lemma MergeHead(f1: seq<string>, f2: seq<string>) returns (e: Event, g1: seq<string>, g2: seq<string>)
    requires f1 != [] || f2 != []
    ensures Merge(f1, f2) == [e] + Merge(g1, g2) && |g1| + |g2| < |f1| + |f2|
    ensures e.Only1? ==> f1 != [] && e.line == f1[0] && g1 == f1[1..] && g2 == f2 && (f2 != [] ==> StrCmp(e.line, f2[0]) < 0)
    ensures e.Only2? ==> f2 != [] && e.line == f2[0] && g1 == f1 && g2 == f2[1..] && (f1 != [] ==> StrCmp(e.line, f1[0]) < 0)
    ensures e.Both? ==> f1 != [] && f2 != [] && e.line == f1[0] == f2[0] && g1 == f1[1..] && g2 == f2[1..]
  {
    e := Merge(f1, f2)[0];
    g1, g2 := if e.Only2? then f1 else f1[1..], if e.Only1? then f2 else f2[1..];
    if f1 != [] && f2 != [] {
      StrCmpZero(f1[0], f2[0]);
      StrCmpAntisymmetric(f2[0], f1[0]);
    }
  }

  lemma SidesOfHead(e: Event, events: seq<Event>)
    ensures Side1([e] + events) == (if e.Only2? then [] else [e.line]) + Side1(events)
    ensures Side2([e] + events) == (if e.Only1? then [] else [e.line]) + Side2(events)
  {
    assert ([e] + events)[1..] == events;
  }

  /** For any two inputs, columns 1 and 3 read in order are file 1, columns 2 and 3 file 2. */
  lemma {:induction false} ColumnsRestoreFiles(f1: seq<string>, f2: seq<string>)
    ensures Side1(Merge(f1, f2)) == f1
    ensures Side2(Merge(f1, f2)) == f2
    decreases |f1| + |f2|
  {
    hide StrCmp;
    if f1 != [] || f2 != [] {
      var e, g1, g2 := MergeHead(f1, f2);
      hide Merge, Side1, Side2;
      ColumnsRestoreFiles(g1, g2);
      SidesOfHead(e, Merge(g1, g2));
    }
  }

  ghost predicate Sorted(f: seq<string>) {
    forall i, j :: 0 <= i < j < |f| ==> StrCmp(f[i], f[j]) <= 0
  }

  /** A line before the first of a sorted file is not in it. */
  lemma NotInLater(line: string, f: seq<string>)
    requires Sorted(f) && (f != [] ==> StrCmp(line, f[0]) < 0)
    ensures line !in multiset(f)
  {
    forall i | 0 <= i < |f|
      ensures f[i] != line
    {
      if i > 0 {
        StrCmpTransitive(line, f[0], f[i]);
      }
      StrCmpZero(line, f[i]);
    }
  }

  lemma MultisetOfTail(f: seq<string>)
    requires f != []
    ensures multiset(f) == multiset{f[0]} + multiset(f[1..])
  {
    assert f == [f[0]] + f[1..];
  }

  lemma CountsOfHead(e: Event, events: seq<Event>)
    ensures Count1([e] + events) == (if e.Only1? then multiset{e.line} else multiset{}) + Count1(events)
    ensures Count2([e] + events) == (if e.Only2? then multiset{e.line} else multiset{}) + Count2(events)
    ensures Count3([e] + events) == (if e.Both? then multiset{e.line} else multiset{}) + Count3(events)
  {
    assert ([e] + events)[1..] == events;
  }

  /** In sorted files each line appears min(c1, c2) times in column 3 and the rest
      of its occurrences in column 1 or 2. */
  lemma {:induction false} ColumnsAreMultisetDifferences(f1: seq<string>, f2: seq<string>)
    requires Sorted(f1) && Sorted(f2)
    ensures Count1(Merge(f1, f2)) == multiset(f1) - multiset(f2)
    ensures Count2(Merge(f1, f2)) == multiset(f2) - multiset(f1)
    ensures Count3(Merge(f1, f2)) == multiset(f1) * multiset(f2)
    decreases |f1| + |f2|
  {
    if f1 == [] && f2 == [] {
      return;
    }
    var e, g1, g2 := MergeHead(f1, f2);
    hide StrCmp, Count1, Count2, Count3, Merge;
    ColumnsAreMultisetDifferences(g1, g2);
    CountsOfHead(e, Merge(g1, g2));
    if e.Only1? {
      NotInLater(e.line, f2);
      MultisetOfTail(f1);
    } else if e.Only2? {
      NotInLater(e.line, f1);
      MultisetOfTail(f2);
    } else {
      MultisetOfTail(f1);
      MultisetOfTail(f2);
    }
    hide Sorted;
    AddedLine(e, multiset(g1), multiset(g2), multiset(f1), multiset(f2));
  }

  /** What one more line does to the differences and the intersection. */
  lemma AddedLine(e: Event, a: multiset<string>, b: multiset<string>, c: multiset<string>, d: multiset<string>)
    requires c == (if e.Only2? then a else multiset{e.line} + a) && d == (if e.Only1? then b else multiset{e.line} + b)
    requires (e.Only1? ==> e.line !in b) && (e.Only2? ==> e.line !in a)
    ensures c - d == (if e.Only1? then multiset{e.line} else multiset{}) + (a - b)
    ensures d - c == (if e.Only2? then multiset{e.line} else multiset{}) + (b - a)
    ensures c * d == (if e.Both? then multiset{e.line} else multiset{}) + (a * b)
  {
    match e {
      case Only1(line) =>
        LineOnOneSide(line, a, b);
      case Only2(line) =>
        LineOnOneSide(line, b, a);
      case Both(line) =>
        LineOnBothSides(line, a, b);
    }
  }

  lemma LineOnOneSide(x: string, a: multiset<string>, b: multiset<string>)
    requires x !in b
    ensures (multiset{x} + a) - b == multiset{x} + (a - b)
    ensures b - (multiset{x} + a) == b - a
    ensures (multiset{x} + a) * b == a * b == b * a == b * (multiset{x} + a)
  {
  }

  lemma LineOnBothSides(x: string, a: multiset<string>, b: multiset<string>)
    ensures (multiset{x} + a) - (multiset{x} + b) == a - b
    ensures (multiset{x} + b) - (multiset{x} + a) == b - a
    ensures (multiset{x} + a) * (multiset{x} + b) == multiset{x} + (a * b)
  {
  }

  /** `bound` sorts before or with every line of the events. */
  ghost predicate AtLeast(bound: string, events: seq<Event>) {
    forall i :: 0 <= i < |events| ==> StrCmp(bound, events[i].line) <= 0
  }

  /** The merge of sorted files starts no earlier than their first lines ... */
  lemma {:induction false} MergeAtLeast(bound: string, f1: seq<string>, f2: seq<string>)
    requires Sorted(f1) && Sorted(f2)
    requires (f1 != [] ==> StrCmp(bound, f1[0]) <= 0) && (f2 != [] ==> StrCmp(bound, f2[0]) <= 0)
    ensures AtLeast(bound, Merge(f1, f2))
    decreases |f1| + |f2|
  {
    if f1 == [] && f2 == [] {
      return;
    }
    hide StrCmp, Merge;
    var e, g1, g2 := MergeHead(f1, f2);
    if g1 != [] && !e.Only2? {
      StrCmpTransitive(bound, f1[0], g1[0]);
    }
    if g2 != [] && !e.Only1? {
      StrCmpTransitive(bound, f2[0], g2[0]);
    }
    MergeAtLeast(bound, g1, g2);
  }

  /** ... so its output is sorted, across all columns. */
  lemma {:induction false} MergeIsSorted(f1: seq<string>, f2: seq<string>)
    requires Sorted(f1) && Sorted(f2)
    ensures forall i :: 0 <= i < |Merge(f1, f2)| ==> AtLeast(Merge(f1, f2)[i].line, Merge(f1, f2)[i..])
    decreases |f1| + |f2|
  {
    if f1 == [] && f2 == [] {
      return;
    }
    hide StrCmp, Merge;
    var e, g1, g2 := MergeHead(f1, f2);
    MergeIsSorted(g1, g2);
    StrCmpZero(e.line, e.line);
    MergeAtLeast(e.line, g1, g2);
    var events := [e] + Merge(g1, g2);
    forall i | 0 <= i < |events|
      ensures AtLeast(events[i].line, events[i..])
    {
      if i > 0 {
        assert events[i..] == Merge(g1, g2)[i - 1..];
      }
    }
  }

  // ---------- the printed form ----------

  predicate Suppressed(e: Event, flags: Flags) {
    match e
    case Only1(_) => flags.suppress1
    case Only2(_) => flags.suppress2
    case Both(_) => flags.suppress3
  }

  /** One tab for every column to the left that is printed at all. */
  function Indent(e: Event, flags: Flags): nat {
    match e
    case Only1(_) => 0
    case Only2(_) => if flags.suppress1 then 0 else 1
    case Both(_) => (if flags.suppress1 then 0 else 1) + (if flags.suppress2 then 0 else 1)
  }

  function Tabs(n: nat): string {
    if n == 0 then "" else Tabs(n - 1) + "\t"
  }

  function Kept(events: seq<Event>, flags: Flags): seq<Event> {
    if events == [] then []
    else (if Suppressed(events[0], flags) then [] else [events[0]]) + Kept(events[1..], flags)
  }

  function OutputLines(events: seq<Event>, flags: Flags): seq<string> {
    if events == [] then []
    else (if Suppressed(events[0], flags) then [] else [Tabs(Indent(events[0], flags)) + events[0].line])
         + OutputLines(events[1..], flags)
  }

  function LeadingTabs(s: string): nat {
    if s != [] && s[0] == '\t' then 1 + LeadingTabs(s[1..]) else 0
  }

  /** Reads a printed line back: the number of tabs names the column among those printed. */
  function ReadLine(s: string, flags: Flags): Event {
    var t := LeadingTabs(s);
    var line := s[if t <= |s| then t else |s|..];
    if t == 0 && !flags.suppress1 then Only1(line)
    else if t == Indent(Only2(line), flags) && !flags.suppress2 then Only2(line)
    else Both(line)
  }

  function ReadLines(s: seq<string>, flags: Flags): seq<Event> {
    if s == [] then [] else [ReadLine(s[0], flags)] + ReadLines(s[1..], flags)
  }

  predicate NoLeadingTab(line: string) {
    line == [] || line[0] != '\t'
  }

  lemma {:induction false} TabsCounted(n: nat, line: string)
    requires NoLeadingTab(line)
    ensures LeadingTabs(Tabs(n) + line) == n == |Tabs(n)|
  {
    if n > 0 {
      TabsShift(n - 1);
      var s := Tabs(n) + line;
      assert s[1..] == Tabs(n - 1) + line;
      TabsCounted(n - 1, line);
    }
  }

  lemma {:induction false} TabsShift(n: nat)
    ensures Tabs(n) + "\t" == "\t" + Tabs(n)
  {
    if n > 0 {
      TabsShift(n - 1);
      assert ("\t" + Tabs(n - 1)) + "\t" == "\t" + (Tabs(n - 1) + "\t");
    }
  }

  /** Each suppress flag removes exactly its column: what is printed still tells
      the column of every line that is left. */
  lemma {:induction false} OutputTellsColumns(events: seq<Event>, flags: Flags)
    requires forall i :: 0 <= i < |events| ==> NoLeadingTab(events[i].line)
    ensures ReadLines(OutputLines(events, flags), flags) == Kept(events, flags)
  {
    if events != [] {
      OutputTellsColumns(events[1..], flags);
      var e, rest := events[0], OutputLines(events[1..], flags);
      if !Suppressed(e, flags) {
        var s := Tabs(Indent(e, flags)) + e.line;
        TabsCounted(Indent(e, flags), e.line);
        assert s[Indent(e, flags)..] == e.line;
        assert ReadLine(s, flags) == e;
        assert OutputLines(events, flags) == [s] + rest && ([s] + rest)[1..] == rest;
      } else {
        assert OutputLines(events, flags) == rest;
      }
    }
  }

  // ---------- the code ----------

  /** The line in hand, if any, and those still to be read. */
  function Ahead(have: bool, line: string, input: LineReader): seq<string>
    requires input.Valid()
    reads input
  {
    (if have then [line] else []) + input.Rest()
  }

  method NextLine(input: LineReader) returns (have: bool, line: string)
    requires input.Valid()
    modifies input
    ensures input.Valid()
    ensures Ahead(have, line, input) == old(input.Rest())
    ensures !have ==> old(input.Rest()) == []
  {
    var next := input.GetLine();
    match next {
      case None => have, line := false, "";
      case Some(s) => have, line := true, s;
    }
  }

  lemma OutputOfHead(e: Event, events: seq<Event>, flags: Flags)
    ensures Unlines(OutputLines([e] + events, flags))
         == (if Suppressed(e, flags) then "" else Tabs(Indent(e, flags)) + e.line + "\n") + Unlines(OutputLines(events, flags))
  {
    assert ([e] + events)[1..] == events;
    var rest := OutputLines(events, flags);
    if !Suppressed(e, flags) {
      var s := Tabs(Indent(e, flags)) + e.line;
      assert ([s] + rest)[1..] == rest;
    } else {
      assert [] + rest == rest;
    }
  }

  /** What is printed for the first event, and what for the rest. */
  function Printed(f1: seq<string>, f2: seq<string>, flags: Flags): string {
    Unlines(OutputLines(Merge(f1, f2), flags))
  }

  /** What one turn of the loop writes. */
  function FirstText(cmp: int, line1: string, line2: string, flags: Flags): string {
    if cmp < 0 then (if flags.suppress1 then "" else line1 + "\n")
    else if cmp > 0 then (if flags.suppress2 then "" else (if flags.suppress1 then "" else "\t") + line2 + "\n")
    else (if flags.suppress3 then "" else Tabs(Indent(Both(line1), flags)) + line1 + "\n")
  }

  lemma FirstTurn(f1: seq<string>, f2: seq<string>, cmp: int, line1: string, line2: string, flags: Flags)
    requires f1 != [] || f2 != []
    requires (f1 != [] ==> line1 == f1[0]) && (f2 != [] ==> line2 == f2[0])
    requires cmp == if f1 != [] && f2 != [] then StrCmp(line1, line2) else if f1 != [] then -1 else 1
    ensures var g1, g2 := if cmp > 0 then f1 else f1[1..], if cmp < 0 then f2 else f2[1..];
            Printed(f1, f2, flags) == FirstText(cmp, line1, line2, flags) + Printed(g1, g2, flags)
  {
    var g1, g2 := if cmp > 0 then f1 else f1[1..], if cmp < 0 then f2 else f2[1..];
    var e := if cmp < 0 then Only1(line1) else if cmp > 0 then Only2(line2) else Both(line1);
    assert Merge(f1, f2) == [e] + Merge(g1, g2);
    OutputOfHead(e, Merge(g1, g2), flags);
    assert Tabs(0) == "" && Tabs(1) == "\t";
    assert "" + line1 == line1 && "" + line2 == line2;
  }

  method MergeStreams(in1: LineReader, in2: LineReader, flags: Flags) returns (out: string)
    requires in1.Valid() && in2.Valid() && in1 != in2
    modifies in1, in2
    ensures out == Unlines(OutputLines(Merge(old(in1.Rest()), old(in2.Rest())), flags))
  {
    ghost var f1, f2 := in1.Rest(), in2.Rest();
    ghost var all := Printed(f1, f2, flags);
    assert all == Unlines(OutputLines(Merge(f1, f2), flags));
    NothingPrinted(flags);
    hide StrCmp, Printed, LinesOf, OutputLines, Unlines, Merge, Tabs, FirstText;
    out := "";
    var have1, line1 := NextLine(in1);
    var have2, line2 := NextLine(in2);
    while have1 || have2
      invariant in1.Valid() && in2.Valid()
      invariant f1 == Ahead(have1, line1, in1) && (!have1 ==> f1 == [])
      invariant f2 == Ahead(have2, line2, in2) && (!have2 ==> f2 == [])
      invariant out + Printed(f1, f2, flags) == all
      decreases |f1| + |f2|
    {
      var cmp := if have1 && have2 then StrCmp(line1, line2) else if have1 then -1 else 1;
      var text := PrintFirst(cmp, line1, line2, flags);
      FirstTurn(f1, f2, cmp, line1, line2, flags);
      ghost var g1, g2 := if cmp > 0 then f1 else f1[1..], if cmp < 0 then f2 else f2[1..];
      Regroup(out, text, Printed(g1, g2, flags));
      out := out + text;
      f1, f2 := g1, g2;
      if cmp < 0 {
        have1, line1 := NextLine(in1);
      } else if cmp > 0 {
        have2, line2 := NextLine(in2);
      } else {
        have1, line1 := NextLine(in1);
        have2, line2 := NextLine(in2);
      }
    }
  }

  method PrintFirst(cmp: int, line1: string, line2: string, flags: Flags) returns (text: string)
    ensures text == FirstText(cmp, line1, line2, flags)
  {
    var prefix2 := if flags.suppress1 then "" else "\t";
    var prefix3Tabs := (if flags.suppress1 then 0 else 1) + (if flags.suppress2 then 0 else 1);
    text := "";
    if cmp < 0 {
      if !flags.suppress1 {
        text := line1 + "\n";
      }
    } else if cmp > 0 {
      if !flags.suppress2 {
        text := prefix2 + line2 + "\n";
      }
    } else if !flags.suppress3 {
      var i := 0;
      while i < prefix3Tabs
        invariant 0 <= i <= prefix3Tabs && text == Tabs(i)
      {
        text := text + "\t";
        i := i + 1;
      }
      text := text + line1 + "\n";
    }
  }

  lemma NothingPrinted(flags: Flags)
    ensures Printed([], [], flags) == ""
  {
  }
}
