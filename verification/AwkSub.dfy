/** sub and gsub over any matcher (src/awk_interp.c, awkDoSub). */
module AwkSub {

  import opened AwkRegex
  import opened Sequences

  /** A compiled pattern on what is left of the target; the flag says that this
      is not the beginning of the target. */
  type Matcher = (string, bool) -> Span

  datatype Pattern = Bad | Good(find: Matcher)

  ghost predicate SoundMatcher(find: Matcher) {
    forall s, notBol :: find(s, notBol).Span? ==> find(s, notBol).start <= find(s, notBol).end <= |s|
  }

  // ---------- the replacement ----------

  /** `&` stands for the match; a backslash before `&` or a backslash is dropped. */
  function Expand(repl: string, matched: string): string {
    if repl == "" then ""
    else if repl[0] == '&' then matched + Expand(repl[1..], matched)
    else if repl[0] == '\\' && |repl| > 1 && repl[1] in {'&', '\\'} then [repl[1]] + Expand(repl[2..], matched)
    else [repl[0]] + Expand(repl[1..], matched)
  }

  /** A replacement that stands for `text` itself. */
  function Quote(text: string): string {
    if text == "" then "" else QuoteOne(text[0]) + Quote(text[1..])
  }

  function QuoteOne(c: char): string {
    if c in {'&', '\\'} then ['\\', c] else [c]
  }

  /** A quoted text stands for itself whatever comes behind it. */
  lemma {:induction false} QuotedThen(text: string, rest: string, matched: string)
    ensures Expand(Quote(text) + rest, matched) == text + Expand(rest, matched)
  {
    hide Expand;
    if text == "" {
      assert Quote(text) + rest == rest;
    } else {
      QuotedThen(text[1..], rest, matched);
      Regroup(QuoteOne(text[0]), Quote(text[1..]), rest);
      QuotedCharacter(text[0], Quote(text[1..]) + rest, matched);
      Regroup([text[0]], text[1..], Expand(rest, matched));
    }
  }

  lemma QuotedCharacter(c: char, rest: string, matched: string)
    ensures Expand(QuoteOne(c) + rest, matched) == [c] + Expand(rest, matched)
  {
    if c in {'&', '\\'} {
      assert (QuoteOne(c) + rest)[2..] == rest;
    } else {
      assert (QuoteOne(c) + rest)[1..] == rest;
    }
  }

  /** Every text can be given as a replacement. */
  lemma QuotedIsLiteral(text: string, matched: string)
    ensures Expand(Quote(text), matched) == text
  {
    QuotedThen(text, "", matched);
    assert Quote(text) + "" == Quote(text) && text + "" == text;
  }

  /** A bare `&` stands for the match wherever it is. */
  lemma AmpersandIsMatch(text: string, rest: string, matched: string)
    ensures Expand(Quote(text) + "&" + rest, matched) == text + matched + Expand(rest, matched)
  {
    hide Expand, Quote;
    Regroup(Quote(text), "&", rest);
    QuotedThen(text, "&" + rest, matched);
    AmpersandFirst(rest, matched);
    Regroup(text, matched, Expand(rest, matched));
  }

  lemma AmpersandFirst(rest: string, matched: string)
    ensures Expand("&" + rest, matched) == matched + Expand(rest, matched)
  {
    assert ("&" + rest)[1..] == rest;
  }

  /** A backslash before any other character, or at the end, is kept. */
  lemma BackslashStays(rest: string, matched: string)
    requires rest != "" ==> rest[0] !in {'&', '\\'}
    ensures Expand("\\" + rest, matched) == "\\" + Expand(rest, matched)
  {
    assert ("\\" + rest)[1..] == rest;
  }

  /** The pieces with the same text between them. */
  function Between(pieces: seq<string>, mid: string): string {
    if pieces == [] then ""
    else if |pieces| == 1 then pieces[0]
    else pieces[0] + mid + Between(pieces[1..], mid)
  }

  function QuoteAll(pieces: seq<string>): (quoted: seq<string>)
    ensures |quoted| == |pieces| && forall k :: 0 <= k < |pieces| ==> quoted[k] == Quote(pieces[k])
  {
    seq(|pieces|, k requires 0 <= k < |pieces| => Quote(pieces[k]))
  }

  /** Quoted pieces with `&` between them become the pieces with the match between them. */
  lemma {:induction false} PiecesAroundMatch(pieces: seq<string>, matched: string)
    ensures Expand(Between(QuoteAll(pieces), "&"), matched) == Between(pieces, matched)
  {
    hide Expand, Quote;
    if |pieces| == 1 {
      QuotedIsLiteral(pieces[0], matched);
    } else if |pieces| > 1 {
      assert QuoteAll(pieces)[1..] == QuoteAll(pieces[1..]);
      PiecesAroundMatch(pieces[1..], matched);
      AmpersandIsMatch(pieces[0], Between(QuoteAll(pieces[1..]), "&"), matched);
    } else {
      QuotedIsLiteral("", matched);
      NothingQuoted();
    }
  }

  lemma NothingQuoted()
    ensures Quote("") == ""
  {
  }

  // ---------- the spans ----------

  /** Where the search goes on after a match at p: behind it, and one further
      when it is empty. */
  function NextStart(p: nat, m: Span): nat
    requires m.Span?
  {
    if m.start == m.end then p + m.start + 1 else p + m.end
  }

  /** The matches from position p on: the matcher's answers, each asked where the
      one before it ended. */
  function Spans(find: Matcher, t: string, p: nat, global: bool): seq<Span>
    requires SoundMatcher(find)
    decreases |t| - p
  {
    if p >= |t| then []
    else
      var m := find(t[p..], p > 0);
      if m.NoMatch? then []
      else [Span(p + m.start, p + m.end)] + if global then Spans(find, t, NextStart(p, m), global) else []
  }

  predicate Empty(m: Span) {
    m.Span? && m.start == m.end
  }

  /** From left to right and disjoint; what follows an empty span starts behind it. */
  predicate InOrder(spans: seq<Span>, from: nat, len: nat) {
    spans != [] ==>
      && spans[0].Span? && from <= spans[0].start <= spans[0].end <= len
      && InOrder(spans[1..], spans[0].end, len)
      && (Empty(spans[0]) && |spans| > 1 ==> spans[1].Span? && spans[1].start > spans[0].end)
  }

  lemma InOrderFrom(spans: seq<Span>, from: nat, later: nat, len: nat)
    requires from <= later && InOrder(spans, later, len)
    ensures InOrder(spans, from, len)
  {
  }

  /** The spans are in order and disjoint, and `sub` has at most one. */
  lemma {:induction false} SpansInOrder(find: Matcher, t: string, p: nat, global: bool)
    requires SoundMatcher(find)
    ensures InOrder(Spans(find, t, p, global), p, |t|)
    ensures !global ==> |Spans(find, t, p, global)| <= 1
    decreases |t| - p
  {
    if p < |t| && find(t[p..], p > 0).Span? {
      var m := find(t[p..], p > 0);
      var spans := Spans(find, t, p, global);
      if global {
        var rest := Spans(find, t, NextStart(p, m), global);
        assert spans[1..] == rest;
        SpansInOrder(find, t, NextStart(p, m), global);
        InOrderFrom(rest, p + m.end, NextStart(p, m), |t|);
      } else {
        assert spans[1..] == [];
      }
    }
  }

  /** Where the i-th search begins: behind the match before it, and one further when that
      was empty. */
  function Begin(p: nat, spans: seq<Span>, i: nat): nat
    requires i <= |spans|
  {
    if i == 0 then p else After(spans[i - 1])
  }

  function After(m: Span): nat {
    if m.NoMatch? then 0 else if m.start == m.end then m.end + 1 else m.end
  }

  /** Every span gsub replaces is the matcher's answer on all that is left there, so no
      match in between is passed over. */
  lemma {:induction false} EverySpanIsAnAnswer(find: Matcher, t: string, p: nat, i: nat)
    requires SoundMatcher(find) && i < |Spans(find, t, p, true)|
    ensures var spans := Spans(find, t, p, true); var q := Begin(p, spans, i);
            && spans[i].Span? && q < |t|
            && find(t[q..], q > 0).Span? && spans[i].start == q + find(t[q..], q > 0).start
            && spans[i].end == q + find(t[q..], q > 0).end
    decreases i
  {
    hide Spans, Begin, SoundMatcher;
    NoneAtEnd(find, t, p);
    SpansStep(find, t, p, true);
    var m := find(t[p..], p > 0);
    var rest := Spans(find, t, NextStart(p, m), true);
    BeginStep(p, Span(p + m.start, p + m.end), rest, i);
    if i > 0 {
      EverySpanIsAnAnswer(find, t, NextStart(p, m), i - 1);
    }
  }

  lemma NoneAtEnd(find: Matcher, t: string, p: nat)
    requires SoundMatcher(find)
    ensures p >= |t| ==> Spans(find, t, p, true) == []
  {
  }

  lemma BeginStep(p: nat, m: Span, rest: seq<Span>, i: nat)
    requires m.Span? && i <= |rest|
    ensures Begin(p, [m] + rest, 0) == p
    ensures i > 0 ==> Begin(p, [m] + rest, i) == Begin(After(m), rest, i - 1)
    ensures i > 0 ==> ([m] + rest)[i] == rest[i - 1]
  {
  }

  /** Where the search stands after these spans. */
  function Stop(p: nat, spans: seq<Span>): nat
    decreases |spans|
  {
    if spans == [] || spans[0].NoMatch? then p
    else Stop(if Empty(spans[0]) then spans[0].end + 1 else spans[0].end, spans[1..])
  }

  lemma SpansStep(find: Matcher, t: string, p: nat, global: bool)
    requires SoundMatcher(find) && p < |t|
    ensures var m := find(t[p..], p > 0);
            if m.NoMatch? then Spans(find, t, p, global) == []
            else
              && m.start <= m.end <= |t| - p
              && Spans(find, t, p, global)
              == [Span(p + m.start, p + m.end)] + if global then Spans(find, t, NextStart(p, m), global) else []
  {
  }

  lemma NoSpansAtEnd(find: Matcher, t: string, p: nat)
    requires SoundMatcher(find) && p >= |t|
    ensures Spans(find, t, p, true) == []
  {
  }

  lemma StopCons(p: nat, m: Span, rest: seq<Span>)
    requires m.Span?
    ensures Stop(p, [m] + rest) == Stop(if Empty(m) then m.end + 1 else m.end, rest)
    ensures Stop(p, []) == p
  {
    assert ([m] + rest)[1..] == rest;
  }

  /** gsub stops only where nothing is left or the matcher finds nothing more. */
  lemma {:induction false} NothingIsLeftToMatch(find: Matcher, t: string, p: nat)
    requires SoundMatcher(find)
    ensures var q := Stop(p, Spans(find, t, p, true)); q < |t| ==> find(t[q..], q > 0).NoMatch?
    decreases |t| - p
  {
    hide Spans, Stop, SoundMatcher;
    StopCons(p, Span(p, p), []);
    if p < |t| {
      SpansStep(find, t, p, true);
      var m := find(t[p..], p > 0);
      if m.Span? {
        StopCons(p, Span(p + m.start, p + m.end), Spans(find, t, NextStart(p, m), true));
        NothingIsLeftToMatch(find, t, NextStart(p, m));
      }
    } else {
      NoSpansAtEnd(find, t, p);
    }
  }

  /** sub replaces the first of the spans that gsub replaces, if there is one. */
  lemma SubIsFirstOfGsub(find: Matcher, t: string)
    requires SoundMatcher(find)
    ensures var all := Spans(find, t, 0, true);
            Spans(find, t, 0, false) == if all == [] then [] else [all[0]]
  {
  }

  // ---------- the result ----------

  /** The target from `from` on with every span replaced. */
  function Splice(t: string, spans: seq<Span>, repl: string, from: nat): string
    requires from <= |t| && InOrder(spans, from, |t|)
    decreases |spans|
  {
    if spans == [] then t[from..]
    else
      var m := spans[0];
      t[from..m.start] + Expand(repl, t[m.start..m.end]) + Splice(t, spans[1..], repl, m.end)
  }

  /** The replacement "&" changes nothing. */
  lemma {:induction false} AmpersandIsIdentity(t: string, spans: seq<Span>, from: nat)
    requires from <= |t| && InOrder(spans, from, |t|)
    ensures Splice(t, spans, "&", from) == t[from..]
    decreases |spans|
  {
    if spans != [] {
      var m := spans[0];
      AmpersandIsIdentity(t, spans[1..], m.end);
      var matched := t[m.start..m.end];
      assert Expand("&", matched) == matched + Expand("", matched) == matched;
      assert t[from..] == t[from..m.start] + matched + t[m.end..];
    }
  }

  /** The pieces of the target outside the spans, one more than there are spans. */
  function Outside(t: string, spans: seq<Span>, from: nat): (pieces: seq<string>)
    requires from <= |t| && InOrder(spans, from, |t|)
    ensures |pieces| == |spans| + 1
    decreases |spans|
  {
    if spans == [] then [t[from..]] else [t[from..spans[0].start]] + Outside(t, spans[1..], spans[0].end)
  }

  /** Replacing by a text puts it between the pieces. */
  lemma {:induction false} TextBetweenPieces(t: string, spans: seq<Span>, text: string, from: nat)
    requires from <= |t| && InOrder(spans, from, |t|)
    ensures Splice(t, spans, Quote(text), from) == Between(Outside(t, spans, from), text)
    decreases |spans|
  {
    hide Expand, Quote;
    if spans != [] {
      var m := spans[0];
      QuotedIsLiteral(text, t[m.start..m.end]);
      TextBetweenPieces(t, spans[1..], text, m.end);
      var rest := Outside(t, spans[1..], m.end);
      assert ([t[from..m.start]] + rest)[1..] == rest;
    }
  }

  /** What the replacements add to the length. */
  function Added(t: string, spans: seq<Span>, repl: string, from: nat): int
    requires InOrder(spans, from, |t|)
    decreases |spans|
  {
    if spans == [] then 0
    else
      var m := spans[0];
      |Expand(repl, t[m.start..m.end])| - (m.end - m.start) + Added(t, spans[1..], repl, m.end)
  }

  /** Outside the spans nothing is lost or added. */
  lemma {:induction false} LengthIsConserved(t: string, spans: seq<Span>, repl: string, from: nat)
    requires from <= |t| && InOrder(spans, from, |t|)
    ensures |Splice(t, spans, repl, from)| == |t| - from + Added(t, spans, repl, from)
    decreases |spans|
  {
    hide Expand;
    if spans != [] {
      LengthIsConserved(t, spans[1..], repl, spans[0].end);
    }
  }

  lemma SpliceSkip(t: string, spans: seq<Span>, repl: string, from: nat)
    requires from < |t| && InOrder(spans, from + 1, |t|)
    ensures InOrder(spans, from, |t|)
    ensures Splice(t, spans, repl, from) == [t[from]] + Splice(t, spans, repl, from + 1)
  {
    hide Expand;
    if spans == [] {
      assert t[from..] == [t[from]] + t[from + 1..];
    } else {
      var m := spans[0];
      var rest := Splice(t, spans[1..], repl, m.end);
      assert t[from..m.start] == [t[from]] + t[from + 1..m.start];
      Regroup4([t[from]], t[from + 1..m.start], Expand(repl, t[m.start..m.end]), rest);
    }
  }

  /** What is still to be written when the search stands at p. */
  function Rest(find: Matcher, t: string, p: nat, repl: string, global: bool): string
    requires SoundMatcher(find) && p <= |t|
  {
    SpansInOrder(find, t, p, global);
    Splice(t, Spans(find, t, p, global), repl, p)
  }

  /** What is to be written behind the match at p. */
  function Tail(find: Matcher, t: string, p: nat, m: Span, repl: string, global: bool): string
    requires SoundMatcher(find) && m.Span? && m.start <= m.end && p + m.end <= |t|
  {
    if !global then t[p + m.end..]
    else if !Empty(m) then Rest(find, t, p + m.end, repl, global)
    else if p + m.start < |t| then [t[p + m.start]] + Rest(find, t, p + m.start + 1, repl, global)
    else ""
  }

  lemma SpliceCons(t: string, m: Span, rest: seq<Span>, repl: string, from: nat)
    requires from <= |t| && InOrder([m] + rest, from, |t|)
    ensures InOrder(rest, m.end, |t|)
    ensures Splice(t, [m] + rest, repl, from)
         == t[from..m.start] + Expand(repl, t[m.start..m.end]) + Splice(t, rest, repl, m.end)
  {
    hide Expand;
    assert ([m] + rest)[1..] == rest;
  }

  lemma SpliceNothing(t: string, repl: string, from: nat)
    requires from <= |t|
    ensures Splice(t, [], repl, from) == t[from..]
  {
  }

  /** What Rest is by definition. */
  lemma RestIs(find: Matcher, t: string, p: nat, repl: string, global: bool)
    requires SoundMatcher(find) && p <= |t|
    ensures InOrder(Spans(find, t, p, global), p, |t|)
    ensures Rest(find, t, p, repl, global) == Splice(t, Spans(find, t, p, global), repl, p)
    ensures p == |t| ==> Spans(find, t, p, global) == [] && Rest(find, t, p, repl, global) == ""
  {
    SpansInOrder(find, t, p, global);
    assert p == |t| ==> t[p..] == "";
  }

  lemma TailCases(find: Matcher, t: string, p: nat, m: Span, repl: string, global: bool)
    requires SoundMatcher(find) && m.Span? && m.start <= m.end && p + m.end <= |t|
    ensures var tail := Tail(find, t, p, m, repl, global);
            && NextStart(p, m) == (if m.start == m.end then p + m.start + 1 else p + m.end)
            && (!global ==> tail == t[p + m.end..])
            && (global && m.start < m.end ==> tail == Rest(find, t, p + m.end, repl, global))
            && (global && m.start == m.end && p + m.start < |t| ==>
                  tail == [t[p + m.start]] + Rest(find, t, p + m.start + 1, repl, global))
            && (global && m.start == m.end && p + m.start == |t| ==> tail == "")
  {
    hide Rest;
  }

  /** What is written behind the match is what is left of the spans, spliced. */
  lemma TailIs(find: Matcher, t: string, p: nat, m: Span, repl: string)
    requires SoundMatcher(find) && p < |t| && m.Span? && m.start <= m.end <= |t| - p
    ensures var rest := Spans(find, t, NextStart(p, m), true);
            && InOrder(rest, p + m.end, |t|)
            && Splice(t, rest, repl, p + m.end) == Tail(find, t, p, m, repl, true)
  {
    hide Spans, Splice, InOrder, Expand;
    var n := NextStart(p, m);
    var rest := Spans(find, t, n, true);
    SpansInOrder(find, t, n, true);
    InOrderFrom(rest, p + m.end, n, |t|);
    if !Empty(m) {
      RestIs(find, t, n, repl, true);
    } else if p + m.start < |t| {
      RestIs(find, t, n, repl, true);
      SpliceSkip(t, rest, repl, p + m.start);
    } else {
      NoSpansAtEnd(find, t, n);
      SpliceNothing(t, repl, p + m.end);
      assert t[p + m.end..] == "";
    }
  }

  lemma RestStep(find: Matcher, t: string, p: nat, repl: string, global: bool)
    requires SoundMatcher(find) && p < |t|
    ensures var m := find(t[p..], p > 0);
            if m.NoMatch? then Rest(find, t, p, repl, global) == t[p..] && Spans(find, t, p, global) == []
            else
              && m.start <= m.end <= |t| - p
              && Rest(find, t, p, repl, global)
              == t[p..p + m.start] + Expand(repl, t[p + m.start..p + m.end]) + Tail(find, t, p, m, repl, global)
              && |Spans(find, t, p, global)| == 1 + if global then |Spans(find, t, NextStart(p, m), global)| else 0
  {
    hide Spans, Splice, Expand, InOrder, Rest;
    var m := find(t[p..], p > 0);
    SpansStep(find, t, p, global);
    RestIs(find, t, p, repl, global);
    if m.NoMatch? {
      SpliceNothing(t, repl, p);
      return;
    }
    var rest := if global then Spans(find, t, NextStart(p, m), global) else [];
    SpliceCons(t, Span(p + m.start, p + m.end), rest, repl, p);
    if global {
      TailIs(find, t, p, m, repl);
    } else {
      SpliceNothing(t, repl, p + m.end);
    }
  }

  // ---------- the code ----------

  method ExpandReplacement(repl: string, matched: string) returns (out: string)
    ensures out == Expand(repl, matched)
    ensures forall pieces :: repl == Between(QuoteAll(pieces), "&") ==> out == Between(pieces, matched)
  {
    forall pieces | repl == Between(QuoteAll(pieces), "&")
      ensures Expand(repl, matched) == Between(pieces, matched)
    {
      PiecesAroundMatch(pieces, matched);
    }
    hide Between, QuoteAll;
    out := "";
    var rp := 0;
    assert repl[rp..] == repl;
    while rp < |repl|
      invariant rp <= |repl| && out + Expand(repl[rp..], matched) == Expand(repl, matched)
    {
      var rest := repl[rp..];
      if repl[rp] == '&' {
        assert rest[1..] == repl[rp + 1..];
        Regroup(out, matched, Expand(repl[rp + 1..], matched));
        out := out + matched;
      } else if repl[rp] == '\\' && rp + 1 < |repl| && (repl[rp + 1] == '&' || repl[rp + 1] == '\\') {
        assert rest[2..] == repl[rp + 2..];
        Regroup(out, [repl[rp + 1]], Expand(repl[rp + 2..], matched));
        out := out + [repl[rp + 1]];
        rp := rp + 1;
      } else {
        assert rest[1..] == repl[rp + 1..];
        Regroup(out, [repl[rp]], Expand(repl[rp + 1..], matched));
        out := out + [repl[rp]];
      }
      rp := rp + 1;
    }
  }

  /** `out` is all that is written before the search stands at p. */
  ghost predicate WrittenTo(find: Matcher, t: string, p: nat, repl: string, global: bool, out: string)
    requires SoundMatcher(find) && p <= |t|
  {
    out + Rest(find, t, p, repl, global) == Rest(find, t, 0, repl, global)
  }

  lemma WrittenAtEnds(find: Matcher, t: string, repl: string, global: bool)
    requires SoundMatcher(find)
    ensures WrittenTo(find, t, 0, repl, global, "")
    ensures Spans(find, t, |t|, global) == []
    ensures forall out :: WrittenTo(find, t, |t|, repl, global, out) ==> out == Rest(find, t, 0, repl, global)
  {
    hide Spans, Rest;
    RestIs(find, t, |t|, repl, global);
  }

  /** What one step is to write, as the code writes it. */
  lemma StepWrites(find: Matcher, t: string, p: nat, repl: string, global: bool, out: string)
    requires SoundMatcher(find) && p < |t| && WrittenTo(find, t, p, repl, global, out)
    ensures var m, total := find(t[p..], p > 0), Rest(find, t, 0, repl, global);
            if m.NoMatch? then total == out + t[p..] && Spans(find, t, p, global) == []
            else
              && m.start <= m.end <= |t| - p
              && var written, n := out + t[p..p + m.start] + Expand(repl, t[p + m.start..p + m.end]), NextStart(p, m);
              && |Spans(find, t, p, global)| == 1 + (if global then |Spans(find, t, n, global)| else 0)
              && (!global ==> total == written + t[p + m.end..])
              && (global && m.start < m.end ==> n == p + m.end && WrittenTo(find, t, n, repl, global, written))
              && (global && m.start == m.end && p + m.start < |t| ==>
                    n == p + m.start + 1 && WrittenTo(find, t, n, repl, global, written + [t[p + m.start]]))
              && (global && m.start == m.end && p + m.start == |t| ==> total == written && Spans(find, t, n, global) == [])
  {
    hide Rest, Spans, Expand, Tail, SoundMatcher, NextStart;
    RestStep(find, t, p, repl, global);
    var m := find(t[p..], p > 0);
    if m.Span? {
      var before, middle := t[p..p + m.start], Expand(repl, t[p + m.start..p + m.end]);
      var tail := Tail(find, t, p, m, repl, global);
      Regroup4(out, before, middle, tail);
      TailCases(find, t, p, m, repl, global);
      if global && m.start == m.end {
        if p + m.start < |t| {
          Regroup(out + before + middle, [t[p + m.start]], Rest(find, t, p + m.start + 1, repl, global));
        } else {
          NoSpansAtEnd(find, t, NextStart(p, m));
        }
      }
    }
  }

  /** The spans replaced, and none for a pattern that does not compile. */
  function SpansOf(re: Pattern, t: string, global: bool): (spans: seq<Span>)
    requires re.Good? ==> SoundMatcher(re.find)
    ensures InOrder(spans, 0, |t|)
  {
    if re.Bad? then []
    else
      SpansInOrder(re.find, t, 0, global);
      Spans(re.find, t, 0, global)
  }

  /** One turn of the loop at p: looks for a match, replaces it and says where to
      go on, or that everything is written. */
  method ReplaceNext(find: Matcher, target: string, p: nat, repl: string, global: bool, before: string)
    returns (matched: bool, stop: bool, n: nat, out: string)
    requires SoundMatcher(find) && p < |target| && WrittenTo(find, target, p, repl, global, before)
    ensures stop ==> out == Rest(find, target, 0, repl, global) && |Spans(find, target, p, global)| == if matched then 1 else 0
    ensures !stop ==> matched && p < n <= |target| && WrittenTo(find, target, n, repl, global, out)
                      && |Spans(find, target, p, global)| == 1 + |Spans(find, target, n, global)|
  {
    hide *;
    StepWrites(find, target, p, repl, global, before);
    var m := find(target[p..], p > 0);
    if m.NoMatch? {
      return false, true, p, before + target[p..];
    }
    var replacement := ExpandReplacement(repl, target[p + m.start..p + m.end]);
    out := before + target[p..p + m.start] + replacement;
    if !global {
      return true, true, p, out + target[p + m.end..];
    }
    if m.start == m.end {
      if p + m.start < |target| {
        return true, false, p + m.start + 1, out + [target[p + m.start]];
      }
      return true, true, p, out;
    }
    return true, false, p + m.end, out;
  }

  method DoSub(re: Pattern, repl: string, target: string, global: bool) returns (count: nat, out: string)
    requires re.Good? ==> SoundMatcher(re.find)
    ensures out == Splice(target, SpansOf(re, target, global), repl, 0)
    ensures count == |SpansOf(re, target, global)|
  {
    if re.Bad? {
      return 0, target;
    }
    var find := re.find;
    hide *;
    SpansOfGood(find, repl, target, global);
    WrittenAtEnds(find, target, repl, global);
    out, count := "", 0;
    var p := 0;
    while p < |target|
      invariant p <= |target|
      invariant WrittenTo(find, target, p, repl, global, out)
      invariant count + |Spans(find, target, p, global)| == |Spans(find, target, 0, global)|
    {
      var matched, stop;
      matched, stop, p, out := ReplaceNext(find, target, p, repl, global, out);
      if matched {
        count := count + 1;
      }
      if stop {
        return;
      }
    }
  }

  lemma SpansOfGood(find: Matcher, repl: string, t: string, global: bool)
    requires SoundMatcher(find)
    ensures SpansOf(Good(find), t, global) == Spans(find, t, 0, global)
    ensures Splice(t, SpansOf(Good(find), t, global), repl, 0) == Rest(find, t, 0, repl, global)
  {
    hide Splice, Expand, Spans;
    RestIs(find, t, 0, repl, global);
  }
}
