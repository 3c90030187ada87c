/** Unified hunks: how the edit script is cut into hunks, what their headers
    say, and what a patch tool makes of them (src/diff_app.c, diffPrintHunk and
    diffPrintUnified). */
module DiffHunks {
  import opened Diff
  import opened Wrappers

  const CONTEXT_LINES: nat := 3

  datatype HunkLine = Context(text: Line) | Removed(text: Line) | Added(text: Line)

  /** The four header numbers as printed, and the body. */
  datatype Hunk = Hunk(aPos: nat, aCount: nat, bPos: nat, bCount: nat, body: seq<HunkLine>)

  /** The operations `start <= k < end` of a script. */
  datatype Range = Range(start: nat, end: nat)

  // ---------- what a patch tool does with hunks ----------

  function OldSide(body: seq<HunkLine>): seq<Line> {
    if body == [] then []
    else OldSide(body[..|body| - 1]) + if body[|body| - 1].Added? then [] else [body[|body| - 1].text]
  }

  function NewSide(body: seq<HunkLine>): seq<Line> {
    if body == [] then []
    else NewSide(body[..|body| - 1]) + if body[|body| - 1].Removed? then [] else [body[|body| - 1].text]
  }

  /** Lines of the old file used up, and lines written. */
  datatype PatchState = PatchState(cur: nat, out: seq<Line>)

  /** Applies one hunk at the position its header gives. A header with a zero
      count names the line after which to insert; any other names the first
      line. A hunk whose old side or new position disagrees is refused. */
  function PatchOne(st: PatchState, h: Hunk, a: seq<Line>): (r: Option<PatchState>)
    ensures r.Some? ==> r.value.cur <= |a|
  {
    if (h.aCount > 0 && h.aPos == 0) || (h.bCount > 0 && h.bPos == 0) then None
    else
      var at := if h.aCount > 0 then h.aPos - 1 else h.aPos;
      if !(st.cur <= at <= at + h.aCount <= |a|) || OldSide(h.body) != a[at..at + h.aCount] then None
      else
        var out := st.out + a[st.cur..at];
        if |out| != (if h.bCount > 0 then h.bPos - 1 else h.bPos) || |NewSide(h.body)| != h.bCount then None
        else Some(PatchState(at + h.aCount, out + NewSide(h.body)))
  }

  function Patch(hunks: seq<Hunk>, a: seq<Line>): (r: Option<PatchState>)
    ensures r.Some? ==> r.value.cur <= |a|
  {
    if hunks == [] then Some(PatchState(0, []))
    else
      match Patch(hunks[..|hunks| - 1], a)
      case None => None
      case Some(st) => PatchOne(st, hunks[|hunks| - 1], a)
  }

  function ApplyPatch(hunks: seq<Hunk>, a: seq<Line>): Option<seq<Line>> {
    match Patch(hunks, a)
    case None => None
    case Some(st) => Some(st.out + a[st.cur..])
  }

  function ReverseLine(l: HunkLine): HunkLine {
    match l
    case Context(t) => Context(t)
    case Removed(t) => Added(t)
    case Added(t) => Removed(t)
  }

  function ReverseHunk(h: Hunk): Hunk {
    Hunk(h.bPos, h.bCount, h.aPos, h.aCount, seq(|h.body|, k requires 0 <= k < |h.body| => ReverseLine(h.body[k])))
  }

  function ReversePatch(hunks: seq<Hunk>): seq<Hunk> {
    seq(|hunks|, k requires 0 <= k < |hunks| => ReverseHunk(hunks[k]))
  }

  // ---------- one hunk ----------

  function LineAt(s: seq<Line>, x: nat): Line {
    if x < |s| then s[x] else ""
  }

  function LineOf(op: DiffOp, a: seq<Line>, b: seq<Line>): HunkLine {
    match op
    case Equal(x, _) => Context(LineAt(a, x))
    case Delete(x) => Removed(LineAt(a, x))
    case Insert(y) => Added(LineAt(b, y))
  }

  function BodyOf(ops: seq<DiffOp>, from: nat, until: nat, a: seq<Line>, b: seq<Line>): (r: seq<HunkLine>)
    requires from <= until <= |ops|
    ensures |r| == until - from
  {
    if from == until then [] else BodyOf(ops, from, until - 1, a, b) + [LineOf(ops[until - 1], a, b)]
  }

  /** The header numbers follow from the positions the script has at the two ends. */
  function HunkOf(ops: seq<DiffOp>, r: Range, a: seq<Line>, b: seq<Line>): Hunk
    requires r.start <= r.end <= |ops|
  {
    PositionsGrow(ops, r.start, r.end);
    var aCount := OldPos(ops, r.end) - OldPos(ops, r.start);
    var bCount := NewPos(ops, r.end) - NewPos(ops, r.start);
    Hunk(if aCount > 0 then OldPos(ops, r.start) + 1 else 0, aCount,
         if bCount > 0 then NewPos(ops, r.start) + 1 else 0, bCount,
         BodyOf(ops, r.start, r.end, a, b))
  }

  lemma {:induction false} PositionsGrow(ops: seq<DiffOp>, k: nat, l: nat)
    requires k <= l <= |ops|
    ensures OldPos(ops, k) <= OldPos(ops, l)
    ensures NewPos(ops, k) <= NewPos(ops, l)
  {
    if k < l {
      PositionsGrow(ops, k, l - 1);
    }
  }

  /** No position runs past the end of its file. */
  lemma PositionsInFiles(ops: seq<DiffOp>, k: nat, a: seq<Line>, b: seq<Line>)
    requires ValidScript(ops, a, b) && k <= |ops|
    ensures OldPos(ops, k) <= |a| && NewPos(ops, k) <= |b|
  {
    PositionsGrow(ops, k, |ops|);
  }

  lemma SidesOfLongerBody(body: seq<HunkLine>, l: HunkLine)
    ensures OldSide(body + [l]) == OldSide(body) + if l.Added? then [] else [l.text]
    ensures NewSide(body + [l]) == NewSide(body) + if l.Removed? then [] else [l.text]
  {
    assert (body + [l])[..|body|] == body;
  }

  /** The old and new sides of a range are the stretches of the two files it walks over. */
  lemma {:induction false} SidesOfBody(ops: seq<DiffOp>, from: nat, until: nat, a: seq<Line>, b: seq<Line>)
    requires ValidScript(ops, a, b) && from <= until <= |ops|
    ensures OldPos(ops, from) <= OldPos(ops, until) <= |a|
    ensures NewPos(ops, from) <= NewPos(ops, until) <= |b|
    ensures OldSide(BodyOf(ops, from, until, a, b)) == a[OldPos(ops, from)..OldPos(ops, until)]
    ensures NewSide(BodyOf(ops, from, until, a, b)) == b[NewPos(ops, from)..NewPos(ops, until)]
    decreases until
  {
    hide *;
    PositionsGrow(ops, from, until);
    PositionsInFiles(ops, until, a, b);
    BodyEnds(ops, from, until, a, b);
    if from < until {
      SidesOfBody(ops, from, until - 1, a, b);
      SidesOfLongerBody(BodyOf(ops, from, until - 1, a, b), LineOf(ops[until - 1], a, b));
      LastLine(ops, until - 1, a, b);
      SliceGrows(a, OldPos(ops, from), OldPos(ops, until - 1), OldPos(ops, until));
      SliceGrows(b, NewPos(ops, from), NewPos(ops, until - 1), NewPos(ops, until));
    }
  }

  lemma BodyEnds(ops: seq<DiffOp>, from: nat, until: nat, a: seq<Line>, b: seq<Line>)
    requires from <= until <= |ops|
    ensures from == until ==> BodyOf(ops, from, until, a, b) == [] && OldSide([]) == [] && NewSide([]) == []
    ensures from < until ==> BodyOf(ops, from, until, a, b) == BodyOf(ops, from, until - 1, a, b) + [LineOf(ops[until - 1], a, b)]
  {
  }

  lemma LastLine(ops: seq<DiffOp>, k: nat, a: seq<Line>, b: seq<Line>)
    requires ValidScript(ops, a, b) && k < |ops|
    ensures var op, l := ops[k], LineOf(ops[k], a, b);
            && l.Added? == op.Insert? && l.Removed? == op.Delete?
            && OldPos(ops, k + 1) == OldPos(ops, k) + (if op.Insert? then 0 else 1)
            && NewPos(ops, k + 1) == NewPos(ops, k) + (if op.Delete? then 0 else 1)
            && (!op.Insert? ==> OldPos(ops, k) < |a| && l.text == a[OldPos(ops, k)])
            && (!op.Delete? ==> NewPos(ops, k) < |b| && l.text == b[NewPos(ops, k)])
            && (op.Equal? ==> a[OldPos(ops, k)] == b[NewPos(ops, k)])
  {
    assert StepOk(ops, k, a, b);
  }

  lemma SliceGrows(s: seq<Line>, x: nat, y: nat, z: nat)
    requires x <= y <= z <= |s| && z <= y + 1
    ensures s[x..z] == s[x..y] + (if z == y then [] else [s[y]])
  {
  }

  /** The range has operation `k` inside. */
  ghost predicate Holds(r: Range, k: nat) {
    r.start <= k < r.end
  }

  ghost predicate AllEqual(ops: seq<DiffOp>, from: nat, until: nat)
    requires until <= |ops|
  {
    forall k :: from <= k < until ==> ops[k].Equal?
  }

  /** Over a stretch of equal lines the two files advance together. */
  lemma {:induction false} EqualStretch(ops: seq<DiffOp>, from: nat, until: nat, a: seq<Line>, b: seq<Line>)
    requires ValidScript(ops, a, b) && from <= until <= |ops| && AllEqual(ops, from, until)
    ensures OldPos(ops, from) + (until - from) == OldPos(ops, until) <= |a|
    ensures NewPos(ops, from) + (until - from) == NewPos(ops, until) <= |b|
    ensures a[OldPos(ops, from)..OldPos(ops, until)] == b[NewPos(ops, from)..NewPos(ops, until)]
  {
    hide ValidScript, OldPos, NewPos;
    PositionsInFiles(ops, until, a, b);
    if from < until {
      EqualStretch(ops, from, until - 1, a, b);
      LastLine(ops, until - 1, a, b);
      SliceGrows(a, OldPos(ops, from), OldPos(ops, until - 1), OldPos(ops, until));
      SliceGrows(b, NewPos(ops, from), NewPos(ops, until - 1), NewPos(ops, until));
    }
  }

  // ---------- how the ranges lie in the script ----------

  function EndBefore(ranges: seq<Range>, x: nat): nat
    requires x <= |ranges|
  {
    if x == 0 then 0 else ranges[x - 1].end
  }

  /** Range `x` is not empty, lies after range `x - 1` with at least one operation
      between the two, and that gap is made of equal lines. */
  ghost predicate RangeOk(ops: seq<DiffOp>, ranges: seq<Range>, x: nat)
    requires x < |ranges|
  {
    && EndBefore(ranges, x) <= ranges[x].start < ranges[x].end <= |ops|
    && (x > 0 ==> EndBefore(ranges, x) < ranges[x].start)
    && AllEqual(ops, EndBefore(ranges, x), ranges[x].start)
  }

  /** The ranges lie in order, and outside them there are only equal lines up to
      operation `upto`. */
  ghost predicate Covers(ops: seq<DiffOp>, ranges: seq<Range>, upto: nat)
  {
    && EndBefore(ranges, |ranges|) <= upto <= |ops|
    && (forall x :: 0 <= x < |ranges| ==> RangeOk(ops, ranges, x))
    && AllEqual(ops, EndBefore(ranges, |ranges|), upto)
  }

  /** More equal operations in a row, from `x` on, than a hunk keeps inside. */
  ghost predicate LongRun(ops: seq<DiffOp>, x: nat) {
    x + 2 * CONTEXT_LINES + 1 <= |ops| && AllEqual(ops, x, x + 2 * CONTEXT_LINES + 1)
  }

  /** Changes first to last - 1, with three lines of context on each side (fewer
      only at an end of the script) and never seven equal lines in between. */
  ghost predicate HunkShape(ops: seq<DiffOp>, r: Range, first: nat, last: nat)
  {
    && r.start <= first < last <= r.end <= |ops|
    && AllEqual(ops, r.start, first) && !ops[first].Equal?
    && !ops[last - 1].Equal? && AllEqual(ops, last, r.end)
    && (first - r.start == CONTEXT_LINES || (first - r.start < CONTEXT_LINES && r.start == 0))
    && (r.end - last == CONTEXT_LINES || (r.end - last < CONTEXT_LINES && r.end == |ops|))
    && (forall x :: first <= x && x + 2 * CONTEXT_LINES < last ==> !LongRun(ops, x))
  }

  ghost predicate IsHunk(ops: seq<DiffOp>, r: Range) {
    exists first, last :: HunkShape(ops, r, first, last)
  }

  ghost predicate Shaped(ops: seq<DiffOp>, ranges: seq<Range>)
  {
    forall x :: 0 <= x < |ranges| ==> IsHunk(ops, ranges[x])
  }

  ghost function HunksOf(ops: seq<DiffOp>, ranges: seq<Range>, a: seq<Line>, b: seq<Line>): seq<Hunk>
    requires Covers(ops, ranges, |ops|)
  {
    seq(|ranges|, x requires 0 <= x < |ranges| => (assert RangeOk(ops, ranges, x); HunkOf(ops, ranges[x], a, b)))
  }

  /** The ranges of a complete cut hold every change and are pairwise disjoint. */
  lemma EveryChangeInOneHunk(ops: seq<DiffOp>, ranges: seq<Range>, k: nat)
    requires Covers(ops, ranges, |ops|) && k < |ops| && !ops[k].Equal?
    ensures exists x :: 0 <= x < |ranges| && Holds(ranges[x], k)
    ensures forall x, y :: 0 <= x < |ranges| && 0 <= y < |ranges| && Holds(ranges[x], k) && Holds(ranges[y], k) ==> x == y
  {
    var x := 0;
    while x < |ranges| && ranges[x].end <= k
      invariant 0 <= x <= |ranges|
      invariant EndBefore(ranges, x) <= k
    {
      assert RangeOk(ops, ranges, x);
      x := x + 1;
    }
    assert x < |ranges| && RangeOk(ops, ranges, x) && Holds(ranges[x], k);
    forall y, z | 0 <= y < z < |ranges|
      ensures ranges[y].end <= ranges[z].start
    {
      RangesInOrder(ops, ranges, y, z);
    }
  }

  lemma {:induction false} RangesInOrder(ops: seq<DiffOp>, ranges: seq<Range>, x: nat, y: nat)
    requires Covers(ops, ranges, |ops|) && x < y < |ranges|
    ensures ranges[x].end <= ranges[y].start
  {
    if x + 1 < y {
      RangesInOrder(ops, ranges, x, y - 1);
      assert RangeOk(ops, ranges, y - 1);
    }
    assert RangeOk(ops, ranges, y);
  }

  /** A hunk has no old lines only when the old file has none; likewise for new. */
  lemma ZeroCountOnlyForEmptySide(ops: seq<DiffOp>, r: Range, a: seq<Line>, b: seq<Line>, first: nat, last: nat)
    requires ValidScript(ops, a, b) && HunkShape(ops, r, first, last)
    ensures HunkOf(ops, r, a, b).aCount == 0 ==> a == []
    ensures HunkOf(ops, r, a, b).bCount == 0 ==> b == []
  {
    EqualStretch(ops, r.start, first, a, b);
    EqualStretch(ops, last, r.end, a, b);
    PositionsGrow(ops, first, last);
  }

  // ---------- applying the hunks ----------

  /** What it takes for one hunk to apply. */
  lemma PatchOneFits(st: PatchState, h: Hunk, a: seq<Line>, b: seq<Line>, x: nat, x': nat, y: nat, y': nat)
    requires st.cur <= x <= x' <= |a| && y <= y' <= |b|
    requires h.aCount == x' - x && h.aPos == (if h.aCount > 0 then x + 1 else 0) && (h.aCount == 0 ==> x == 0)
    requires h.bCount == y' - y && h.bPos == (if h.bCount > 0 then y + 1 else 0) && (h.bCount == 0 ==> y == 0)
    requires OldSide(h.body) == a[x..x'] && NewSide(h.body) == b[y..y']
    requires st.out + a[st.cur..x] == b[..y]
    ensures PatchOne(st, h, a) == Some(PatchState(x', b[..y']))
  {
    hide OldSide, NewSide;
    assert b[..y] + b[y..y'] == b[..y'];
  }

  lemma HeaderOf(ops: seq<DiffOp>, r: Range, a: seq<Line>, b: seq<Line>)
    requires ValidScript(ops, a, b) && r.start <= r.end <= |ops| && IsHunk(ops, r)
    ensures var h := HunkOf(ops, r, a, b);
            var x, x', y, y' := OldPos(ops, r.start), OldPos(ops, r.end), NewPos(ops, r.start), NewPos(ops, r.end);
            && h.aCount == x' - x && h.aPos == (if h.aCount > 0 then x + 1 else 0) && (h.aCount == 0 ==> x == 0)
            && h.bCount == y' - y && h.bPos == (if h.bCount > 0 then y + 1 else 0) && (h.bCount == 0 ==> y == 0)
            && h.body == BodyOf(ops, r.start, r.end, a, b)
  {
    var first, last :| HunkShape(ops, r, first, last);
    ZeroCountOnlyForEmptySide(ops, r, a, b, first, last);
    PositionsInFiles(ops, r.start, a, b);
  }

  lemma OneHunkReaches(ops: seq<DiffOp>, gap: nat, r: Range, a: seq<Line>, b: seq<Line>)
    requires ValidScript(ops, a, b) && gap <= r.start <= r.end <= |ops| && AllEqual(ops, gap, r.start)
    requires IsHunk(ops, r)
    ensures OldPos(ops, gap) <= |a| && NewPos(ops, gap) <= |b| && NewPos(ops, r.end) <= |b|
    ensures PatchOne(PatchState(OldPos(ops, gap), b[..NewPos(ops, gap)]), HunkOf(ops, r, a, b), a)
         == Some(PatchState(OldPos(ops, r.end), b[..NewPos(ops, r.end)]))
  {
    hide *;
    EqualStretch(ops, gap, r.start, a, b);
    SidesOfBody(ops, r.start, r.end, a, b);
    HeaderOf(ops, r, a, b);
    var h, x0, y0, y := HunkOf(ops, r, a, b), OldPos(ops, gap), NewPos(ops, gap), NewPos(ops, r.start);
    assert b[..y0] + b[y0..y] == b[..y];
    PatchOneFits(PatchState(x0, b[..y0]), h, a, b, OldPos(ops, r.start), OldPos(ops, r.end), y, NewPos(ops, r.end));
  }

  lemma {:induction false} PatchReaches(ops: seq<DiffOp>, ranges: seq<Range>, n: nat, a: seq<Line>, b: seq<Line>)
    requires ValidScript(ops, a, b) && Covers(ops, ranges, |ops|) && n <= |ranges|
    requires Shaped(ops, ranges)
    ensures EndBefore(ranges, n) <= |ops|
    ensures NewPos(ops, EndBefore(ranges, n)) <= |b|
    ensures Patch(HunksOf(ops, ranges, a, b)[..n], a)
         == Some(PatchState(OldPos(ops, EndBefore(ranges, n)), b[..NewPos(ops, EndBefore(ranges, n))]))
  {
    hide *;
    if n == 0 {
      NothingPatched(ops, ranges, a, b);
      return;
    }
    RangeLies(ops, ranges, n - 1);
    PatchReaches(ops, ranges, n - 1, a, b);
    OneHunkReaches(ops, EndBefore(ranges, n - 1), ranges[n - 1], a, b);
    HunkAt(ops, ranges, n - 1, a, b);
    PatchLonger(HunksOf(ops, ranges, a, b)[..n], a);
  }

  lemma NothingPatched(ops: seq<DiffOp>, ranges: seq<Range>, a: seq<Line>, b: seq<Line>)
    requires Covers(ops, ranges, |ops|)
    ensures EndBefore(ranges, 0) == 0 == NewPos(ops, 0) == OldPos(ops, 0)
    ensures Patch(HunksOf(ops, ranges, a, b)[..0], a) == Some(PatchState(0, b[..0]))
  {
    hide HunksOf;
  }

  lemma RangeLies(ops: seq<DiffOp>, ranges: seq<Range>, k: nat)
    requires Covers(ops, ranges, |ops|) && Shaped(ops, ranges) && k < |ranges|
    ensures EndBefore(ranges, k) <= ranges[k].start <= ranges[k].end <= |ops|
    ensures AllEqual(ops, EndBefore(ranges, k), ranges[k].start) && IsHunk(ops, ranges[k])
    ensures EndBefore(ranges, k + 1) == ranges[k].end
  {
    assert RangeOk(ops, ranges, k);
    hide AllEqual, IsHunk;
  }

  lemma HunkAt(ops: seq<DiffOp>, ranges: seq<Range>, k: nat, a: seq<Line>, b: seq<Line>)
    requires Covers(ops, ranges, |ops|) && k < |ranges| && ranges[k].start <= ranges[k].end <= |ops|
    ensures var hunks := HunksOf(ops, ranges, a, b);
            && |hunks| == |ranges| && hunks[k] == HunkOf(ops, ranges[k], a, b)
            && hunks[..k + 1] != [] && hunks[..k + 1][..k] == hunks[..k] && |hunks[..k + 1]| == k + 1
            && hunks[..k + 1][k] == HunkOf(ops, ranges[k], a, b)
  {
    hide HunkOf, Covers;
  }

  lemma PatchLonger(hunks: seq<Hunk>, a: seq<Line>)
    requires hunks != [] && Patch(hunks[..|hunks| - 1], a).Some?
    ensures Patch(hunks, a) == PatchOne(Patch(hunks[..|hunks| - 1], a).value, hunks[|hunks| - 1], a)
  {
    hide PatchOne;
  }

  /** Applying the printed hunks to the old file gives exactly the new one. */
  lemma HunksTurnOldIntoNew(ops: seq<DiffOp>, ranges: seq<Range>, a: seq<Line>, b: seq<Line>)
    requires ValidScript(ops, a, b) && Covers(ops, ranges, |ops|) && Shaped(ops, ranges)
    ensures ApplyPatch(HunksOf(ops, ranges, a, b), a) == Some(b)
  {
    hide PatchOne, HunkOf;
    var hunks, end := HunksOf(ops, ranges, a, b), EndBefore(ranges, |ranges|);
    PatchReaches(ops, ranges, |ranges|, a, b);
    assert hunks[..|ranges|] == hunks;
    EqualStretch(ops, end, |ops|, a, b);
    var x, y := OldPos(ops, end), NewPos(ops, end);
    assert OldPos(ops, |ops|) == |a| && NewPos(ops, |ops|) == |b|;
    hide Patch, OldPos, NewPos, HunksOf, ValidScript, Covers, Shaped;
    assert a[x..] == a[x..|a|] == b[y..|b|] == b[y..];
    assert ApplyPatch(hunks, a) == Some(b[..y] + b[y..]);
    assert b[..y] + b[y..] == b;
  }

  // ---------- the other direction, through the mirrored script ----------

  function Mirror(op: DiffOp): DiffOp {
    match op
    case Equal(x, y) => Equal(y, x)
    case Delete(x) => Insert(x)
    case Insert(y) => Delete(y)
  }

  function MirrorScript(ops: seq<DiffOp>): seq<DiffOp> {
    seq(|ops|, k requires 0 <= k < |ops| => Mirror(ops[k]))
  }

  lemma {:induction false} MirrorPositions(ops: seq<DiffOp>, k: nat)
    requires k <= |ops|
    ensures OldPos(MirrorScript(ops), k) == NewPos(ops, k)
    ensures NewPos(MirrorScript(ops), k) == OldPos(ops, k)
  {
    if k > 0 {
      MirrorPositions(ops, k - 1);
    }
  }

  lemma MirrorIsValid(ops: seq<DiffOp>, a: seq<Line>, b: seq<Line>)
    requires ValidScript(ops, a, b)
    ensures ValidScript(MirrorScript(ops), b, a)
  {
    MirrorPositions(ops, |ops|);
    forall k | 0 <= k < |ops|
      ensures StepOk(MirrorScript(ops), k, b, a)
    {
      MirrorPositions(ops, k);
      assert StepOk(ops, k, a, b);
    }
  }

  lemma MirrorLine(ops: seq<DiffOp>, k: nat, a: seq<Line>, b: seq<Line>)
    requires ValidScript(ops, a, b) && k < |ops|
    ensures LineOf(MirrorScript(ops)[k], b, a) == ReverseLine(LineOf(ops[k], a, b))
  {
    assert StepOk(ops, k, a, b);
  }

  lemma {:induction false} MirrorBody(ops: seq<DiffOp>, from: nat, until: nat, a: seq<Line>, b: seq<Line>)
    requires ValidScript(ops, a, b) && from <= until <= |ops|
    ensures var body, mirrored := BodyOf(ops, from, until, a, b), BodyOf(MirrorScript(ops), from, until, b, a);
            |mirrored| == |body| && forall k :: 0 <= k < |body| ==> mirrored[k] == ReverseLine(body[k])
    decreases until
  {
    if from < until {
      hide *;
      MirrorBody(ops, from, until - 1, a, b);
      MirrorLine(ops, until - 1, a, b);
      MirrorSize(ops);
      BodyGrows(ops, from, until, a, b);
      BodyGrows(MirrorScript(ops), from, until, b, a);
    }
  }

  lemma MirrorSize(ops: seq<DiffOp>)
    ensures |MirrorScript(ops)| == |ops|
  {
  }

  lemma BodyGrows(ops: seq<DiffOp>, from: nat, until: nat, a: seq<Line>, b: seq<Line>)
    requires from < until <= |ops|
    ensures BodyOf(ops, from, until, a, b) == BodyOf(ops, from, until - 1, a, b) + [LineOf(ops[until - 1], a, b)]
  {
    hide LineOf;
  }

  lemma MirrorHunk(ops: seq<DiffOp>, r: Range, a: seq<Line>, b: seq<Line>)
    requires ValidScript(ops, a, b) && r.start <= r.end <= |ops|
    ensures HunkOf(MirrorScript(ops), r, b, a) == ReverseHunk(HunkOf(ops, r, a, b))
  {
    MirrorPositions(ops, r.start);
    MirrorPositions(ops, r.end);
    MirrorBody(ops, r.start, r.end, a, b);
  }

  lemma MirrorEqual(ops: seq<DiffOp>, from: nat, until: nat)
    requires until <= |ops|
    ensures AllEqual(MirrorScript(ops), from, until) <==> AllEqual(ops, from, until)
  {
    assert forall k :: 0 <= k < |ops| ==> MirrorScript(ops)[k].Equal? == ops[k].Equal?;
  }

  lemma MirrorRange(ops: seq<DiffOp>, ranges: seq<Range>, x: nat)
    requires x < |ranges| && RangeOk(ops, ranges, x) && IsHunk(ops, ranges[x])
    ensures RangeOk(MirrorScript(ops), ranges, x) && IsHunk(MirrorScript(ops), ranges[x])
  {
    hide AllEqual;
    var first, last :| HunkShape(ops, ranges[x], first, last);
    MirrorEqual(ops, EndBefore(ranges, x), ranges[x].start);
    MirrorEqual(ops, ranges[x].start, first);
    MirrorEqual(ops, last, ranges[x].end);
    forall y: nat
      ensures LongRun(MirrorScript(ops), y) == LongRun(ops, y)
    {
      if y + 2 * CONTEXT_LINES + 1 <= |ops| {
        MirrorEqual(ops, y, y + 2 * CONTEXT_LINES + 1);
      }
    }
    assert HunkShape(MirrorScript(ops), ranges[x], first, last);
  }

  lemma MirrorCut(ops: seq<DiffOp>, ranges: seq<Range>)
    requires Covers(ops, ranges, |ops|) && Shaped(ops, ranges)
    ensures Covers(MirrorScript(ops), ranges, |ops|) && Shaped(MirrorScript(ops), ranges)
  {
    hide RangeOk, IsHunk, AllEqual;
    MirrorEqual(ops, EndBefore(ranges, |ranges|), |ops|);
    forall x | 0 <= x < |ranges|
      ensures RangeOk(MirrorScript(ops), ranges, x) && IsHunk(MirrorScript(ops), ranges[x])
    {
      MirrorRange(ops, ranges, x);
    }
  }

  /** Applying the reversed hunks to the new file gives back the old one. */
  lemma ReversedHunksTurnNewIntoOld(ops: seq<DiffOp>, ranges: seq<Range>, a: seq<Line>, b: seq<Line>)
    requires ValidScript(ops, a, b) && Covers(ops, ranges, |ops|) && Shaped(ops, ranges)
    ensures ApplyPatch(ReversePatch(HunksOf(ops, ranges, a, b)), b) == Some(a)
  {
    var m := MirrorScript(ops);
    MirrorIsValid(ops, a, b);
    MirrorCut(ops, ranges);
    HunksTurnOldIntoNew(m, ranges, b, a);
    forall x | 0 <= x < |ranges|
      ensures HunksOf(m, ranges, b, a)[x] == ReversePatch(HunksOf(ops, ranges, a, b))[x]
    {
      MirrorHunk(ops, ranges[x], a, b);
    }
    assert HunksOf(m, ranges, b, a) == ReversePatch(HunksOf(ops, ranges, a, b));
  }

  // ---------- how much the hunks change ----------

  /** The removed and added lines of a hunk. */
  function Changes(body: seq<HunkLine>): nat {
    if body == [] then 0 else Changes(body[..|body| - 1]) + if body[|body| - 1].Context? then 0 else 1
  }

  function ChangesOf(hunks: seq<Hunk>): nat {
    if hunks == [] then 0 else ChangesOf(hunks[..|hunks| - 1]) + Changes(hunks[|hunks| - 1].body)
  }

  /** Lines that both files have in step lengthen their longest common subsequence. */
  lemma {:induction false} GapIsCommon(a: seq<Line>, b: seq<Line>, x: nat, y: nat, n: nat)
    requires x + n <= |a| && y + n <= |b| && a[x..x + n] == b[y..y + n]
    ensures Lcs(a, b, x, y) + n <= Lcs(a, b, x + n, y + n)
  {
    if n > 0 {
      assert a[x + n - 1] == a[x..x + n][n - 1] == b[y..y + n][n - 1] == b[y + n - 1];
      assert a[x..x + n - 1] == a[x..x + n][..n - 1] == b[y..y + n][..n - 1] == b[y..y + n - 1];
      GapIsCommon(a, b, x, y, n - 1);
    }
  }

  /** So do the lines of context in a hunk, whatever is removed and added between them. */
  lemma {:induction false} BodyIsCommon(body: seq<HunkLine>, a: seq<Line>, b: seq<Line>, x: nat, x': nat, y: nat, y': nat)
    requires x <= x' <= |a| && y <= y' <= |b| && OldSide(body) == a[x..x'] && NewSide(body) == b[y..y']
    ensures (x' - x) + (y' - y) + 2 * Lcs(a, b, x, y) <= Changes(body) + 2 * Lcs(a, b, x', y')
    decreases |body|
  {
    hide Lcs;
    if body == [] {
      assert |a[x..x']| == 0 && |b[y..y']| == 0;
    } else {
      var front, l := body[..|body| - 1], body[|body| - 1];
      BodyApart(body);
      if !l.Added? {
        SliceShrinks(a, x, x', OldSide(front), l.text);
      }
      if !l.Removed? {
        SliceShrinks(b, y, y', NewSide(front), l.text);
      }
      var p, q := if l.Added? then x' else x' - 1, if l.Removed? then y' else y' - 1;
      BodyIsCommon(front, a, b, x, p, y, q);
      StepIsCommon(a, b, p, x', q, y');
    }
  }

  lemma BodyApart(body: seq<HunkLine>)
    requires body != []
    ensures var front, l := body[..|body| - 1], body[|body| - 1];
            && OldSide(body) == OldSide(front) + (if l.Added? then [] else [l.text])
            && NewSide(body) == NewSide(front) + (if l.Removed? then [] else [l.text])
            && Changes(body) == Changes(front) + if l.Context? then 0 else 1
  {
  }

  lemma SliceShrinks(s: seq<Line>, x: nat, x': nat, front: seq<Line>, l: Line)
    requires x <= x' <= |s| && s[x..x'] == front + [l]
    ensures x < x' && front == s[x..x' - 1] && l == s[x' - 1]
  {
    assert |s[x..x']| == |front| + 1;
    assert s[x..x'][..|front|] == front && s[x..x'][|front|] == l;
  }

  /** One line more of either file, or the same line of both. */
  lemma StepIsCommon(a: seq<Line>, b: seq<Line>, p: nat, x: nat, q: nat, y: nat)
    requires p <= x <= |a| && q <= y <= |b| && x <= p + 1 && y <= q + 1
    requires p < x && q < y ==> a[p] == b[q]
    ensures Lcs(a, b, p, q) + (if p < x && q < y then 1 else 0) <= Lcs(a, b, x, y)
  {
    LcsNeighbours(a, b, x, y);
  }

  /** Whatever hunks are applied, what is used and made of the files is no more than what
      they change and twice what the files have in common up to there. */
  lemma {:induction false} PatchIsCommon(hunks: seq<Hunk>, a: seq<Line>, b: seq<Line>)
    requires Patch(hunks, a).Some? && Patch(hunks, a).value.out <= b
    ensures var st := Patch(hunks, a).value;
            st.cur + |st.out| <= ChangesOf(hunks) + 2 * Lcs(a, b, st.cur, |st.out|)
  {
    hide Lcs, PatchOne;
    if hunks == [] {
      return;
    }
    var front, h := hunks[..|hunks| - 1], hunks[|hunks| - 1];
    var st, end := Patch(front, a).value, Patch(hunks, a).value;
    var at := PatchOneParts(st, h, a);
    var y, y' := |st.out| + (at - st.cur), |end.out|;
    PrefixParts(b, st.out, a[st.cur..at], NewSide(h.body), end.out);
    PatchIsCommon(front, a, b);
    GapIsCommon(a, b, st.cur, |st.out|, at - st.cur);
    BodyIsCommon(h.body, a, b, at, end.cur, y, y');
  }

  lemma PatchOneParts(st: PatchState, h: Hunk, a: seq<Line>) returns (at: nat)
    requires PatchOne(st, h, a).Some?
    ensures var end := PatchOne(st, h, a).value;
            && st.cur <= at <= end.cur <= |a| && OldSide(h.body) == a[at..end.cur]
            && end.out == st.out + a[st.cur..at] + NewSide(h.body)
  {
    hide OldSide, NewSide;
    at := if h.aCount > 0 then h.aPos - 1 else h.aPos;
  }

  lemma PrefixParts(b: seq<Line>, x: seq<Line>, y: seq<Line>, z: seq<Line>, all: seq<Line>)
    requires all == x + y + z && all <= b
    ensures x <= b && |x| + |y| + |z| <= |b|
    ensures y == b[|x|..|x| + |y|] && z == b[|x| + |y|..|all|]
  {
    assert b[..|all|] == all;
    assert all[|x|..|x| + |y|] == y && all[|x| + |y|..] == z;
  }

  /** Any hunks that turn one file into the other change at least what the files do not
      have in common. */
  lemma EveryPatchChanges(hunks: seq<Hunk>, a: seq<Line>, b: seq<Line>)
    requires ApplyPatch(hunks, a) == Some(b)
    ensures |a| + |b| <= ChangesOf(hunks) + 2 * Lcs(a, b, |a|, |b|)
  {
    hide *;
    var st := AppliedParts(hunks, a, b);
    PatchIsCommon(hunks, a, b);
    GapIsCommon(a, b, st.cur, |st.out|, |a| - st.cur);
  }

  lemma AppliedParts(hunks: seq<Hunk>, a: seq<Line>, b: seq<Line>) returns (st: PatchState)
    requires ApplyPatch(hunks, a) == Some(b)
    ensures Patch(hunks, a) == Some(st) && st.out <= b
    ensures st.cur <= |a| && |b| == |st.out| + |a| - st.cur
    ensures a[st.cur..st.cur + (|a| - st.cur)] == b[|st.out|..|st.out| + (|a| - st.cur)]
  {
    hide Patch;
    st := Patch(hunks, a).value;
    assert b == st.out + a[st.cur..];
    assert b[|st.out|..] == a[st.cur..];
  }

  /** The printed hunks hold exactly the changes of the script. */
  lemma {:induction false} ChangesOfBody(ops: seq<DiffOp>, from: nat, until: nat, a: seq<Line>, b: seq<Line>)
    requires from <= until <= |ops|
    ensures Changes(BodyOf(ops, from, until, a, b)) + EditCount(ops, from) == EditCount(ops, until)
    decreases until
  {
    if from < until {
      ChangesOfBody(ops, from, until - 1, a, b);
      BodyGrows(ops, from, until, a, b);
      BodyApart(BodyOf(ops, from, until, a, b));
    }
  }

  lemma {:induction false} NoChangeBetween(ops: seq<DiffOp>, from: nat, until: nat)
    requires from <= until <= |ops| && AllEqual(ops, from, until)
    ensures EditCount(ops, from) == EditCount(ops, until)
  {
    if from < until {
      NoChangeBetween(ops, from, until - 1);
    }
  }

  lemma {:induction false} ChangesOfHunks(ops: seq<DiffOp>, ranges: seq<Range>, n: nat, a: seq<Line>, b: seq<Line>)
    requires Covers(ops, ranges, |ops|) && Shaped(ops, ranges) && n <= |ranges|
    ensures EndBefore(ranges, n) <= |ops|
    ensures ChangesOf(HunksOf(ops, ranges, a, b)[..n]) == EditCount(ops, EndBefore(ranges, n))
  {
    hide *;
    if n == 0 {
      NoHunksChange(ops, ranges, a, b);
      return;
    }
    RangeLies(ops, ranges, n - 1);
    ChangesOfHunks(ops, ranges, n - 1, a, b);
    NoChangeBetween(ops, EndBefore(ranges, n - 1), ranges[n - 1].start);
    ChangesOfBody(ops, ranges[n - 1].start, ranges[n - 1].end, a, b);
    HunkAt(ops, ranges, n - 1, a, b);
    ChangesLonger(HunksOf(ops, ranges, a, b)[..n]);
    BodyOfHunk(ops, ranges[n - 1], a, b);
  }

  lemma NoHunksChange(ops: seq<DiffOp>, ranges: seq<Range>, a: seq<Line>, b: seq<Line>)
    requires Covers(ops, ranges, |ops|)
    ensures EndBefore(ranges, 0) == 0 == EditCount(ops, 0) && ChangesOf(HunksOf(ops, ranges, a, b)[..0]) == 0
  {
    hide HunksOf;
  }

  lemma ChangesLonger(hunks: seq<Hunk>)
    requires hunks != []
    ensures ChangesOf(hunks) == ChangesOf(hunks[..|hunks| - 1]) + Changes(hunks[|hunks| - 1].body)
  {
    hide Changes;
  }

  lemma BodyOfHunk(ops: seq<DiffOp>, r: Range, a: seq<Line>, b: seq<Line>)
    requires r.start <= r.end <= |ops|
    ensures HunkOf(ops, r, a, b).body == BodyOf(ops, r.start, r.end, a, b)
  {
    hide BodyOf;
  }

  /** The hunks of a shortest script change no more lines than any hunks that turn the
      one file into the other. */
  lemma FewestChanges(ops: seq<DiffOp>, ranges: seq<Range>, a: seq<Line>, b: seq<Line>, other: seq<Hunk>)
    requires ValidScript(ops, a, b) && Covers(ops, ranges, |ops|) && Shaped(ops, ranges)
    requires EqualCount(ops, |ops|) == Lcs(a, b, |a|, |b|) && ApplyPatch(other, a) == Some(b)
    ensures ChangesOf(HunksOf(ops, ranges, a, b)) <= ChangesOf(other)
  {
    var hunks, end := HunksOf(ops, ranges, a, b), EndBefore(ranges, |ranges|);
    assert hunks[..|ranges|] == hunks;
    assert AllEqual(ops, end, |ops|);
    ChangesOfHunks(ops, ranges, |ranges|, a, b);
    NoChangeBetween(ops, end, |ops|);
    CountsOfScript(ops, |ops|);
    EveryPatchChanges(other, a, b);
    hide ApplyPatch, HunksOf, AllEqual, Shaped, RangeOk, Lcs;
  }

  // ---------- where the hunks are cut ----------

  ghost predicate OnlyContext(body: seq<HunkLine>, from: nat, until: nat)
    requires until <= |body|
  {
    forall k :: from <= k < until ==> body[k].Context?
  }

  ghost predicate LongContext(body: seq<HunkLine>, x: nat) {
    x + 2 * CONTEXT_LINES < |body| && OnlyContext(body, x, x + 2 * CONTEXT_LINES + 1)
  }

  /** Three lines of context before the first change and behind the last, fewer only at an
      end of the files, and never seven in a row in between. */
  ghost predicate Framed(h: Hunk, a: seq<Line>, b: seq<Line>, first: nat, last: nat) {
    && first < last <= |h.body|
    && OnlyContext(h.body, 0, first) && !h.body[first].Context?
    && !h.body[last - 1].Context? && OnlyContext(h.body, last, |h.body|)
    && (first == CONTEXT_LINES || (first < CONTEXT_LINES && h.aPos <= 1 && h.bPos <= 1))
    && (|h.body| - last == CONTEXT_LINES
        || (|h.body| - last < CONTEXT_LINES && OldEnd(h) == |a| && NewEnd(h) == |b|))
    && (forall x: nat :: first <= x && x + 2 * CONTEXT_LINES < last ==> !LongContext(h.body, x))
  }

  ghost predicate IsFramed(h: Hunk, a: seq<Line>, b: seq<Line>) {
    exists first: nat, last: nat :: Framed(h, a, b, first, last)
  }

  /** The lines of a file up to the end of a hunk. */
  function OldEnd(h: Hunk): int {
    if h.aCount > 0 then h.aPos - 1 + h.aCount else h.aPos
  }

  function NewEnd(h: Hunk): int {
    if h.bCount > 0 then h.bPos - 1 + h.bCount else h.bPos
  }

  lemma {:induction false} BodyAt(ops: seq<DiffOp>, from: nat, until: nat, a: seq<Line>, b: seq<Line>, k: nat)
    requires from + k < until <= |ops|
    ensures BodyOf(ops, from, until, a, b)[k] == LineOf(ops[from + k], a, b)
    decreases until
  {
    hide LineOf;
    if from + k + 1 < until {
      BodyAt(ops, from, until - 1, a, b, k);
    }
  }

  lemma ContextIsEqual(ops: seq<DiffOp>, r: Range, a: seq<Line>, b: seq<Line>, x: nat, y: nat)
    requires r.start <= r.end <= |ops| && x <= y <= r.end - r.start
    ensures OnlyContext(BodyOf(ops, r.start, r.end, a, b), x, y) <==> AllEqual(ops, r.start + x, r.start + y)
  {
    hide BodyOf;
    var body := BodyOf(ops, r.start, r.end, a, b);
    forall k | x <= k < y
      ensures body[k].Context? <==> ops[r.start + k].Equal?
    {
      BodyAt(ops, r.start, r.end, a, b, k);
    }
    if OnlyContext(body, x, y) {
      forall k | r.start + x <= k < r.start + y
        ensures ops[k].Equal?
      {
        assert body[k - r.start].Context?;
      }
    }
  }

  /** A hunk that ends before the script does ends before the files do. */
  lemma HunkIsFramed(ops: seq<DiffOp>, r: Range, a: seq<Line>, b: seq<Line>)
    requires ValidScript(ops, a, b) && r.start <= r.end <= |ops| && IsHunk(ops, r)
    ensures IsFramed(HunkOf(ops, r, a, b), a, b)
  {
    var first: nat, last: nat :| HunkShape(ops, r, first, last);
    var h, f, l := HunkOf(ops, r, a, b), first - r.start, last - r.start;
    HeaderOf(ops, r, a, b);
    PositionsInFiles(ops, r.end, a, b);
    ContextIsEqual(ops, r, a, b, 0, f);
    ContextIsEqual(ops, r, a, b, l, r.end - r.start);
    BodyAt(ops, r.start, r.end, a, b, f);
    BodyAt(ops, r.start, r.end, a, b, l - 1);
    hide BodyOf, AllEqual, OnlyContext, HunkOf;
    forall x: nat | f <= x && x + 2 * CONTEXT_LINES < l
      ensures !LongContext(h.body, x)
    {
      ContextIsEqual(ops, r, a, b, x, x + 2 * CONTEXT_LINES + 1);
      assert !LongRun(ops, r.start + x);
    }
    assert Framed(h, a, b, f, l);
  }

  /** Between two hunks at least one line of each file is not printed. */
  lemma HunksApart(ops: seq<DiffOp>, ranges: seq<Range>, x: nat, a: seq<Line>, b: seq<Line>)
    requires ValidScript(ops, a, b) && Covers(ops, ranges, |ops|) && Shaped(ops, ranges) && x + 1 < |ranges|
    ensures var hunks := HunksOf(ops, ranges, a, b);
            |hunks| == |ranges| && OldEnd(hunks[x]) < hunks[x + 1].aPos - 1 && NewEnd(hunks[x]) < hunks[x + 1].bPos - 1
  {
    hide *;
    RangeLies(ops, ranges, x);
    RangeLies(ops, ranges, x + 1);
    GapThere(ops, ranges, x + 1);
    HunkAt(ops, ranges, x, a, b);
    HunkAt(ops, ranges, x + 1, a, b);
    HeaderOf(ops, ranges[x], a, b);
    HeaderOf(ops, ranges[x + 1], a, b);
    EqualStretch(ops, ranges[x].end, ranges[x + 1].start, a, b);
    EndsOf(HunkOf(ops, ranges[x], a, b));
    PositionsInFiles(ops, ranges[x + 1].end, a, b);
    PositionsInFiles(ops, ranges[x + 1].start, a, b);
  }

  lemma GapThere(ops: seq<DiffOp>, ranges: seq<Range>, x: nat)
    requires Covers(ops, ranges, |ops|) && 0 < x < |ranges|
    ensures ranges[x - 1].end < ranges[x].start
  {
    assert RangeOk(ops, ranges, x);
    hide AllEqual;
  }

  lemma EndsOf(h: Hunk)
    ensures OldEnd(h) == (if h.aCount > 0 then h.aPos - 1 + h.aCount else h.aPos)
    ensures NewEnd(h) == (if h.bCount > 0 then h.bPos - 1 + h.bCount else h.bPos)
  {
  }

  // ---------- the code ----------

  method PrintHunk(ops: seq<DiffOp>, start: nat, end: nat, a: seq<Line>, b: seq<Line>) returns (hunk: Hunk)
    requires ValidScript(ops, a, b) && start <= end <= |ops|
    ensures hunk == HunkOf(ops, Range(start, end), a, b)
  {
    var aStart: Option<nat>, bStart: Option<nat> := None, None;
    var aCount, bCount := 0, 0;
    var k := start;
    while k < end
      invariant start <= k <= end
      invariant aCount == OldPos(ops, k) - OldPos(ops, start)
      invariant bCount == NewPos(ops, k) - NewPos(ops, start)
      invariant aStart == if aCount == 0 then None else Some(OldPos(ops, start))
      invariant bStart == if bCount == 0 then None else Some(NewPos(ops, start))
    {
      assert StepOk(ops, k, a, b);
      if ops[k].Equal? || ops[k].Delete? {
        if aStart == None {
          aStart := Some(ops[k].aIndex);
        }
        aCount := aCount + 1;
      }
      if ops[k].Equal? || ops[k].Insert? {
        if bStart == None {
          bStart := Some(ops[k].bIndex);
        }
        bCount := bCount + 1;
      }
      k := k + 1;
    }
    if aStart == None {
      aStart := Some(0);
    }
    if bStart == None {
      bStart := Some(0);
    }
    var body: seq<HunkLine> := [];
    k := start;
    while k < end
      invariant start <= k <= end
      invariant body == BodyOf(ops, start, k, a, b)
    {
      assert StepOk(ops, k, a, b);
      match ops[k] {
        case Equal(x, _) => body := body + [Context(a[x])];
        case Delete(x) => body := body + [Removed(a[x])];
        case Insert(y) => body := body + [Added(b[y])];
      }
      k := k + 1;
    }
    hunk := Hunk(if aCount != 0 then aStart.value + 1 else aStart.value, aCount,
                 if bCount != 0 then bStart.value + 1 else bStart.value, bCount, body);
  }

  /** Operations from `k` on are equal, or at least the next four are. */
  ghost predicate QuietAfter(ops: seq<DiffOp>, k: nat)
    requires k <= |ops|
  {
    AllEqual(ops, k, |ops|) || (k + CONTEXT_LINES + 1 <= |ops| && AllEqual(ops, k, k + CONTEXT_LINES + 1))
  }

  /** Where the hunk around the change at `k` starts and ends. */
  method HunkAround(ops: seq<DiffOp>, k: nat) returns (hunkStart: nat, hunkEnd: nat, ghost last: nat)
    requires k < |ops| && !ops[k].Equal?
    requires AllEqual(ops, if k < CONTEXT_LINES then 0 else k - CONTEXT_LINES, k)
    ensures HunkShape(ops, Range(hunkStart, hunkEnd), k, last)
    ensures QuietAfter(ops, hunkEnd)
  {
    hunkStart := k;
    var contextBack := 0;
    while hunkStart > 0 && contextBack < CONTEXT_LINES && ops[hunkStart - 1].Equal?
      invariant hunkStart + contextBack == k && contextBack <= CONTEXT_LINES
      invariant AllEqual(ops, hunkStart, k)
    {
      hunkStart := hunkStart - 1;
      contextBack := contextBack + 1;
    }
    hunkEnd := k;
    last := k;
    while hunkEnd < |ops|
      invariant k <= hunkEnd <= |ops|
      invariant hunkEnd == k || (last == hunkEnd && !ops[hunkEnd - 1].Equal?) || (hunkEnd < |ops| && !ops[hunkEnd].Equal?)
      invariant forall x :: k <= x && x + 2 * CONTEXT_LINES < hunkEnd ==> !LongRun(ops, x)
      decreases |ops| - hunkEnd
    {
      if !ops[hunkEnd].Equal? {
        hunkEnd := hunkEnd + 1;
        last := hunkEnd;
        assert !ops[hunkEnd - 1].Equal?;
        continue;
      }
      var equalRun, probe := 0, hunkEnd;
      while probe < |ops| && ops[probe].Equal?
        invariant hunkEnd <= probe <= |ops| && equalRun == probe - hunkEnd
        invariant AllEqual(ops, hunkEnd, probe)
      {
        probe := probe + 1;
        equalRun := equalRun + 1;
      }
      if probe >= |ops| || equalRun > CONTEXT_LINES * 2 {
        hunkEnd := hunkEnd + if equalRun < CONTEXT_LINES then equalRun else CONTEXT_LINES;
        return;
      }
      hunkEnd := probe;
    }
  }

  lemma AddRange(ops: seq<DiffOp>, ranges: seq<Range>, r: Range, k: nat, last: nat)
    requires k < |ops| && Covers(ops, ranges, k) && Shaped(ops, ranges) && HunkShape(ops, r, k, last)
    requires ranges != [] ==> QuietAfter(ops, EndBefore(ranges, |ranges|))
    ensures Covers(ops, ranges + [r], r.end) && Shaped(ops, ranges + [r])
  {
    var more := ranges + [r];
    assert forall x :: 0 <= x <= |ranges| ==> EndBefore(more, x) == EndBefore(ranges, x);
    assert EndBefore(more, |more|) == r.end;
    assert IsHunk(ops, r);
    forall x | 0 <= x < |ranges|
      ensures RangeOk(ops, more, x)
    {
      assert RangeOk(ops, ranges, x);
    }
  }

  lemma CutWhereItShould(ops: seq<DiffOp>, ranges: seq<Range>, a: seq<Line>, b: seq<Line>)
    requires ValidScript(ops, a, b) && Covers(ops, ranges, |ops|) && Shaped(ops, ranges)
    ensures var hunks := HunksOf(ops, ranges, a, b);
            && (forall k :: 0 <= k < |hunks| ==> IsFramed(hunks[k], a, b))
            && (forall k :: 0 < k < |hunks| ==>
                  OldEnd(hunks[k - 1]) < hunks[k].aPos - 1 && NewEnd(hunks[k - 1]) < hunks[k].bPos - 1)
  {
    hide *;
    var hunks := HunksOf(ops, ranges, a, b);
    HunksForRanges(ops, ranges, a, b);
    forall k | 0 <= k < |hunks|
      ensures IsFramed(hunks[k], a, b)
    {
      HunkFramedAt(ops, ranges, k, a, b);
    }
    forall k | 0 < k < |hunks|
      ensures OldEnd(hunks[k - 1]) < hunks[k].aPos - 1 && NewEnd(hunks[k - 1]) < hunks[k].bPos - 1
    {
      HunksApart(ops, ranges, k - 1, a, b);
    }
  }

  lemma HunksForRanges(ops: seq<DiffOp>, ranges: seq<Range>, a: seq<Line>, b: seq<Line>)
    requires ValidScript(ops, a, b) && Covers(ops, ranges, |ops|)
    ensures |HunksOf(ops, ranges, a, b)| == |ranges|
  {
    hide HunkOf;
  }

  lemma HunkFramedAt(ops: seq<DiffOp>, ranges: seq<Range>, k: nat, a: seq<Line>, b: seq<Line>)
    requires ValidScript(ops, a, b) && Covers(ops, ranges, |ops|) && Shaped(ops, ranges) && k < |ranges|
    ensures k < |HunksOf(ops, ranges, a, b)| && IsFramed(HunksOf(ops, ranges, a, b)[k], a, b)
  {
    hide *;
    RangeLies(ops, ranges, k);
    HunkAt(ops, ranges, k, a, b);
    HunkIsFramed(ops, ranges[k], a, b);
  }

  /** Prints nothing and answers false when no operation is a change. */
  method PrintUnified(ops: seq<DiffOp>, a: seq<Line>, b: seq<Line>)
    returns (differs: bool, hunks: seq<Hunk>, ghost ranges: seq<Range>)
    requires ValidScript(ops, a, b)
    ensures differs <==> !AllEqual(ops, 0, |ops|)
    ensures Covers(ops, ranges, |ops|) && Shaped(ops, ranges)
    ensures hunks == HunksOf(ops, ranges, a, b)
    ensures !differs ==> hunks == []
  {
    ranges, hunks := [], [];
    hide HunkOf, ValidScript;
    differs := false;
    var k := 0;
    while k < |ops|
      invariant 0 <= k <= |ops| && !differs
      invariant AllEqual(ops, 0, k)
    {
      if !ops[k].Equal? {
        differs := true;
        break;
      }
      k := k + 1;
    }
    if !differs {
      return;
    }
    k := 0;
    while k < |ops|
      invariant 0 <= k <= |ops|
      invariant Covers(ops, ranges, k) && Shaped(ops, ranges)
      invariant ranges != [] ==> QuietAfter(ops, EndBefore(ranges, |ranges|))
      invariant |hunks| == |ranges| && forall x :: 0 <= x < |ranges| ==> hunks[x] == HunkOf(ops, ranges[x], a, b)
      decreases |ops| - k
    {
      if ops[k].Equal? {
        k := k + 1;
        continue;
      }
      var hunkStart, hunkEnd, last := HunkAround(ops, k);
      var hunk := PrintHunk(ops, hunkStart, hunkEnd, a, b);
      hunks := hunks + [hunk];
      AddRange(ops, ranges, Range(hunkStart, hunkEnd), k, last);
      ranges := ranges + [Range(hunkStart, hunkEnd)];
      k := hunkEnd;
    }
  }

  /** The whole of `diff` on two line lists: it answers 1 exactly when they
      differ, and what it prints patches each file into the other. With two empty
      lists the code asks malloc for no bytes and counts on a pointer that is not null. */
  method DiffFiles(a: seq<Line>, b: seq<Line>) returns (status: int, hunks: seq<Hunk>)
    ensures status == (if a == b then 0 else 1)
    ensures ApplyPatch(hunks, a) == Some(b)
    ensures ApplyPatch(ReversePatch(hunks), b) == Some(a)
    ensures a == b ==> hunks == []
    ensures forall other :: ApplyPatch(other, a) == Some(b) ==> ChangesOf(hunks) <= ChangesOf(other)
    ensures forall k :: 0 <= k < |hunks| ==> IsFramed(hunks[k], a, b)
    ensures forall k :: 0 < k < |hunks| ==> OldEnd(hunks[k - 1]) < hunks[k].aPos - 1 && NewEnd(hunks[k - 1]) < hunks[k].bPos - 1
  {
    var ops, opCount := ComputeEditScript(a, b);
    var differs, printed, ranges := PrintUnified(ops[..opCount], a, b);
    hunks := printed;
    HunksTurnOldIntoNew(ops[..opCount], ranges, a, b);
    ReversedHunksTurnNewIntoOld(ops[..opCount], ranges, a, b);
    NoEditsIffSame(a, b);
    forall other | ApplyPatch(other, a) == Some(b)
      ensures ChangesOf(hunks) <= ChangesOf(other)
    {
      FewestChanges(ops[..opCount], ranges, a, b, other);
    }
    CutWhereItShould(ops[..opCount], ranges, a, b);
    status := if differs then 1 else 0;
  }
}
