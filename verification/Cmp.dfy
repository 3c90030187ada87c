/** cmp: a double-buffered comparison of two byte streams (src/cmp_app.c). */
module Cmp {

  import opened Wrappers

  type byte = x: int | 0 <= x < 256

  const NEWLINE: byte := 10
  const BUFFER_SIZE: nat := 16384
  const INT64_MAX: nat := 0x7FFF_FFFF_FFFF_FFFF

  // ---------- the answer of a plain bytewise comparison ----------

  /** One line of the -l list: the offset counted from 1, and the two bytes. */
  datatype Difference = Difference(offset: nat, byte1: byte, byte2: byte)

  /** The message, if there is one. `first` says that file 1 is the shorter. */
  datatype Message =
    | DifferAt(offset: nat, line: nat)
    | ShorterIsEmpty(first: bool)
    | EndsAfterByte(first: bool, offset: nat)
    | EndsWithLine(first: bool, offset: nat, line: nat)
    | EndsInLine(first: bool, offset: nat, line: nat)

  datatype Answer = Answer(status: int, listed: seq<Difference>, message: Option<Message>)

  function Min(x: nat, y: nat): nat {
    if x < y then x else y
  }

  /** The differing positions among the first `n` bytes. */
  function Differences(a: seq<byte>, b: seq<byte>, n: nat): seq<Difference>
    requires n <= |a| && n <= |b|
  {
    if n == 0 then []
    else Differences(a, b, n - 1) + if a[n - 1] == b[n - 1] then [] else [Difference(n, a[n - 1], b[n - 1])]
  }

  function Newlines(a: seq<byte>, n: nat): nat
    requires n <= |a|
  {
    if n == 0 then 0 else Newlines(a, n - 1) + if a[n - 1] == NEWLINE then 1 else 0
  }

  function EndMessage(a: seq<byte>, n: nat, first: bool, listAll: bool): Message
    requires n <= |a|
  {
    if n == 0 then ShorterIsEmpty(first)
    else if listAll then EndsAfterByte(first, n)
    else if a[n - 1] == NEWLINE then EndsWithLine(first, n, Newlines(a, n))
    else EndsInLine(first, n, Newlines(a, n) + 1)
  }

  /** What cmp is to answer for two whole files. */
  function Expected(a: seq<byte>, b: seq<byte>, silent: bool, listAll: bool): Answer {
    var n := Min(|a|, |b|);
    var d := Differences(a, b, n);
    var shown := if listAll && !silent then d else [];
    if !listAll && d != [] then
      FirstDifference(a, b, n);
      var k := d[0].offset;
      Answer(1, [], if silent then None else Some(DifferAt(k, Newlines(a, k - 1) + 1)))
    else if |a| == |b| then Answer(if d == [] then 0 else 1, shown, None)
    else Answer(1, shown, if silent then None else Some(EndMessage(a, n, |a| < |b|, listAll)))
  }

  /** The entry tells the two bytes at its offset, and they differ. */
  predicate IsDifference(x: Difference, a: seq<byte>, b: seq<byte>, n: nat)
    requires n <= |a| && n <= |b|
  {
    1 <= x.offset <= n && x.byte1 == a[x.offset - 1] && x.byte2 == b[x.offset - 1] && x.byte1 != x.byte2
  }

  lemma {:induction false} ListedAreDifferences(a: seq<byte>, b: seq<byte>, n: nat, i: nat)
    requires n <= |a| && n <= |b| && i < |Differences(a, b, n)|
    ensures IsDifference(Differences(a, b, n)[i], a, b, n)
  {
    if i < |Differences(a, b, n - 1)| {
      ListedAreDifferences(a, b, n - 1, i);
    }
  }

  lemma {:induction false} ListIsOrdered(a: seq<byte>, b: seq<byte>, n: nat, i: nat, j: nat)
    requires n <= |a| && n <= |b| && i < j < |Differences(a, b, n)|
    ensures Differences(a, b, n)[i].offset < Differences(a, b, n)[j].offset
  {
    var front := Differences(a, b, n - 1);
    if j < |front| {
      ListIsOrdered(a, b, n - 1, i, j);
    } else {
      ListedAreDifferences(a, b, n - 1, i);
    }
  }

  lemma {:induction false} DifferencesAreListed(a: seq<byte>, b: seq<byte>, n: nat, k: nat) returns (i: nat)
    requires n <= |a| && n <= |b| && k < n && a[k] != b[k]
    ensures i < |Differences(a, b, n)| && Differences(a, b, n)[i] == Difference(k + 1, a[k], b[k])
  {
    if k == n - 1 {
      i := |Differences(a, b, n)| - 1;
    } else {
      i := DifferencesAreListed(a, b, n - 1, k);
    }
  }

  /** The list is exact: ordered by offset, every entry a difference, every difference an entry. */
  lemma DifferencesExact(a: seq<byte>, b: seq<byte>, n: nat)
    requires n <= |a| && n <= |b|
    ensures var d := Differences(a, b, n);
            forall i, j :: 0 <= i < j < |d| ==> d[i].offset < d[j].offset
    ensures forall x :: x in Differences(a, b, n) ==> IsDifference(x, a, b, n)
    ensures forall k :: 0 <= k < n && a[k] != b[k] ==> Difference(k + 1, a[k], b[k]) in Differences(a, b, n)
  {
    hide Differences, IsDifference;
    var d := Differences(a, b, n);
    forall i, j | 0 <= i < j < |d|
      ensures d[i].offset < d[j].offset
    {
      ListIsOrdered(a, b, n, i, j);
    }
    forall x | x in d
      ensures IsDifference(x, a, b, n)
    {
      var i :| 0 <= i < |d| && d[i] == x;
      ListedAreDifferences(a, b, n, i);
    }
    forall k | 0 <= k < n && a[k] != b[k]
      ensures Difference(k + 1, a[k], b[k]) in d
    {
      var i := DifferencesAreListed(a, b, n, k);
    }
  }

  lemma FirstListedFirst(a: seq<byte>, b: seq<byte>, n: nat, k: nat)
    requires n <= |a| && n <= |b| && k < n && a[k] != b[k]
    ensures Differences(a, b, n) != [] && Differences(a, b, n)[0].offset <= k + 1
  {
    var i := DifferencesAreListed(a, b, n, k);
    if i > 0 {
      ListIsOrdered(a, b, n, 0, i);
    }
  }

  /** The first entry is the first differing byte. */
  lemma FirstDifference(a: seq<byte>, b: seq<byte>, n: nat)
    requires n <= |a| && n <= |b|
    ensures Differences(a, b, n) != [] ==>
              var k := Differences(a, b, n)[0].offset;
              1 <= k <= n && a[k - 1] != b[k - 1] && a[..k - 1] == b[..k - 1]
  {
    DifferencesExact(a, b, n);
    var d := Differences(a, b, n);
    if d != [] {
      assert IsDifference(d[0], a, b, n);
      var k := d[0].offset;
      forall j | 0 <= j < k - 1
        ensures a[j] == b[j]
      {
        if a[j] != b[j] {
          FirstListedFirst(a, b, n, j);
        }
      }
    }
  }

  /** Exit status 0 means exactly that the files are the same, with or without -l or -s. */
  lemma StatusZeroIffSame(a: seq<byte>, b: seq<byte>, silent: bool, listAll: bool)
    ensures Expected(a, b, silent, listAll).status == 0 <==> a == b
  {
    var n := Min(|a|, |b|);
    DifferencesExact(a, b, n);
    var d := Differences(a, b, n);
    assert d != [] ==> IsDifference(d[0], a, b, n);
    assert d == [] ==> forall k :: 0 <= k < n ==> a[k] == b[k];
  }

  // ---------- the width of the offset column ----------

  function DigitCount(n: nat): nat {
    if n < 10 then 1 else 1 + DigitCount(n / 10)
  }

  lemma {:induction false} DigitCountGrows(x: nat, y: nat)
    requires x <= y
    ensures DigitCount(x) <= DigitCount(y)
  {
    if y >= 10 && x >= 10 {
      DigitCountGrows(x / 10, y / 10);
    }
  }

  /** The smaller size of those that are known, or the largest offset there is. */
  function Limit(size1: Option<nat>, size2: Option<nat>): nat {
    var l := if size1.Some? && size1.value < INT64_MAX then size1.value else INT64_MAX;
    if size2.Some? && size2.value < l then size2.value else l
  }

  /** `size` is the size of a regular file, which bounds what can be read from it. */
  ghost predicate SizeBounds(size: Option<nat>, data: seq<byte>) {
    if size.Some? then |data| <= size.value else |data| <= INT64_MAX
  }

  /** Every offset of the -l list fits the column. */
  lemma OffsetsFit(a: seq<byte>, b: seq<byte>, size1: Option<nat>, size2: Option<nat>, silent: bool)
    requires SizeBounds(size1, a) && SizeBounds(size2, b) && |a| <= INT64_MAX && |b| <= INT64_MAX
    ensures forall i :: 0 <= i < |Expected(a, b, silent, true).listed| ==>
              DigitCount(Expected(a, b, silent, true).listed[i].offset) <= DigitCount(Limit(size1, size2))
  {
    var n := Min(|a|, |b|);
    DifferencesExact(a, b, n);
    var d := Expected(a, b, silent, true).listed;
    forall i | 0 <= i < |d|
      ensures DigitCount(d[i].offset) <= DigitCount(Limit(size1, size2))
    {
      assert IsDifference(d[i], a, b, n);
      DigitCountGrows(d[i].offset, Limit(size1, size2));
    }
  }

  method OffsetWidth(size1: Option<nat>, size2: Option<nat>) returns (width: nat)
    ensures width == DigitCount(Limit(size1, size2))
  {
    var limit := INT64_MAX;
    if size1.Some? && size1.value < limit {
      limit := size1.value;
    }
    if size2.Some? && size2.value < limit {
      limit := size2.value;
    }
    width := 1;
    limit := limit / 10;
    while limit != 0
      invariant width + (if limit == 0 then 0 else DigitCount(limit)) == DigitCount(Limit(size1, size2))
    {
      width := width + 1;
      limit := limit / 10;
    }
  }

  // ---------- the code ----------

  class Stream {
    const data: seq<byte>
    var pos: nat

    constructor (data: seq<byte>)
      ensures this.data == data && pos == 0
    {
      this.data := data;
      pos := 0;
    }

    /** Fills the buffer with some of what is left: at least one byte, unless
        nothing is left. How much is not determined. */
    method Read(buf: array<byte>) returns (len: nat)
      requires pos <= |data| && buf.Length > 0
      modifies this, buf
      ensures old(pos) <= pos == old(pos) + len <= |data| && len <= buf.Length
      ensures len == 0 <==> old(pos) == |data|
      ensures buf[..len] == data[old(pos)..pos]
    {
      var most := Min(buf.Length, |data| - pos);
      if most == 0 {
        return 0;
      }
      len :| 1 <= len <= most;
      var i := 0;
      while i < len
        invariant 0 <= i <= len && pos == old(pos)
        invariant buf[..i] == data[pos..pos + i]
      {
        buf[i] := data[pos + i];
        i := i + 1;
      }
      pos := pos + len;
    }
  }

  /** The unread part of a buffer is what the stream holds from `done` on. */
  ghost predicate Buffered(f: Stream, buf: array<byte>, i: nat, len: nat, done: nat)
    reads f, buf
  {
    && i <= len <= buf.Length && f.pos <= |f.data| && done + (len - i) == f.pos
    && buf[i..len] == f.data[done..f.pos]
  }

  /** The loop's running variables. */
  datatype Counters = Counters(byteNum: nat, lineNum: nat, lastWasNewline: bool, anyDiff: bool, listed: seq<Difference>)

  method Compare(f1: Stream, f2: Stream, silent: bool, listAll: bool) returns (answer: Answer)
    requires f1 != f2 && f1.pos == 0 && f2.pos == 0
    modifies f1, f2
    ensures answer == Expected(f1.data, f2.data, silent, listAll)
  {
    ghost var a, b := f1.data, f2.data;
    var st := Counters(0, 1, false, false, []);
    var buf1, buf2 := new byte[BUFFER_SIZE](_ => 0), new byte[BUFFER_SIZE](_ => 0);
    var len1: nat, len2: nat, i1: nat, i2: nat := 0, 0, 0, 0;
    assert Progress(a, b, listAll, silent, st);
    assert Buffered(f1, buf1, 0, 0, 0) && Buffered(f2, buf2, 0, 0, 0);
    hide Progress, Expected, Buffered;
    while true
      invariant Buffered(f1, buf1, i1, len1, st.byteNum) && Buffered(f2, buf2, i2, len2, st.byteNum)
      invariant Progress(a, b, listAll, silent, st)
      decreases |a| - st.byteNum
    {
      i1, len1 := Refill(f1, buf1, i1, len1, st.byteNum);
      i2, len2 := Refill(f2, buf2, i2, len2, st.byteNum);
      var eof1, eof2 := len1 == 0, len2 == 0;
      if eof1 || eof2 {
        answer := AtEnd(a, b, listAll, silent, st, eof1, eof2);
        return;
      }
      var found;
      st, i1, i2, found := CompareBuffered(f1, f2, listAll, silent, st, buf1, i1, len1, buf2, i2, len2);
      if found.Some? {
        return found.value;
      }
    }
  }

  /** The inner loop: as many bytes as both buffers still hold. */
  method CompareBuffered(ghost f1: Stream, ghost f2: Stream, listAll: bool, silent: bool, st0: Counters,
                         buf1: array<byte>, start1: nat, len1: nat, buf2: array<byte>, start2: nat, len2: nat)
    returns (st: Counters, i1: nat, i2: nat, found: Option<Answer>)
    requires Buffered(f1, buf1, start1, len1, st0.byteNum) && Buffered(f2, buf2, start2, len2, st0.byteNum)
    requires start1 < len1 <= buf1.Length && start2 < len2 <= buf2.Length
    requires Progress(f1.data, f2.data, listAll, silent, st0)
    ensures found.Some? ==> found.value == Expected(f1.data, f2.data, silent, listAll)
    ensures found.None? ==> st.byteNum > st0.byteNum && Progress(f1.data, f2.data, listAll, silent, st)
    ensures found.None? ==> Buffered(f1, buf1, i1, len1, st.byteNum) && Buffered(f2, buf2, i2, len2, st.byteNum)
  {
    hide Progress, Expected, Buffered;
    st, i1, i2, found := st0, start1, start2, None;
    var avail1, avail2 := len1 - i1, len2 - i2;
    var n := if avail1 < avail2 then avail1 else avail2;
    var k := 0;
    while k < n
      invariant 0 <= k <= n && st.byteNum == st0.byteNum + k
      invariant i1 + (n - k) <= len1 && i2 + (n - k) <= len2
      invariant Buffered(f1, buf1, i1, len1, st.byteNum) && Buffered(f2, buf2, i2, len2, st.byteNum)
      invariant Progress(f1.data, f2.data, listAll, silent, st) && found.None?
    {
      TakeByte(f1, buf1, i1, len1, st.byteNum);
      TakeByte(f2, buf2, i2, len2, st.byteNum);
      NextIsProgress(f1.data, f2.data, listAll, silent, st);
      st, found := ByteStep(st, buf1[i1], buf2[i2], listAll, silent);
      if found.Some? {
        return;
      }
      i1, i2 := i1 + 1, i2 + 1;
      k := k + 1;
    }
  }

  /** The running variables after one more pair of bytes. */
  function Next(st: Counters, c1: byte, c2: byte, listAll: bool, silent: bool): Counters {
    Counters(st.byteNum + 1, st.lineNum + (if c1 == NEWLINE then 1 else 0), c1 == NEWLINE, st.anyDiff || c1 != c2,
             st.listed + (if c1 != c2 && listAll && !silent then [Difference(st.byteNum + 1, c1, c2)] else []))
  }

  lemma NextIsProgress(a: seq<byte>, b: seq<byte>, listAll: bool, silent: bool, st: Counters)
    requires Progress(a, b, listAll, silent, st) && st.byteNum < |a| && st.byteNum < |b|
    ensures var n := st.byteNum;
            if a[n] != b[n] && !listAll then
              Expected(a, b, silent, false) == Answer(1, [], if silent then None else Some(DifferAt(n + 1, st.lineNum)))
            else Progress(a, b, listAll, silent, Next(st, a[n], b[n], listAll, silent))
  {
    if a[st.byteNum] != b[st.byteNum] && !listAll {
      FirstAnswer(a, b, st.byteNum, silent);
    }
  }

  /** One turn of the inner loop, on the next byte of each file. */
  method ByteStep(st: Counters, c1: byte, c2: byte, listAll: bool, silent: bool)
    returns (st': Counters, found: Option<Answer>)
    ensures st' == Next(st, c1, c2, listAll, silent)
    ensures found == if c1 != c2 && !listAll
                     then Some(Answer(1, [], if silent then None else Some(DifferAt(st.byteNum + 1, st.lineNum))))
                     else None
  {
    var byteNum, lineNum, anyDiff, listed := st.byteNum + 1, st.lineNum, st.anyDiff, st.listed;
    found := None;
    if c1 != c2 {
      anyDiff := true;
      if listAll {
        if !silent {
          listed := listed + [Difference(byteNum, c1, c2)];
        }
      } else {
        found := Some(Answer(1, [], if silent then None else Some(DifferAt(byteNum, lineNum))));
      }
    }
    var lastWasNewline := c1 == NEWLINE;
    if lastWasNewline {
      lineNum := lineNum + 1;
    }
    st' := Counters(byteNum, lineNum, lastWasNewline, anyDiff, listed);
  }

  /** What is answered once a file has ended. */
  method AtEnd(ghost a: seq<byte>, ghost b: seq<byte>, listAll: bool, silent: bool, st: Counters, eof1: bool, eof2: bool)
    returns (answer: Answer)
    requires Progress(a, b, listAll, silent, st) && (eof1 || eof2)
    requires (eof1 <==> st.byteNum == |a|) && (eof2 <==> st.byteNum == |b|)
    ensures answer == Expected(a, b, silent, listAll)
  {
    if eof1 && eof2 {
      return Answer(if st.anyDiff then 1 else 0, st.listed, None);
    }
    var message := None;
    if !silent {
      message := Some(
        if st.byteNum == 0 then ShorterIsEmpty(eof1)
        else if listAll then EndsAfterByte(eof1, st.byteNum)
        else if st.lastWasNewline then EndsWithLine(eof1, st.byteNum, st.lineNum - 1)
        else EndsInLine(eof1, st.byteNum, st.lineNum));
    }
    return Answer(1, st.listed, message);
  }

  /** Reads on when the buffer is used up; it stays empty only at the end of the file. */
  method Refill(f: Stream, buf: array<byte>, i: nat, len: nat, ghost done: nat) returns (i': nat, len': nat)
    requires Buffered(f, buf, i, len, done) && buf.Length > 0
    modifies f, buf
    ensures Buffered(f, buf, i', len', done)
    ensures len' <= buf.Length && done <= |f.data|
    ensures if len' == 0 then done == |f.data| else i' < len' && done < |f.data|
  {
    i', len' := i, len;
    if i' >= len' {
      len' := f.Read(buf);
      i' := 0;
    }
  }

  lemma TakeByte(f: Stream, buf: array<byte>, i: nat, len: nat, done: nat)
    requires Buffered(f, buf, i, len, done) && i < len
    ensures Buffered(f, buf, i + 1, len, done + 1)
    ensures done < |f.data| && buf[i] == f.data[done]
  {
    assert buf[i..len][0] == buf[i];
    assert buf[i..len][1..] == buf[i + 1..len];
    assert f.data[done..f.pos][1..] == f.data[done + 1..f.pos];
  }

  lemma OneMoreByte(a: seq<byte>, b: seq<byte>, n: nat)
    requires n < |a| && n < |b|
    ensures Differences(a, b, n + 1) == Differences(a, b, n) + if a[n] == b[n] then [] else [Difference(n + 1, a[n], b[n])]
    ensures Newlines(a, n + 1) == Newlines(a, n) + if a[n] == NEWLINE then 1 else 0
  {
  }

  lemma FirstAnswer(a: seq<byte>, b: seq<byte>, n: nat, silent: bool)
    requires n < |a| && n < |b| && Differences(a, b, n) == [] && a[n] != b[n]
    ensures Expected(a, b, silent, false) == Answer(1, [], if silent then None else Some(DifferAt(n + 1, Newlines(a, n) + 1)))
  {
    FoundFirst(a, b, n + 1);
  }

  /** When only byte `n` has differed so far, it is the first difference of the whole files. */
  lemma FoundFirst(a: seq<byte>, b: seq<byte>, n: nat)
    requires 0 < n <= |a| && n <= |b|
    requires Differences(a, b, n - 1) == [] && a[n - 1] != b[n - 1]
    ensures Differences(a, b, Min(|a|, |b|)) != [] && Differences(a, b, Min(|a|, |b|))[0].offset == n
  {
    var m := n;
    while m < Min(|a|, |b|)
      invariant n <= m <= Min(|a|, |b|)
      invariant Differences(a, b, m) != [] && Differences(a, b, m)[0].offset == n
    {
      m := m + 1;
    }
  }

  /** What the running variables say of the bytes compared so far. */
  ghost predicate Progress(a: seq<byte>, b: seq<byte>, listAll: bool, silent: bool, st: Counters) {
    var n := st.byteNum;
    && n <= |a| && n <= |b|
    && st.lineNum == Newlines(a, n) + 1
    && (st.lastWasNewline <==> n > 0 && a[n - 1] == NEWLINE)
    && (st.anyDiff <==> Differences(a, b, n) != [])
    && (!listAll ==> !st.anyDiff)
    && st.listed == if listAll && !silent then Differences(a, b, n) else []
  }
}
