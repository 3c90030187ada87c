/** micro's Option-key translator: a byte-at-a-time UTF-8 state machine that
    replaces the characters an Option key types by ESC and the key
    (src/micro_app.c, microDecodeUtf8, microMapOptionRuneToAlt,
    microUtf8StateReset, microTranslateOptionByte and the final flush). */
module OptionKeys {

  import opened Sequences
  import opened Wrappers

  type byte = bv8

  const ESC: byte := 0x1B

  // ---------- runes ----------

  /** The key that types a character together with Option. */
  function MapRune(cp: bv32): Option<byte> {
    match cp
    case 0x00E5 => Some(0x61)
    case 0x222B => Some(0x62)
    case 0x00E7 => Some(0x63)
    case 0x2202 => Some(0x64)
    case 0x00B4 => Some(0x65)
    case 0x0192 => Some(0x66)
    case 0x00A9 => Some(0x67)
    case 0x02D9 => Some(0x68)
    case 0x02C6 => Some(0x69)
    case 0x2206 => Some(0x6A)
    case 0x02DA => Some(0x6B)
    case 0x00AC => Some(0x6C)
    case 0x00B5 => Some(0x6D)
    case 0x02DC => Some(0x6E)
    case 0x00F8 => Some(0x6F)
    case 0x03C0 => Some(0x70)
    case 0x0153 => Some(0x71)
    case 0x00AE => Some(0x72)
    case 0x00DF => Some(0x73)
    case 0x2020 => Some(0x74)
    case 0x00A8 => Some(0x75)
    case 0x221A => Some(0x76)
    case 0x2211 => Some(0x77)
    case 0x2248 => Some(0x78)
    case 0x00A5 => Some(0x79)
    case 0x03A9 => Some(0x7A)
    case 0x2265 => Some(0x2E)
    case _ => None
  }

  /** No two characters are translated to the same key, and none is ASCII. */
  lemma MapIsInjective(x: bv32, y: bv32)
    requires MapRune(x).Some? && MapRune(x) == MapRune(y)
    ensures x == y && x >= 0x80
  {
  }

  predicate IsContinuation(b: byte) {
    b & 0xC0 == 0x80
  }

  /** The length a lead byte announces; 0 for ASCII and for bytes that cannot lead. */
  function LeadLength(b: byte): (n: nat)
    ensures n == 0 || 2 <= n <= 4
  {
    if b & 0x80 == 0 then 0
    else if b & 0xE0 == 0xC0 then 2
    else if b & 0xF0 == 0xE0 then 3
    else if b & 0xF8 == 0xF0 then 4
    else 0
  }

  /** The bits of `b` that `mask` selects, as the low bits of a rune. */
  function Bits(b: byte, mask: byte): bv32 {
    (b & mask) as bv32
  }

  function DecodeUtf8(s: seq<byte>): Option<bv32> {
    if |s| == 1 && s[0] & 0x80 == 0 then Some(s[0] as bv32)
    else if |s| == 2 && s[0] & 0xE0 == 0xC0 && IsContinuation(s[1]) then
      Some((Bits(s[0], 0x1F) << 6) | Bits(s[1], 0x3F))
    else if |s| == 3 && s[0] & 0xF0 == 0xE0 && IsContinuation(s[1]) && IsContinuation(s[2]) then
      Some((Bits(s[0], 0x0F) << 12) | (Bits(s[1], 0x3F) << 6) | Bits(s[2], 0x3F))
    else if |s| == 4 && s[0] & 0xF8 == 0xF0 && IsContinuation(s[1]) && IsContinuation(s[2]) && IsContinuation(s[3]) then
      Some((Bits(s[0], 0x07) << 18) | (Bits(s[1], 0x3F) << 12) | (Bits(s[2], 0x3F) << 6) | Bits(s[3], 0x3F))
    else None
  }

  /** The encoding of section 3 of RFC 3629. */
  function EncodeUtf8(cp: bv32): (s: seq<byte>)
    requires cp < 0x110000
  {
    if cp < 0x80 then [cp as byte]
    else if cp < 0x800 then [0xC0 | Low(cp >> 6, 0x1F), 0x80 | Low(cp, 0x3F)]
    else if cp < 0x10000 then [0xE0 | Low(cp >> 12, 0x0F), 0x80 | Low(cp >> 6, 0x3F), 0x80 | Low(cp, 0x3F)]
    else [0xF0 | Low(cp >> 18, 0x07), 0x80 | Low(cp >> 12, 0x3F), 0x80 | Low(cp >> 6, 0x3F), 0x80 | Low(cp, 0x3F)]
  }

  /** The bits of `x` that `mask` selects. */
  function Low(x: bv32, mask: bv32): byte
    requires mask <= 0xFF
  {
    (x & mask) as byte
  }

  function Glue2(x: bv32, y: bv32): bv32 {
    (x << 6) | y
  }

  function Glue3(x: bv32, y: bv32, z: bv32): bv32 {
    (x << 12) | (y << 6) | z
  }

  function Glue4(x: bv32, y: bv32, z: bv32, u: bv32): bv32 {
    (x << 18) | (y << 12) | (z << 6) | u
  }

  function Field(x: bv32, mask: bv32): bv32 {
    x & mask
  }

  lemma DecodeTwo(b0: byte, b1: byte)
    requires b0 & 0xE0 == 0xC0 && IsContinuation(b1)
    ensures DecodeUtf8([b0, b1]) == Some(Glue2(Bits(b0, 0x1F), Bits(b1, 0x3F)))
  {
  }

  lemma DecodeThree(b0: byte, b1: byte, b2: byte)
    requires b0 & 0xF0 == 0xE0 && IsContinuation(b1) && IsContinuation(b2)
    ensures DecodeUtf8([b0, b1, b2]) == Some(Glue3(Bits(b0, 0x0F), Bits(b1, 0x3F), Bits(b2, 0x3F)))
  {
  }

  lemma DecodeFour(b0: byte, b1: byte, b2: byte, b3: byte)
    requires b0 & 0xF8 == 0xF0 && IsContinuation(b1) && IsContinuation(b2) && IsContinuation(b3)
    ensures DecodeUtf8([b0, b1, b2, b3]) == Some(Glue4(Bits(b0, 0x07), Bits(b1, 0x3F), Bits(b2, 0x3F), Bits(b3, 0x3F)))
  {
  }

  lemma Join2(cp: bv32)
    requires cp < 0x800
    ensures Glue2(Field(cp >> 6, 0x1F), Field(cp, 0x3F)) == cp
  {
  }

  lemma Join3(cp: bv32)
    requires cp < 0x10000
    ensures Glue3(Field(cp >> 12, 0x0F), Field(cp >> 6, 0x3F), Field(cp, 0x3F)) == cp
  {
  }

  lemma Join4(cp: bv32)
    requires cp < 0x110000
    ensures Glue4(Field(cp >> 18, 0x07), Field(cp >> 12, 0x3F), Field(cp >> 6, 0x3F), Field(cp, 0x3F)) == cp
  {
  }

  function Tail(x: bv32): byte {
    0x80 | Low(x, 0x3F)
  }

  function Lead2(x: bv32): byte {
    0xC0 | Low(x, 0x1F)
  }

  function Lead3(x: bv32): byte {
    0xE0 | Low(x, 0x0F)
  }

  function Lead4(x: bv32): byte {
    0xF0 | Low(x, 0x07)
  }

  lemma TailIs(x: bv32)
    ensures IsContinuation(Tail(x)) && Bits(Tail(x), 0x3F) == Field(x, 0x3F)
  {
  }

  lemma Lead2Is(x: bv32)
    ensures Lead2(x) & 0xE0 == 0xC0 && Bits(Lead2(x), 0x1F) == Field(x, 0x1F)
  {
  }

  lemma Lead3Is(x: bv32)
    ensures Lead3(x) & 0xF0 == 0xE0 && Bits(Lead3(x), 0x0F) == Field(x, 0x0F)
  {
  }

  lemma Lead4Is(x: bv32)
    ensures Lead4(x) & 0xF8 == 0xF0 && Bits(Lead4(x), 0x07) == Field(x, 0x07)
  {
  }

  lemma TwoBytes(cp: bv32)
    requires cp < 0x800
    ensures DecodeUtf8([Lead2(cp >> 6), Tail(cp)]) == Some(cp)
  {
    hide *;
    Lead2Is(cp >> 6);
    TailIs(cp);
    DecodeTwo(Lead2(cp >> 6), Tail(cp));
    Join2(cp);
  }

  lemma ThreeBytes(cp: bv32)
    requires cp < 0x10000
    ensures DecodeUtf8([Lead3(cp >> 12), Tail(cp >> 6), Tail(cp)]) == Some(cp)
  {
    hide *;
    Lead3Is(cp >> 12);
    TailIs(cp >> 6);
    TailIs(cp);
    DecodeThree(Lead3(cp >> 12), Tail(cp >> 6), Tail(cp));
    Join3(cp);
  }

  lemma FourBytes(cp: bv32)
    requires cp < 0x110000
    ensures DecodeUtf8([Lead4(cp >> 18), Tail(cp >> 12), Tail(cp >> 6), Tail(cp)]) == Some(cp)
  {
    hide *;
    Lead4Is(cp >> 18);
    TailIs(cp >> 12);
    TailIs(cp >> 6);
    TailIs(cp);
    DecodeFour(Lead4(cp >> 18), Tail(cp >> 12), Tail(cp >> 6), Tail(cp));
    Join4(cp);
  }

  /** The encoding, byte by byte. */
  lemma EncodedBytes(cp: bv32)
    requires cp < 0x110000
    ensures 0x80 <= cp < 0x800 ==> EncodeUtf8(cp) == [Lead2(cp >> 6), Tail(cp)]
    ensures 0x800 <= cp < 0x10000 ==> EncodeUtf8(cp) == [Lead3(cp >> 12), Tail(cp >> 6), Tail(cp)]
    ensures 0x10000 <= cp ==> EncodeUtf8(cp) == [Lead4(cp >> 18), Tail(cp >> 12), Tail(cp >> 6), Tail(cp)]
  {
    hide Low;
  }

  /** Decoding undoes the encoding of RFC 3629 for every code point. */
  lemma DecodeUndoesEncode(cp: bv32)
    requires cp < 0x110000
    ensures DecodeUtf8(EncodeUtf8(cp)) == Some(cp)
  {
    hide *;
    EncodedBytes(cp);
    if cp < 0x80 {
      AsciiDecodes(cp);
    } else if cp < 0x800 {
      TwoBytes(cp);
    } else if cp < 0x10000 {
      ThreeBytes(cp);
    } else {
      FourBytes(cp);
    }
  }

  lemma AsciiDecodes(cp: bv32)
    requires cp < 0x80
    ensures DecodeUtf8(EncodeUtf8(cp)) == Some(cp)
  {
  }

  // ---------- the reference: cutting a byte stream into segments ----------

  /** A byte on its own, a sequence cut short by a byte that does not continue it
      (which is part of the segment), or a sequence with all its continuation bytes. */
  datatype Segment = Single(b: byte) | Broken(bytes: seq<byte>) | Complete(bytes: seq<byte>) {
    function Bytes(): seq<byte> {
      if Single? then [b] else bytes
    }
  }

  /** How many of the first `max` bytes continue a sequence. */
  function ContinuationRun(s: seq<byte>, max: nat): (n: nat)
    ensures n <= |s| && n <= max
    ensures forall k :: 0 <= k < n ==> IsContinuation(s[k])
    ensures n < max && n < |s| ==> !IsContinuation(s[n])
  {
    if s == [] || max == 0 || !IsContinuation(s[0]) then 0 else 1 + ContinuationRun(s[1..], max - 1)
  }

  /** The first segment, found by looking ahead; None while it is still open. */
  function FirstSegment(s: seq<byte>): (r: Option<Segment>)
    requires s != []
    ensures r.Some? ==> 0 < |r.value.Bytes()| <= 4 && r.value.Bytes() <= s
  {
    var n := LeadLength(s[0]);
    if n == 0 then Some(Single(s[0]))
    else
      var run := ContinuationRun(s[1..], n - 1);
      if run == n - 1 then Some(Complete(s[..n]))
      else if run + 1 < |s| then Some(Broken(s[..run + 2]))
      else None
  }

  datatype Cut = Cut(segments: seq<Segment>, pending: seq<byte>)

  function Segments(s: seq<byte>): Cut {
    if s == [] then Cut([], [])
    else
      match FirstSegment(s)
      case None => Cut([], s)
      case Some(seg) =>
        var rest := Segments(s[|seg.Bytes()|..]);
        Cut([seg] + rest.segments, rest.pending)
  }

  /** The key of a complete sequence that decodes to a mapped character. */
  function KeyOf(seg: Segment): Option<byte> {
    if !seg.Complete? then None
    else
      match DecodeUtf8(seg.bytes)
      case None => None
      case Some(cp) => MapRune(cp)
  }

  function Render(seg: Segment): seq<byte> {
    match KeyOf(seg)
    case Some(key) => [ESC, key]
    case None => seg.Bytes()
  }

  function Rendered(segs: seq<Segment>): seq<byte> {
    if segs == [] then [] else Rendered(segs[..|segs| - 1]) + Render(segs[|segs| - 1])
  }

  function Raw(segs: seq<Segment>): seq<byte> {
    if segs == [] then [] else Raw(segs[..|segs| - 1]) + segs[|segs| - 1].Bytes()
  }

  lemma {:induction false} RawPrepend(seg: Segment, segs: seq<Segment>)
    ensures Raw([seg] + segs) == seg.Bytes() + Raw(segs)
  {
    hide Segment.Bytes;
    if segs == [] {
      assert [seg] + segs == [seg] && [seg][..0] == [];
    } else {
      RawPrepend(seg, segs[..|segs| - 1]);
      assert ([seg] + segs)[..|segs|] == [seg] + segs[..|segs| - 1];
    }
  }

  /** An open sequence: a lead byte and fewer continuation bytes than it announces. */
  predicate OpenSequence(p: seq<byte>) {
    p == [] || (LeadLength(p[0]) > |p| && forall k :: 1 <= k < |p| ==> IsContinuation(p[k]))
  }

  lemma {:induction false} RunOfAll(s: seq<byte>, max: nat)
    requires |s| <= max && forall k :: 0 <= k < |s| ==> IsContinuation(s[k])
    ensures ContinuationRun(s, max) == |s|
  {
    if s != [] {
      RunOfAll(s[1..], max - 1);
    }
  }

  lemma SegmentsAfterFirst(s: seq<byte>, seg: Segment)
    requires s != [] && FirstSegment(s) == Some(seg)
    ensures 0 < |seg.Bytes()| <= |s| && seg.Bytes() == s[..|seg.Bytes()|]
    ensures var rest := Segments(s[|seg.Bytes()|..]);
            Segments(s) == Cut([seg] + rest.segments, rest.pending)
  {
    hide FirstSegment;
  }

  lemma OpenWhenNone(s: seq<byte>)
    requires s != [] && FirstSegment(s).None?
    ensures OpenSequence(s) && |s| <= 3 && Segments(s) == Cut([], s)
  {
    assert forall k :: 1 <= k < |s| ==> s[k] == s[1..][k - 1];
  }

  /** The cut loses nothing: the segments and the pending bytes are the input,
      and at most three bytes are pending. */
  lemma {:induction false} CutConserves(s: seq<byte>)
    ensures Raw(Segments(s).segments) + Segments(s).pending == s
    ensures OpenSequence(Segments(s).pending) && |Segments(s).pending| <= 3
    decreases |s|
  {
    hide *;
    if s == [] {
      NothingCut();
      return;
    }
    if FirstSegment(s).None? {
      OpenWhenNone(s);
      NothingCut();
      return;
    }
    var seg := FirstSegment(s).value;
    SegmentsAfterFirst(s, seg);
    var n := |seg.Bytes()|;
    CutConserves(s[n..]);
    ConservesOneMore(s, n, seg, Segments(s[n..]));
  }

  lemma ConservesOneMore(s: seq<byte>, n: nat, seg: Segment, c: Cut)
    requires n <= |s| && seg.Bytes() == s[..n] && Raw(c.segments) + c.pending == s[n..]
    ensures Raw([seg] + c.segments) + c.pending == s
  {
    hide *;
    RawPrepend(seg, c.segments);
    Regroup(seg.Bytes(), Raw(c.segments), c.pending);
    assert s == s[..n] + s[n..];
  }

  lemma NothingCut()
    ensures Raw([]) == [] && Segments([]) == Cut([], []) && OpenSequence([])
  {
  }

  /** A complete segment has the shape of RFC 3629: a lead byte and exactly the
      continuation bytes it announces, so it decodes. */
  lemma {:induction false} CompleteSegmentsDecode(s: seq<byte>)
    ensures forall k :: 0 <= k < |Segments(s).segments| && Segments(s).segments[k].Complete? ==>
              DecodeUtf8(Segments(s).segments[k].bytes).Some?
    decreases |s|
  {
    if s != [] {
      match FirstSegment(s)
      case None =>
      case Some(seg) =>
        var rest := s[|seg.Bytes()|..];
        CompleteSegmentsDecode(rest);
        if seg.Complete? {
          assert forall k :: 1 <= k < |seg.bytes| ==> seg.bytes[k] == s[1..][k - 1];
        }
    }
  }

  /** Without a mapped sequence the output and the pending bytes are the input. */
  lemma {:induction false} UnmappedIsIdentity(segs: seq<Segment>)
    requires forall k :: 0 <= k < |segs| ==> KeyOf(segs[k]).None?
    ensures Rendered(segs) == Raw(segs)
  {
    if segs != [] {
      UnmappedIsIdentity(segs[..|segs| - 1]);
    }
  }

  // ---------- text ----------

  function EncodeText(cps: seq<bv32>): seq<byte>
    requires forall k :: 0 <= k < |cps| ==> cps[k] < 0x110000
  {
    if cps == [] then [] else EncodeUtf8(cps[0]) + EncodeText(cps[1..])
  }

  /** Every mapped character becomes ESC and its key, every other stays as it is. */
  function TranslateText(cps: seq<bv32>): seq<byte>
    requires forall k :: 0 <= k < |cps| ==> cps[k] < 0x110000
  {
    if cps == [] then []
    else
      (match MapRune(cps[0])
       case Some(key) => [ESC, key]
       case None => EncodeUtf8(cps[0])) + TranslateText(cps[1..])
  }

  lemma ShapeOfEncoded(cp: bv32)
    requires cp < 0x110000
    ensures var e := EncodeUtf8(cp);
            && e != []
            && (forall k :: 1 <= k < |e| ==> IsContinuation(e[k]))
            && LeadLength(e[0]) == (if |e| == 1 then 0 else |e|)
  {
  }

  lemma {:induction false} RunBeforeMore(s: seq<byte>, t: seq<byte>)
    requires forall k :: 0 <= k < |s| ==> IsContinuation(s[k])
    ensures ContinuationRun(s + t, |s|) == |s|
  {
    if s != [] {
      RunBeforeMore(s[1..], t);
      assert (s + t)[1..] == s[1..] + t;
    }
  }

  /** Well-formed text is translated character by character, and nothing stays pending. */
  lemma {:induction false} TextIsTranslated(cps: seq<bv32>)
    requires forall k :: 0 <= k < |cps| ==> cps[k] < 0x110000
    ensures Rendered(Segments(EncodeText(cps)).segments) == TranslateText(cps)
    ensures Segments(EncodeText(cps)).pending == []
  {
    if cps == [] {
      return;
    }
    hide EncodeUtf8, MapRune, Segments, Rendered;
    TextIsTranslated(cps[1..]);
    RuneIsTranslated(cps[0], EncodeText(cps[1..]));
  }

  /** What follows one encoded character is cut and rendered on its own. */
  lemma RuneIsTranslated(cp: bv32, rest: seq<byte>)
    requires cp < 0x110000
    ensures var c, d := Segments(rest), Segments(EncodeUtf8(cp) + rest);
            && d.pending == c.pending
            && Rendered(d.segments) == (match MapRune(cp)
                                        case Some(key) => [ESC, key]
                                        case None => EncodeUtf8(cp)) + Rendered(c.segments)
  {
    hide *;
    var e := EncodeUtf8(cp);
    var s := e + rest;
    ShapeOfEncoded(cp);
    FirstIsEncoded(e, rest);
    var seg := SegmentOf(e);
    SegmentsAfterFirst(s, seg);
    SegmentOfBytes(e);
    assert s[|e|..] == rest;
    RenderedOfTwo([seg], Segments(rest).segments);
    OneRendered(seg);
    RenderedRune(cp);
  }

  /** The segment one encoded character makes. */
  function SegmentOf(e: seq<byte>): Segment
    requires e != []
  {
    if |e| == 1 then Single(e[0]) else Complete(e)
  }

  lemma SegmentOfBytes(e: seq<byte>)
    requires e != []
    ensures SegmentOf(e).Bytes() == e
  {
    assert |e| == 1 ==> e == [e[0]];
  }

  lemma RenderedRune(cp: bv32)
    requires cp < 0x110000 && EncodeUtf8(cp) != []
    ensures Render(SegmentOf(EncodeUtf8(cp))) == match MapRune(cp)
                                                 case Some(key) => [ESC, key]
                                                 case None => EncodeUtf8(cp)
  {
    DecodeUndoesEncode(cp);
    SegmentOfBytes(EncodeUtf8(cp));
    if |EncodeUtf8(cp)| == 1 {
      AsciiIsUnmapped(cp);
    }
    hide EncodeUtf8, DecodeUtf8, MapRune;
  }

  lemma FirstIsEncoded(e: seq<byte>, rest: seq<byte>)
    requires e != [] && (forall k :: 1 <= k < |e| ==> IsContinuation(e[k]))
    requires LeadLength(e[0]) == (if |e| == 1 then 0 else |e|)
    ensures FirstSegment(e + rest) == Some(SegmentOf(e))
  {
    hide LeadLength, IsContinuation;
    var s := e + rest;
    RunBeforeMore(e[1..], rest);
    assert s[1..] == e[1..] + rest && s[..|e|] == e;
  }

  lemma AsciiIsUnmapped(cp: bv32)
    requires cp < 0x110000 && |EncodeUtf8(cp)| == 1
    ensures MapRune(cp).None?
  {
  }

  // ---------- one byte at a time ----------

  lemma {:induction false} RunWithMore(s: seq<byte>, b: byte, max: nat)
    ensures var n := ContinuationRun(s, max);
            n == max || n < |s| ==> ContinuationRun(s + [b], max) == n
  {
    hide IsContinuation;
    if s != [] && max > 0 && IsContinuation(s[0]) {
      RunWithMore(s[1..], b, max - 1);
      assert (s + [b])[1..] == s[1..] + [b];
    }
  }

  /** A segment that is complete stays what it is when more bytes arrive. */
  lemma PrefixStays(s: seq<byte>, b: byte, m: nat)
    requires m <= |s|
    ensures (s + [b])[..m] == s[..m]
  {
  }

  lemma TailStays(s: seq<byte>, b: byte)
    requires s != []
    ensures (s + [b])[1..] == s[1..] + [b] && (s + [b])[0] == s[0]
  {
  }

  lemma FirstSegmentStays(s: seq<byte>, b: byte)
    requires s != [] && FirstSegment(s).Some?
    ensures FirstSegment(s + [b]) == FirstSegment(s)
  {
    hide LeadLength, IsContinuation, ContinuationRun;
    var n := LeadLength(s[0]);
    TailStays(s, b);
    if n > 0 {
      RunWithMore(s[1..], b, n - 1);
      PrefixStays(s, b, |FirstSegment(s).value.Bytes()|);
    }
  }

  /** One more byte only concerns the pending bytes. */
  lemma {:induction false} OneMoreByte(s: seq<byte>, b: byte)
    ensures var c := Segments(s);
            var d := Segments(c.pending + [b]);
            Segments(s + [b]) == Cut(c.segments + d.segments, d.pending)
    decreases |s|
  {
    if s == [] {
      assert s + [b] == [b] && [] + [b] == [b] && Segments(s) == Cut([], []);
      hide Segments;
      assert [] + Segments([b]).segments == Segments([b]).segments;
      return;
    }
    hide *;
    if FirstSegment(s).None? {
      OpenWhenNone(s);
      assert [] + Segments(s + [b]).segments == Segments(s + [b]).segments;
      return;
    }
    var seg := FirstSegment(s).value;
    var n := |seg.Bytes()|;
    SegmentsAfterFirst(s, seg);
    FirstSegmentStays(s, b);
    SegmentsAfterFirst(s + [b], seg);
    assert (s + [b])[n..] == s[n..] + [b];
    OneMoreByte(s[n..], b);
    var c := Segments(s[n..]);
    var d := Segments(c.pending + [b]);
    Regroup([seg], c.segments, d.segments);
  }

  /** What the machine is to do with a byte, given the open sequence. */
  function Advance(p: seq<byte>, b: byte): Cut {
    if p == [] then (if LeadLength(b) == 0 then Cut([Single(b)], []) else Cut([], [b]))
    else if !IsContinuation(b) then Cut([Broken(p + [b])], [])
    else if |p| + 1 == LeadLength(p[0]) then Cut([Complete(p + [b])], [])
    else Cut([], p + [b])
  }

  lemma RunToLast(s: seq<byte>, b: byte, max: nat)
    requires |s| < max && forall k :: 0 <= k < |s| ==> IsContinuation(s[k])
    ensures ContinuationRun(s + [b], max) == |s| + if IsContinuation(b) then 1 else 0
    decreases |s|
  {
    hide IsContinuation;
    if s == [] {
      assert s + [b] == [b];
    } else {
      RunToLast(s[1..], b, max - 1);
      assert (s + [b])[1..] == s[1..] + [b];
    }
  }

  lemma AdvanceIsCut(p: seq<byte>, b: byte)
    requires OpenSequence(p)
    ensures Segments(p + [b]) == Advance(p, b)
  {
    var s := p + [b];
    FirstOfAdvance(p, b);
    assert Segments([]) == Cut([], []);
    hide LeadLength, IsContinuation, FirstSegment, OpenSequence, Segments;
    match FirstSegment(s) {
      case None =>
        OpenWhenNone(s);
      case Some(seg) =>
        SegmentsAfterFirst(s, seg);
        assert s[|s|..] == [] && [seg] + [] == [seg];
    }
  }

  lemma FirstOfAdvance(p: seq<byte>, b: byte)
    requires OpenSequence(p)
    ensures var s, c := p + [b], Advance(p, b);
            && (c.segments == [] ==> FirstSegment(s).None? && c.pending == s)
            && (c.segments != [] ==> c.pending == [] && |c.segments| == 1 && FirstSegment(s) == Some(c.segments[0])
                                     && |c.segments[0].Bytes()| == |s|)
  {
    var s := p + [b];
    if p == [] {
      assert s == [b] && s[1..] == [] && s[..1] == s;
    } else {
      RunToLast(p[1..], b, LeadLength(p[0]) - 1);
      FirstOfOpen(p, b);
      hide LeadLength, IsContinuation, ContinuationRun, FirstSegment;
    }
  }

  lemma FirstOfOpen(p: seq<byte>, b: byte)
    requires p != [] && |p| < LeadLength(p[0])
    requires ContinuationRun(p[1..] + [b], LeadLength(p[0]) - 1) == |p| - 1 + if IsContinuation(b) then 1 else 0
    ensures var s := p + [b];
            FirstSegment(s) == if !IsContinuation(b) then Some(Broken(s))
                               else if |s| == LeadLength(p[0]) then Some(Complete(s)) else None
  {
    hide LeadLength, IsContinuation, ContinuationRun;
    var s := p + [b];
    assert s[1..] == p[1..] + [b] && s[..|s|] == s;
  }

  lemma RenderedOfMore(x: seq<Segment>, seg: Segment)
    ensures Rendered(x + [seg]) == Rendered(x) + Render(seg)
  {
    hide Render;
    assert (x + [seg])[..|x|] == x;
  }

  lemma {:induction false} RenderedOfTwo(x: seq<Segment>, y: seq<Segment>)
    ensures Rendered(x + y) == Rendered(x) + Rendered(y)
  {
    if y == [] {
      assert x + y == x && Rendered(y) == [];
    } else {
      hide *;
      var front, seg := y[..|y| - 1], y[|y| - 1];
      LastApart(x, y);
      RenderedOfTwo(x, front);
      RenderedOfMore(front, seg);
      RenderedOfMore(x + front, seg);
      Regroup(Rendered(x), Rendered(front), Render(seg));
    }
  }

  // ---------- the code ----------

  class Utf8State {
    var bytes: array<byte>
    var have: nat
    var expected: nat

    constructor ()
      ensures Valid() && Pending() == [] && fresh(bytes)
    {
      bytes := new byte[4](_ => 0);
      have, expected := 0, 0;
    }

    ghost predicate Valid()
      reads this, bytes
    {
      && bytes.Length == 4 && have <= 3
      && OpenSequence(Pending())
      && expected == if have == 0 then 0 else LeadLength(bytes[0])
    }

    function Pending(): seq<byte>
      requires have <= bytes.Length
      reads this, bytes
    {
      bytes[..have]
    }

    method Reset()
      requires bytes.Length == 4
      modifies this`have, this`expected
      ensures Valid() && Pending() == []
    {
      have, expected := 0, 0;
    }

    /** Takes one byte; `ready` says that something is to be written, which is
        never more than four bytes. */
    method TranslateByte(b: byte) returns (ready: bool, out: seq<byte>)
      requires Valid()
      modifies this, bytes
      ensures Valid() && bytes == old(bytes)
      ensures Pending() == Advance(old(Pending()), b).pending
      ensures out == Rendered(Advance(old(Pending()), b).segments)
      ensures (ready <==> out != []) && |out| <= 4
    {
      hide LeadLength, IsContinuation, DecodeUtf8, MapRune;
      ghost var p := Pending();
      NothingRendered();
      if expected == 0 {
        var n := LeadLength(b);
        if n == 0 {
          OneRendered(Single(b));
          return true, [b];
        }
        expected := n;
        bytes[0] := b;
        have := 1;
        assert Pending() == [b];
        return false, [];
      }
      if !IsContinuation(b) {
        OneRendered(Broken(p + [b]));
        out := bytes[..have] + [b];
        Reset();
        return true, out;
      }
      bytes[have] := b;
      have := have + 1;
      assert Pending() == p + [b];
      if have < expected {
        return false, [];
      }
      OneRendered(Complete(p + [b]));
      var cp := DecodeUtf8(bytes[..have]);
      var key := if cp.Some? then MapRune(cp.value) else None;
      if key.Some? {
        out := [ESC, key.value];
      } else {
        out := bytes[..have];
      }
      Reset();
      return true, out;
    }
  }

  lemma NothingRendered()
    ensures Rendered([]) == []
  {
  }

  lemma OneRendered(seg: Segment)
    ensures Rendered([seg]) == Render(seg)
  {
    hide Render;
    assert [seg][..0] == [];
  }

  /** A whole stream, with the final flush of what is still pending. */
  method TranslateStream(input: seq<byte>) returns (out: seq<byte>)
    ensures out == Rendered(Segments(input).segments) + Segments(input).pending
    ensures (forall k :: 0 <= k < |Segments(input).segments| ==> KeyOf(Segments(input).segments[k]).None?) ==> out == input
  {
    hide Segments, Rendered, Advance, OpenSequence;
    var st := new Utf8State();
    out := [];
    EmptyCut();
    var i := 0;
    while i < |input|
      invariant 0 <= i <= |input| && st.Valid() && fresh(st) && fresh(st.bytes)
      invariant st.Pending() == Segments(input[..i]).pending
      invariant out == Rendered(Segments(input[..i]).segments)
    {
      ghost var p := st.Pending();
      assert input[..i + 1] == input[..i] + [input[i]];
      OneMoreByte(input[..i], input[i]);
      AdvanceIsCut(p, input[i]);
      RenderedOfTwo(Segments(input[..i]).segments, Advance(p, input[i]).segments);
      var ready, bytes := st.TranslateByte(input[i]);
      if ready {
        out := out + bytes;
      }
      i := i + 1;
    }
    assert input[..i] == input;
    if st.have > 0 {
      out := out + st.bytes[..st.have];
    }
    CutConserves(input);
    if forall k :: 0 <= k < |Segments(input).segments| ==> KeyOf(Segments(input).segments[k]).None? {
      UnmappedIsIdentity(Segments(input).segments);
    }
  }

  lemma EmptyCut()
    ensures Segments([]) == Cut([], []) && Rendered([]) == []
  {
  }
}
