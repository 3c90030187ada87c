/** base64: the wrapped encoder and the whitespace-tolerant decoder (src/base64_app.c). */
module Base64 {
  import opened Lines

  type byte = x: int | 0 <= x < 256

  /** The value of a six-bit group. */
  type sextet = x: int | 0 <= x < 64

  /** `n` characters in code order from `first`. */
  function Range(first: char, n: nat): (s: string)
    requires first as int + n < 128
    ensures |s| == n && forall k :: 0 <= k < n ==> s[k] == first + k as char
  {
    seq(n, k requires 0 <= k < n => first + k as char)
  }

  /** "ABC...Zabc...z0123456789+/" */
  const ALPHABET: string := Range('A', 26) + Range('a', 26) + Range('0', 10) + "+/"

  /** The alphabet of Table 1 of RFC 4648: the capitals, the small letters and the
      digits, each in code order, then + and /. */
  lemma AlphabetIs(v: sextet)
    ensures |ALPHABET| == 64
    ensures v < 26 ==> ALPHABET[v] as int == 'A' as int + v
    ensures 26 <= v < 52 ==> ALPHABET[v] as int == 'a' as int + v - 26
    ensures 52 <= v < 62 ==> ALPHABET[v] as int == '0' as int + v - 52
    ensures ALPHABET[25] == 'Z' && ALPHABET[51] == 'z' && ALPHABET[61] == '9'
    ensures ALPHABET[62] == '+' && ALPHABET[63] == '/'
  {
    assert ALPHABET[25] as int == 'Z' as int && ALPHABET[51] as int == 'z' as int && ALPHABET[61] as int == '9' as int;
  }

  // ---------- characters ----------

  /** -1 for a character that is not in the alphabet. */
  function DecodeChar(c: char): (v: int)
    ensures -1 <= v < 64
  {
    if 'A' <= c <= 'Z' then c as int - 'A' as int
    else if 'a' <= c <= 'z' then c as int - 'a' as int + 26
    else if '0' <= c <= '9' then c as int - '0' as int + 52
    else if c == '+' then 62
    else if c == '/' then 63
    else -1
  }

  function Symbol(v: sextet): (c: char)
    ensures DecodeChar(c) == v
  {
    ALPHABET[v]
  }

  /** The decoder's table is the alphabet: it gives a value to just that value's symbol. */
  lemma DecodeCharIff(c: char, v: sextet)
    ensures DecodeChar(c) == v <==> c == Symbol(v)
  {
    if DecodeChar(c) == v {
      SameValue(c, Symbol(v));
    }
  }

  lemma SameValue(c: char, d: char)
    requires DecodeChar(c) == DecodeChar(d) >= 0
    ensures c == d
  {
  }

  predicate IsWhitespace(c: char) {
    c == '\n' || c == '\r' || c == ' ' || c == '\t'
  }

  // ---------- encoding ----------

  /** The four characters for one, two or three bytes; missing bytes count as zero. */
  function EncodeGroup(g: seq<byte>): (s: string)
    requires 1 <= |g| <= 3
    ensures |s| == 4
  {
    var b0, b1, b2 := g[0], if |g| > 1 then g[1] else 0, if |g| > 2 then g[2] else 0;
    [Symbol(b0 / 4), Symbol(b0 % 4 * 16 + b1 / 16),
     if |g| > 1 then Symbol(b1 % 16 * 4 + b2 / 64) else '=',
     if |g| > 2 then Symbol(b2 % 64) else '=']
  }

  function GroupSize(data: seq<byte>): nat {
    if |data| < 3 then |data| else 3
  }

  function Symbols(data: seq<byte>): string {
    if data == [] then "" else EncodeGroup(data[..GroupSize(data)]) + Symbols(data[GroupSize(data)..])
  }

  lemma {:induction false} SymbolsLength(data: seq<byte>)
    ensures |Symbols(data)| == (|data| + 2) / 3 * 4
  {
    hide EncodeGroup;
    if data != [] {
      SymbolsLength(data[GroupSize(data)..]);
    }
  }

  /** The output for `s` when `col` characters are already on the line: a newline
      whenever the column reaches `w`, and one at the end of an unfinished line. */
  function WrapFrom(s: string, col: nat, w: int): string {
    if s == [] then (if w > 0 && col != 0 then "\n" else "")
    else if w > 0 && col + 1 == w then [s[0], '\n'] + WrapFrom(s[1..], 0, w)
    else [s[0]] + WrapFrom(s[1..], col + 1, w)
  }

  /** Lines of exactly `w` characters, the last one possibly shorter. */
  function Chunks(s: string, w: nat): seq<string>
    requires w > 0
    decreases |s|
  {
    if s == [] then [] else if |s| <= w then [s] else [s[..w]] + Chunks(s[w..], w)
  }

  function Concat(lines: seq<string>): string {
    if lines == [] then "" else lines[0] + Concat(lines[1..])
  }

  lemma ChunksStep(s: string, w: nat)
    requires 0 < w < |s|
    ensures Chunks(s, w) == [s[..w]] + Chunks(s[w..], w) && Concat(Chunks(s, w)) == s[..w] + Concat(Chunks(s[w..], w))
    ensures Chunks(s[w..], w) != []
  {
    assert ([s[..w]] + Chunks(s[w..], w))[1..] == Chunks(s[w..], w);
  }

  lemma LastChunk(s: string, w: nat)
    requires w > 0 && |s| <= w
    ensures Chunks(s, w) == (if s == [] then [] else [s]) && Concat(Chunks(s, w)) == s
  {
    assert Concat([s]) == s + Concat([]);
  }

  lemma {:induction false} ChunksShape(s: string, w: nat)
    requires w > 0
    ensures Concat(Chunks(s, w)) == s
    ensures var c := Chunks(s, w);
            && (forall k :: 0 <= k < |c| - 1 ==> |c[k]| == w)
            && (c != [] ==> 0 < |c[|c| - 1]| <= w)
    decreases |s|
  {
    hide Chunks, Concat;
    if |s| <= w {
      LastChunk(s, w);
    } else {
      ChunksShape(s[w..], w);
      ChunksStep(s, w);
      var rest := Chunks(s[w..], w);
      assert forall k :: 0 < k <= |rest| ==> ([s[..w]] + rest)[k] == rest[k - 1];
      assert s[..w] + s[w..] == s;
    }
  }

  /** Finishing a line that already holds `col` characters. */
  lemma {:induction false} WrapLine(s: string, col: nat, w: nat)
    requires col < w
    ensures if s == [] then WrapFrom(s, col, w) == if col == 0 then "" else "\n"
            else if |s| < w - col then WrapFrom(s, col, w) == s + "\n"
            else WrapFrom(s, col, w) == s[..w - col] + "\n" + WrapFrom(s[w - col..], 0, w)
    decreases |s|
  {
    if s != [] {
      assert s == [s[0]] + s[1..];
      if col + 1 < w {
        WrapLine(s[1..], col + 1, w);
        if |s| >= w - col {
          assert s[1..][..w - col - 1] == s[1..w - col] && s[1..][w - col - 1..] == s[w - col..];
          assert s[..w - col] == [s[0]] + s[1..w - col];
        }
      } else {
        assert s[..1] == [s[0]];
      }
    }
  }

  /** With a positive wrap column the output is the lines of Chunks; otherwise it
      is the symbols and nothing else. */
  lemma {:induction false} WrapIsLines(s: string, w: int)
    ensures WrapFrom(s, 0, w) == if w > 0 then Unlines(Chunks(s, w)) else s
    decreases |s|
  {
    if w <= 0 {
      NoWrap(s, 0, w);
    } else if s != [] {
      WrapLine(s, 0, w);
      if |s| <= w {
        assert s[..|s|] == s && s[|s|..] == [];
        assert Unlines([s]) == s + "\n" + Unlines([]);
      } else {
        WrapIsLines(s[w..], w);
        assert Unlines(Chunks(s, w)) == s[..w] + "\n" + Unlines(Chunks(s[w..], w)) by {
          assert Chunks(s, w)[1..] == Chunks(s[w..], w);
        }
      }
    }
  }

  lemma {:induction false} NoWrap(s: string, col: nat, w: int)
    requires w <= 0
    ensures WrapFrom(s, col, w) == s
  {
    if s != [] {
      NoWrap(s[1..], col + 1, w);
    }
  }

  // ---------- decoding ----------

  /** The bytes written, and the exit status. */
  datatype Decoded = Decoded(out: seq<byte>, status: int)

  predicate Six(x: int) {
    0 <= x < 64
  }

  function Byte0(x: int, y: int): byte
    requires Six(x) && Six(y)
  {
    x * 4 + y / 16
  }

  function Byte1(y: int, z: int): byte
    requires Six(y) && Six(z)
  {
    y % 16 * 16 + z / 4
  }

  function Byte2(z: int, u: int): byte
    requires Six(z) && Six(u)
  {
    z % 4 * 64 + u
  }

  function Triple(v: seq<sextet>): seq<byte>
    requires |v| == 4
  {
    [Byte0(v[0], v[1]), Byte1(v[1], v[2]), Byte2(v[2], v[3])]
  }

  /** What is left over when the input or its payload ends. */
  function Finish(v: seq<sextet>): Decoded
    requires |v| < 4
  {
    if |v| == 2 then Decoded([Byte0(v[0], v[1])], 0)
    else if |v| == 3 then Decoded([Byte0(v[0], v[1]), Byte1(v[1], v[2])], 0)
    else if |v| == 1 then Decoded([], 1)
    else Decoded([], 0)
  }

  /** Decodes the rest of the input when `v` holds the values of an unfinished group. */
  function DecodeFrom(s: string, v: seq<sextet>, ignoreGarbage: bool): Decoded
    requires |v| < 4
  {
    if s == [] || s[0] == '=' then Finish(v)
    else if IsWhitespace(s[0]) then DecodeFrom(s[1..], v, ignoreGarbage)
    else if DecodeChar(s[0]) < 0 then
      if ignoreGarbage then DecodeFrom(s[1..], v, ignoreGarbage) else Decoded([], 1)
    else
      var v' := v + [DecodeChar(s[0])];
      if |v'| < 4 then DecodeFrom(s[1..], v', ignoreGarbage)
      else
        var rest := DecodeFrom(s[1..], [], ignoreGarbage);
        Decoded(Triple(v') + rest.out, rest.status)
  }

  function Strip(s: string): string {
    if s == [] then "" else (if IsWhitespace(s[0]) then "" else [s[0]]) + Strip(s[1..])
  }

  /** Whitespace anywhere makes no difference to the decoder. */
  lemma {:induction false} WhitespaceIgnored(s: string, v: seq<sextet>, ignoreGarbage: bool)
    requires |v| < 4
    ensures DecodeFrom(Strip(s), v, ignoreGarbage) == DecodeFrom(s, v, ignoreGarbage)
    decreases |s|
  {
    if s != [] {
      var t := Strip(s[1..]);
      if IsWhitespace(s[0]) {
        assert Strip(s) == t;
        WhitespaceIgnored(s[1..], v, ignoreGarbage);
      } else {
        assert Strip(s) == [s[0]] + t && ([s[0]] + t)[1..] == t;
        if s[0] != '=' {
          WhitespaceIgnored(s[1..], v, ignoreGarbage);
          if DecodeChar(s[0]) >= 0 {
            WhitespaceIgnored(s[1..], if |v| == 3 then [] else v + [DecodeChar(s[0])], ignoreGarbage);
          }
        }
      }
    }
  }

  lemma StripStep(c: char, t: string)
    ensures Strip([c] + t) == if IsWhitespace(c) then Strip(t) else [c] + Strip(t)
  {
    assert ([c] + t)[1..] == t;
  }

  lemma {:induction false} StripWrapped(s: string, col: nat, w: int)
    requires forall k :: 0 <= k < |s| ==> !IsWhitespace(s[k])
    ensures Strip(WrapFrom(s, col, w)) == s
  {
    hide Strip;
    if s == [] {
      StripStep('\n', []);
      NothingToStrip();
      assert "\n" == ['\n'] + [];
    } else if w > 0 && col + 1 == w {
      var t := WrapFrom(s[1..], 0, w);
      StripWrapped(s[1..], 0, w);
      StripStep('\n', t);
      StripStep(s[0], ['\n'] + t);
      assert [s[0], '\n'] + t == [s[0]] + (['\n'] + t);
    } else {
      StripWrapped(s[1..], col + 1, w);
      StripStep(s[0], WrapFrom(s[1..], col + 1, w));
    }
  }

  lemma NothingToStrip()
    ensures Strip("") == ""
  {
  }

  // ---------- round trip ----------

  predicate InAlphabet(c: char) {
    DecodeChar(c) >= 0
  }

  lemma GroupIsClean(g: seq<byte>)
    requires 1 <= |g| <= 3
    ensures forall k :: 0 <= k < 4 ==> !IsWhitespace(EncodeGroup(g)[k])
  {
    hide Symbol;
  }

  lemma {:induction false} SymbolsAreClean(data: seq<byte>)
    ensures forall k :: 0 <= k < |Symbols(data)| ==> !IsWhitespace(Symbols(data)[k])
  {
    if data != [] {
      var c, rest := EncodeGroup(data[..GroupSize(data)]), Symbols(data[GroupSize(data)..]);
      SymbolsAreClean(data[GroupSize(data)..]);
      GroupIsClean(data[..GroupSize(data)]);
      hide EncodeGroup;
      assert Symbols(data) == c + rest;
    }
  }

  function Value(c: char): sextet
    requires InAlphabet(c)
  {
    DecodeChar(c)
  }

  /** One alphabet character joins the unfinished group or completes it. */
  lemma DecodeSymbol(s: string, v: seq<sextet>, ignoreGarbage: bool)
    requires s != [] && InAlphabet(s[0]) && |v| < 4
    ensures var v' := v + [Value(s[0])];
            var r := DecodeFrom(s[1..], [], ignoreGarbage);
            DecodeFrom(s, v, ignoreGarbage) ==
            if |v| < 3 then DecodeFrom(s[1..], v', ignoreGarbage) else Decoded(Triple(v') + r.out, r.status)
  {
    assert !IsWhitespace(s[0]) && s[0] != '=';
  }

  /** Every other kind of character. */
  lemma DecodeOther(s: string, v: seq<sextet>, ignoreGarbage: bool)
    requires |v| < 4
    ensures s == [] || s[0] == '=' ==> DecodeFrom(s, v, ignoreGarbage) == Finish(v)
    ensures s != [] && s[0] != '=' && !InAlphabet(s[0]) ==>
              DecodeFrom(s, v, ignoreGarbage) ==
              if IsWhitespace(s[0]) || ignoreGarbage then DecodeFrom(s[1..], v, ignoreGarbage) else Decoded([], 1)
  {
  }

  /** Four alphabet characters are one group of three bytes. */
  lemma DecodeFour(c: string, rest: string, ignoreGarbage: bool)
    requires |c| == 4 && forall k :: 0 <= k < 4 ==> InAlphabet(c[k])
    ensures var v := [Value(c[0]), Value(c[1]), Value(c[2]), Value(c[3])];
            var r := DecodeFrom(rest, [], ignoreGarbage);
            DecodeFrom(c + rest, [], ignoreGarbage) == Decoded(Triple(v) + r.out, r.status)
  {
    hide DecodeFrom, Triple, DecodeChar;
    var s0, s1, s2, s3 := c + rest, c[1..] + rest, c[2..] + rest, c[3..] + rest;
    assert s0[1..] == s1 && s1[1..] == s2 && s2[1..] == s3 && s3[1..] == rest;
    var v1, v2, v3 := [Value(c[0])], [Value(c[0]), Value(c[1])], [Value(c[0]), Value(c[1]), Value(c[2])];
    DecodeSymbol(s0, [], ignoreGarbage);
    assert [] + [Value(s0[0])] == v1;
    DecodeSymbol(s1, v1, ignoreGarbage);
    assert v1 + [Value(s1[0])] == v2;
    DecodeSymbol(s2, v2, ignoreGarbage);
    assert v2 + [Value(s2[0])] == v3;
    DecodeSymbol(s3, v3, ignoreGarbage);
    assert v3 + [Value(s3[0])] == v3 + [Value(c[3])] == [Value(c[0]), Value(c[1]), Value(c[2]), Value(c[3])];
  }

  lemma DecodePadding(s: string, v: seq<sextet>, ignoreGarbage: bool)
    requires s != [] && s[0] == '=' && |v| < 4
    ensures DecodeFrom(s, v, ignoreGarbage) == Finish(v)
  {
  }

  /** Cutting 24 bits into sextets and putting them together again. */
  lemma SextetsOfBytes(b0: byte, b1: byte, b2: byte)
    ensures var x, y, z, u := b0 / 4, b0 % 4 * 16 + b1 / 16, b1 % 16 * 4 + b2 / 64, b2 % 64;
            && Six(x) && Six(y) && Six(z) && Six(u)
            && Byte0(x, y) == b0 && Byte1(y, z) == b1 && Byte2(z, u) == b2
  {
  }

  lemma GroupPadded(g: seq<byte>)
    requires 1 <= |g| <= 2
    ensures var c := EncodeGroup(g);
            && InAlphabet(c[0]) && InAlphabet(c[1]) && c[3] == '='
            && (|g| == 1 ==> c[2] == '=' && Finish([Value(c[0]), Value(c[1])]) == Decoded(g, 0))
            && (|g| == 2 ==> InAlphabet(c[2]) && Finish([Value(c[0]), Value(c[1]), Value(c[2])]) == Decoded(g, 0))
  {
    hide Symbol, DecodeChar, Byte0, Byte1, Byte2;
    SextetsOfBytes(g[0], if |g| > 1 then g[1] else 0, 0);
    assert g == if |g| == 1 then [g[0]] else [g[0], g[1]];
  }

  /** A padded group ends the payload and gives back its one or two bytes. */
  lemma DecodePadded(g: seq<byte>, ignoreGarbage: bool)
    requires 1 <= |g| <= 2
    ensures DecodeFrom(EncodeGroup(g), [], ignoreGarbage) == Decoded(g, 0)
  {
    GroupPadded(g);
    hide DecodeFrom, EncodeGroup, Finish, DecodeChar;
    var c := EncodeGroup(g);
    assert c[1..][1..] == c[2..] && c[2..][1..] == c[3..];
    DecodeSymbol(c, [], ignoreGarbage);
    assert [] + [Value(c[0])] == [Value(c[0])];
    DecodeSymbol(c[1..], [Value(c[0])], ignoreGarbage);
    var v2 := [Value(c[0])] + [Value(c[1])];
    assert v2 == [Value(c[0]), Value(c[1])];
    if |g| == 2 {
      DecodeSymbol(c[2..], v2, ignoreGarbage);
      assert v2 + [Value(c[2])] == [Value(c[0]), Value(c[1]), Value(c[2])];
      DecodePadding(c[3..], v2 + [Value(c[2])], ignoreGarbage);
    } else {
      DecodePadding(c[2..], v2, ignoreGarbage);
    }
  }

  lemma GroupSurvives(g: seq<byte>)
    requires |g| == 3
    ensures var c := EncodeGroup(g);
            && (forall k :: 0 <= k < 4 ==> InAlphabet(c[k]))
            && Triple([Value(c[0]), Value(c[1]), Value(c[2]), Value(c[3])]) == g
  {
    hide Symbol, DecodeChar, Byte0, Byte1, Byte2;
    SextetsOfBytes(g[0], g[1], g[2]);
    assert g == [g[0], g[1], g[2]];
  }

  lemma {:induction false} SymbolsDecode(data: seq<byte>, ignoreGarbage: bool)
    ensures DecodeFrom(Symbols(data), [], ignoreGarbage) == Decoded(data, 0)
    decreases |data|
  {
    if |data| >= 3 {
      var g, rest := data[..3], data[3..];
      SymbolsDecode(rest, ignoreGarbage);
      GroupSurvives(g);
      DecodeFour(EncodeGroup(g), Symbols(rest), ignoreGarbage);
      assert g + rest == data;
    } else if data != [] {
      DecodePadded(data, ignoreGarbage);
      assert data[..|data|] == data && data[|data|..] == [];
      assert EncodeGroup(data) + "" == EncodeGroup(data);
    }
  }

  function Encoded(data: seq<byte>, w: int): string {
    WrapFrom(Symbols(data), 0, w)
  }

  /** Decoding what the encoder wrote gives the input back, for every wrap column
      and with or without ignoring garbage. */
  lemma DecodeUndoesEncode(data: seq<byte>, w: int, ignoreGarbage: bool)
    ensures DecodeFrom(Encoded(data, w), [], ignoreGarbage) == Decoded(data, 0)
  {
    SymbolsAreClean(data);
    StripWrapped(Symbols(data), 0, w);
    WhitespaceIgnored(Encoded(data, w), [], ignoreGarbage);
    SymbolsDecode(data, ignoreGarbage);
  }

  /** The shape of the output: four symbols for every three bytes begun, on lines
      of exactly `w` characters but for a shorter last one that is not empty. */
  lemma EncodedShape(data: seq<byte>, w: int)
    ensures |Symbols(data)| == (|data| + 2) / 3 * 4
    ensures w <= 0 ==> Encoded(data, w) == Symbols(data)
    ensures w > 0 ==>
              var lines := Chunks(Symbols(data), w);
              && Encoded(data, w) == Unlines(lines) && Concat(lines) == Symbols(data)
              && (forall k :: 0 <= k < |lines| - 1 ==> |lines[k]| == w)
              && (lines != [] ==> 0 < |lines[|lines| - 1]| <= w)
  {
    SymbolsLength(data);
    WrapIsLines(Symbols(data), w);
    if w > 0 {
      ChunksShape(Symbols(data), w);
    }
  }

  // ---------- what the decoder accepts ----------

  /** The characters before the padding, without whitespace. */
  function Payload(s: string): string {
    if s == [] || s[0] == '=' then ""
    else (if IsWhitespace(s[0]) then "" else [s[0]]) + Payload(s[1..])
  }

  function SymbolCount(s: string): nat {
    if s == [] then 0 else (if InAlphabet(s[0]) then 1 else 0) + SymbolCount(s[1..])
  }

  /** The decoder fails exactly on a stray character that it was not told to
      ignore, or when one symbol is left over. */
  lemma {:induction false} DecoderAccepts(s: string, v: seq<sextet>, ignoreGarbage: bool)
    requires |v| < 4
    ensures DecodeFrom(s, v, ignoreGarbage).status == 0 <==>
            && (ignoreGarbage || SymbolCount(Payload(s)) == |Payload(s)|)
            && (|v| + SymbolCount(Payload(s))) % 4 != 1
    decreases |s|
  {
    DecodeOther(s, v, ignoreGarbage);
    PayloadOfTail(s);
    if s == [] || s[0] == '=' {
      return;
    }
    hide Triple, DecodeChar, DecodeFrom, Payload, SymbolCount;
    if InAlphabet(s[0]) {
      DecodeSymbol(s, v, ignoreGarbage);
      DecoderAccepts(s[1..], if |v| == 3 then [] else v + [Value(s[0])], ignoreGarbage);
    } else {
      DecoderAccepts(s[1..], v, ignoreGarbage);
    }
  }

  /** What the first character adds to the payload's length and symbol count. */
  lemma PayloadOfTail(s: string)
    ensures s == [] || s[0] == '=' ==> |Payload(s)| == 0 == SymbolCount(Payload(s))
    ensures s != [] && s[0] != '=' ==>
              && |Payload(s)| == |Payload(s[1..])| + (if IsWhitespace(s[0]) then 0 else 1)
              && SymbolCount(Payload(s)) == SymbolCount(Payload(s[1..])) + (if InAlphabet(s[0]) then 1 else 0)
              && SymbolCount(Payload(s[1..])) <= |Payload(s[1..])|
  {
    if s != [] && s[0] != '=' {
      var t := Payload(s[1..]);
      SymbolCountBound(t);
      WhitespaceIsNoSymbol(s[0]);
      assert ([s[0]] + t)[1..] == t && [] + t == t;
    }
  }

  lemma WhitespaceIsNoSymbol(c: char)
    ensures !(IsWhitespace(c) && InAlphabet(c))
  {
  }

  lemma {:induction false} SymbolCountBound(s: string)
    ensures SymbolCount(s) <= |s|
  {
    if s != [] {
      SymbolCountBound(s[1..]);
    }
  }

  // ---------- the code ----------

  method Encode(data: seq<byte>, wrapCol: int) returns (out: string)
    ensures out == Encoded(data, wrapCol)
  {
    hide EncodeGroup, WrapFrom;
    out := "";
    var col: nat, pos := 0, 0;
    assert data[0..] == data;
    while pos < |data|
      invariant 0 <= pos <= |data|
      invariant out + WrapFrom(Symbols(data[pos..]), col, wrapCol) == Encoded(data, wrapCol)
    {
      var n := GroupSize(data[pos..]);
      var out4 := EncodeGroup(data[pos..pos + n]);
      assert data[pos..][..n] == data[pos..pos + n] && data[pos..][n..] == data[pos + n..];
      out, col := PutGroup(out, col, out4, wrapCol, Symbols(data[pos + n..]));
      pos := pos + n;
    }
    WrapEnd(out, col, wrapCol);
    if wrapCol > 0 && col != 0 {
      out := out + "\n";
    }
  }

  /** Writes the four characters of a group, breaking lines on the way. */
  method PutGroup(out0: string, col0: nat, out4: string, wrapCol: int, ghost rest: string) returns (out: string, col: nat)
    requires |out4| == 4
    ensures out + WrapFrom(rest, col, wrapCol) == out0 + WrapFrom(out4 + rest, col0, wrapCol)
  {
    hide WrapFrom;
    out, col := out0, col0;
    var i := 0;
    assert out4[0..] + rest == out4 + rest;
    while i < 4
      invariant 0 <= i <= 4
      invariant out + WrapFrom(out4[i..] + rest, col, wrapCol) == out0 + WrapFrom(out4 + rest, col0, wrapCol)
    {
      WrapOne(out, out4[i..] + rest, col, wrapCol);
      assert (out4[i..] + rest)[1..] == out4[i + 1..] + rest;
      out := out + [out4[i]];
      col := col + 1;
      if wrapCol > 0 && col == wrapCol {
        out := out + "\n";
        col := 0;
      }
      i := i + 1;
    }
    assert out4[4..] + rest == rest;
  }

  lemma WrapEnd(out: string, col: nat, w: int)
    ensures out + WrapFrom("", col, w) == if w > 0 && col != 0 then out + "\n" else out
  {
  }

  lemma WrapOne(out: string, s: string, col: nat, w: int)
    requires s != []
    ensures out + WrapFrom(s, col, w) ==
            if w > 0 && col + 1 == w then out + [s[0]] + "\n" + WrapFrom(s[1..], 0, w)
            else out + [s[0]] + WrapFrom(s[1..], col + 1, w)
  {
  }

  method Decode(input: string, ignoreGarbage: bool) returns (result: Decoded)
    ensures result == DecodeFrom(input, [], ignoreGarbage)
    ensures forall data, w :: input == Encoded(data, w) ==> result == Decoded(data, 0)
  {
    forall data, w | input == Encoded(data, w)
      ensures DecodeFrom(input, [], ignoreGarbage) == Decoded(data, 0)
    {
      DecodeUndoesEncode(data, w, ignoreGarbage);
    }
    hide Triple, Finish, DecodeChar, DecodeFrom;
    var out: seq<byte>, vals: seq<sextet>, pos := [], [], 0;
    assert input[0..] == input;
    while pos < |input| && input[pos] != '='
      invariant 0 <= pos <= |input| && |vals| < 4
      invariant var r := DecodeFrom(input[pos..], vals, ignoreGarbage);
                DecodeFrom(input, [], ignoreGarbage) == Decoded(out + r.out, r.status)
    {
      var c := input[pos];
      assert input[pos..][1..] == input[pos + 1..];
      DecodeOther(input[pos..], vals, ignoreGarbage);
      WhitespaceIsNoSymbol(c);
      if InAlphabet(c) {
        DecodeSymbol(input[pos..], vals, ignoreGarbage);
      }
      pos := pos + 1;
      if IsWhitespace(c) {
        continue;
      }
      var v := DecodeChar(c);
      if v < 0 {
        if ignoreGarbage {
          continue;
        }
        return Decoded(out, 1);
      }
      vals := vals + [v];
      if |vals| == 4 {
        out := out + Triple(vals);
        vals := [];
      }
    }
    DecodeOther(input[pos..], vals, ignoreGarbage);
    // whatever follows the padding is read and dropped
    var last := Finish(vals);
    result := Decoded(out + last.out, last.status);
  }
}
