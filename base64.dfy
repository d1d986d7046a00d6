/**
 * The standard base 64 encoding of section 4 of RFC 4648 (alphabet
 * A-Z a-z 0-9 + /, padding with '='), which Go's `base64.StdEncoding`
 * implements, together with the UTF-8 bytes of a string, which is what
 * `[]byte(s)` gives in Go. The decoder is the encoder's partner: it is not
 * called by the client, it shows that the encoding loses nothing.
 */
module Base64 {
  import opened Wrappers

  type byte = b: int | 0 <= b < 256
  type sextet = d: int | 0 <= d < 64

  const PadChar: char := '='

  /** The character of the standard alphabet that stands for `d`. */
  function Symbol(d: sextet): char {
    if d < 26 then ('A' as int + d) as char
    else if d < 52 then ('a' as int + (d - 26)) as char
    else if d < 62 then ('0' as int + (d - 52)) as char
    else if d == 62 then '+'
    else '/'
  }

  predicate IsSymbol(c: char) {
    ('A' <= c <= 'Z') || ('a' <= c <= 'z') || ('0' <= c <= '9') || c == '+' || c == '/'
  }

  /** The value a character of the alphabet stands for; None for any other character. */
  function SymbolValue(c: char): (v: Option<sextet>)
    ensures v.Some? <==> IsSymbol(c)
  {
    if 'A' <= c <= 'Z' then Some(c as int - 'A' as int)
    else if 'a' <= c <= 'z' then Some(c as int - 'a' as int + 26)
    else if '0' <= c <= '9' then Some(c as int - '0' as int + 52)
    else if c == '+' then Some(62)
    else if c == '/' then Some(63)
    else None
  }

  lemma SymbolRoundTrip(d: sextet)
    ensures IsSymbol(Symbol(d)) && SymbolValue(Symbol(d)) == Some(d)
  {
  }

  /** Encoding: every three bytes become four symbols; a short tail is padded with '='. */
  function Encode(b: seq<byte>): (s: string)
    ensures |s| == 4 * ((|b| + 2) / 3)
  {
    if |b| == 0 then ""
    else if |b| == 1 then EncodeOne(b[0])
    else if |b| == 2 then EncodeTwo(b[0], b[1])
    else EncodeThree(b[0], b[1], b[2]) + Encode(b[3..])
  }

  function EncodeOne(b0: byte): (s: string)
    ensures |s| == 4 && forall i :: 0 <= i < 4 ==> IsSymbol(s[i]) || s[i] == PadChar
  {
    SymbolRoundTrip(b0 / 4);
    SymbolRoundTrip((b0 % 4) * 16);
    [Symbol(b0 / 4), Symbol((b0 % 4) * 16), PadChar, PadChar]
  }

  function EncodeTwo(b0: byte, b1: byte): (s: string)
    ensures |s| == 4 && forall i :: 0 <= i < 4 ==> IsSymbol(s[i]) || s[i] == PadChar
  {
    SymbolRoundTrip(b0 / 4);
    SymbolRoundTrip((b0 % 4) * 16 + b1 / 16);
    SymbolRoundTrip((b1 % 16) * 4);
    [Symbol(b0 / 4), Symbol((b0 % 4) * 16 + b1 / 16), Symbol((b1 % 16) * 4), PadChar]
  }

  function EncodeThree(b0: byte, b1: byte, b2: byte): (s: string)
    ensures |s| == 4 && forall i :: 0 <= i < 4 ==> IsSymbol(s[i])
  {
    SymbolRoundTrip(b0 / 4);
    SymbolRoundTrip((b0 % 4) * 16 + b1 / 16);
    SymbolRoundTrip((b1 % 16) * 4 + b2 / 64);
    SymbolRoundTrip(b2 % 64);
    [Symbol(b0 / 4), Symbol((b0 % 4) * 16 + b1 / 16), Symbol((b1 % 16) * 4 + b2 / 64), Symbol(b2 % 64)]
  }

  /** An encoding holds only alphabet symbols and padding; in particular no ',', '&' or '"'. */
  lemma {:induction false} EncodeAlphabet(b: seq<byte>)
    ensures forall i :: 0 <= i < |Encode(b)| ==> IsSymbol(Encode(b)[i]) || Encode(b)[i] == PadChar
  {
    if |b| >= 3 {
      EncodeAlphabet(b[3..]);
      var g, rest := EncodeThree(b[0], b[1], b[2]), Encode(b[3..]);
      assert Encode(b) == g + rest;
      forall i | 0 <= i < |g + rest|
        ensures IsSymbol((g + rest)[i]) || (g + rest)[i] == PadChar
      {
        if i >= 4 {
          assert (g + rest)[i] == rest[i - 4];
        }
      }
    }
  }

  /** The bytes of one group of four characters, the last group possibly padded. */
  function DecodeGroup(g: string, last: bool): Option<seq<byte>>
    requires |g| == 4
  {
    var v0, v1 := SymbolValue(g[0]), SymbolValue(g[1]);
    if v0.None? || v1.None? then None
    else if last && g[2] == PadChar && g[3] == PadChar then
      Some([v0.value * 4 + v1.value / 16])
    else
      var v2 := SymbolValue(g[2]);
      if v2.None? then None
      else if last && g[3] == PadChar then
        Some([v0.value * 4 + v1.value / 16, (v1.value % 16) * 16 + v2.value / 4])
      else
        var v3 := SymbolValue(g[3]);
        if v3.None? then None
        else Some([v0.value * 4 + v1.value / 16, (v1.value % 16) * 16 + v2.value / 4,
                   (v2.value % 4) * 64 + v3.value])
  }

  /** Decoding of padded standard base 64; None when the text is not such an encoding. */
  function Decode(s: string): Option<seq<byte>> {
    if |s| == 0 then Some([])
    else if |s| < 4 then None
    else
      var g := DecodeGroup(s[..4], |s| == 4);
      if g.None? then None
      else
        var rest := Decode(s[4..]);
        if rest.None? then None else Some(g.value + rest.value)
  }

  /** Decoding an encoding gives the bytes back, so the encoding is injective. */
  lemma {:induction false} DecodeEncode(b: seq<byte>)
    ensures Decode(Encode(b)) == Some(b)
  {
    if |b| == 0 {
    } else if |b| < 3 {
      DecodeEncodeTail(b);
    } else {
      DecodeEncode(b[3..]);
      DecodeEncodeStep(b);
    }
  }

  /** One full group in front of a tail that already decodes back. */
  lemma DecodeEncodeStep(b: seq<byte>)
    requires |b| >= 3
    requires Decode(Encode(b[3..])) == Some(b[3..])
    ensures Decode(Encode(b)) == Some(b)
  {
    var g := EncodeThree(b[0], b[1], b[2]);
    var rest := Encode(b[3..]);
    assert Encode(b) == g + rest;
    GroupOfThree(b[0], b[1], b[2], rest == []);
    DecodeAppend(g, rest, [b[0], b[1], b[2]], b[3..]);
    calc {
      Decode(Encode(b));
      Decode(g + rest);
      Some([b[0], b[1], b[2]] + b[3..]);
      { FirstThree(b); }
      Some(b);
    }
  }

  /** The padded last group: one or two bytes. */
  lemma DecodeEncodeTail(b: seq<byte>)
    requires 1 <= |b| <= 2
    ensures Decode(Encode(b)) == Some(b)
  {
    if |b| == 1 {
      DecodeEncodeOne(b[0]);
      assert b == [b[0]];
    } else {
      DecodeEncodeTwo(b[0], b[1]);
      assert b == [b[0], b[1]];
    }
  }

  lemma DecodeEncodeOne(b0: byte)
    ensures Decode(EncodeOne(b0)) == Some([b0])
  {
    GroupOfOne(b0);
    assert EncodeOne(b0) + "" == EncodeOne(b0);
    DecodeAppend(EncodeOne(b0), "", [b0], []);
    assert [b0] + [] == [b0];
  }

  lemma DecodeEncodeTwo(b0: byte, b1: byte)
    ensures Decode(EncodeTwo(b0, b1)) == Some([b0, b1])
  {
    GroupOfTwo(b0, b1);
    assert EncodeTwo(b0, b1) + "" == EncodeTwo(b0, b1);
    DecodeAppend(EncodeTwo(b0, b1), "", [b0, b1], []);
    assert [b0, b1] + [] == [b0, b1];
  }

  lemma FirstThree<T>(b: seq<T>)
    requires |b| >= 3
    ensures [b[0], b[1], b[2]] + b[3..] == b
  {
    assert b[..3] == [b[0], b[1], b[2]];
    assert b[..3] + b[3..] == b;
  }

  lemma DecodeAppend(g: string, rest: string, v: seq<byte>, w: seq<byte>)
    requires |g| == 4
    requires DecodeGroup(g, rest == []) == Some(v) && Decode(rest) == Some(w)
    ensures Decode(g + rest) == Some(v + w)
  {
    var s := g + rest;
    assert s[..4] == g && s[4..] == rest;
  }

  lemma GroupOfOne(b0: byte)
    ensures DecodeGroup(EncodeOne(b0), true) == Some([b0])
  {
    SymbolRoundTrip(b0 / 4);
    SymbolRoundTrip((b0 % 4) * 16);
  }

  lemma GroupOfTwo(b0: byte, b1: byte)
    ensures DecodeGroup(EncodeTwo(b0, b1), true) == Some([b0, b1])
  {
    SymbolRoundTrip(b0 / 4);
    SymbolRoundTrip((b0 % 4) * 16 + b1 / 16);
    SymbolRoundTrip((b1 % 16) * 4);
  }

  lemma GroupOfThree(b0: byte, b1: byte, b2: byte, last: bool)
    ensures DecodeGroup(EncodeThree(b0, b1, b2), last) == Some([b0, b1, b2])
  {
    var d0, d1, d2, d3 := b0 / 4, (b0 % 4) * 16 + b1 / 16, (b1 % 16) * 4 + b2 / 64, b2 % 64;
    SymbolRoundTrip(d0);
    SymbolRoundTrip(d1);
    SymbolRoundTrip(d2);
    SymbolRoundTrip(d3);
    ThreeSextets(b0, b1, b2);
    var g := EncodeThree(b0, b1, b2);
    assert g == [Symbol(d0), Symbol(d1), Symbol(d2), Symbol(d3)];
    assert g[3] != PadChar;
  }

  /** The four sextets of three bytes put back together give the bytes. */
  lemma ThreeSextets(b0: byte, b1: byte, b2: byte)
    ensures var d0, d1, d2, d3 := b0 / 4, (b0 % 4) * 16 + b1 / 16, (b1 % 16) * 4 + b2 / 64, b2 % 64;
      d0 * 4 + d1 / 16 == b0 && (d1 % 16) * 16 + d2 / 4 == b1 && (d2 % 4) * 64 + d3 == b2
  {
    Regroup(b0 % 4, 16, b1 / 16);
    Regroup(b1 % 16, 4, b2 / 64);
  }

  /** Cutting `hi * k + lo` at `k` gives back `hi` and `lo`, for the block sizes base 64 uses. */
  lemma Regroup(hi: nat, k: nat, lo: nat)
    requires k == 4 || k == 16 || k == 64
    requires lo < k
    ensures (hi * k + lo) / k == hi && (hi * k + lo) % k == lo
  {
  }

  /** The UTF-8 bytes of one Unicode scalar value. */
  function CharUtf8(c: char): (r: seq<byte>)
    ensures 1 <= |r| <= 4
    ensures c as int < 0x80 <==> r == [c as int]
  {
    var n := c as int;
    if n < 0x80 then [n]
    else if n < 0x800 then [0xC0 + n / 64, 0x80 + n % 64]
    else if n < 0x1_0000 then [0xE0 + n / 4096, 0x80 + (n / 64) % 64, 0x80 + n % 64]
    else [0xF0 + n / 262144, 0x80 + (n / 4096) % 64, 0x80 + (n / 64) % 64, 0x80 + n % 64]
  }

  /** The bytes of a string, as Go's `[]byte(s)` gives them. */
  function Utf8(s: string): (r: seq<byte>)
    ensures |s| <= |r| <= 4 * |s|
    ensures s == "" <==> r == []
  {
    if s == "" then [] else CharUtf8(s[0]) + Utf8(s[1..])
  }

  /** The base 64 text of a string's bytes, `base64.StdEncoding.EncodeToString([]byte(s))`. */
  function EncodeString(s: string): (r: string)
    ensures s == "" <==> r == ""
    ensures forall i :: 0 <= i < |r| ==> IsSymbol(r[i]) || r[i] == PadChar
  {
    EncodeAlphabet(Utf8(s));
    Encode(Utf8(s))
  }

  /** A character outside the alphabet, other than padding, never occurs in the encoding of a string. */
  lemma EncodedLacks(s: string, c: char)
    requires !IsSymbol(c) && c != PadChar
    ensures c !in EncodeString(s)
  {
  }
}
