/** Percent-encoding of text as the two browser primitives the core relies on
    perform it: `encodeURIComponent` (ECMA-262, section 19.2.6.4, built on
    the percent-encoding of section 2.1 of RFC 3986) and the byte serializer
    of `URLSearchParams` (WHATWG URL Standard, section 5.2,
    application/x-www-form-urlencoded serializing). Both write a code point
    either literally or as the `%XX` escapes (upper-case hex) of its UTF-8
    bytes; they differ in which code points stay literal and in the form
    encoder writing a space as `+`. The decoders are their partners:
    `decodeURIComponent` (ECMA-262, section 19.2.6.2) and the percent-decoding
    step of the form parser (WHATWG URL Standard, section 5.1). */
module UrlEncoding {
  import opened Wrappers
  import opened Decimal

  type Byte = b: int | 0 <= b < 256

  /** The two encoders. */
  datatype EncodeSet =
    | Component  // encodeURIComponent
    | Form       // URLSearchParams serializer

  predicate IsAsciiAlnum(c: char) {
    'A' <= c <= 'Z' || 'a' <= c <= 'z' || '0' <= c <= '9'
  }

  /** Code points that the encoder writes as they are. */
  predicate Keeps(es: EncodeSet, c: char) {
    IsAsciiAlnum(c) ||
    match es
    case Component => c in "-_.!~*'()"
    case Form => c in "*-._"
  }

  /** Every character an encoder can write. */
  predicate Emitted(es: EncodeSet, c: char) {
    Keeps(es, c) || c == '%' || (es == Form && c == '+')
  }

  // ---------------------------------------------------------------------------
  // Hexadecimal digits

  function HexDigit(d: nat): (c: char)
    requires d < 16
    ensures IsAsciiAlnum(c)
  {
    if d < 10 then (d + '0' as int) as char else (d - 10 + 'A' as int) as char
  }

  predicate IsHex(c: char) {
    '0' <= c <= '9' || 'A' <= c <= 'F' || 'a' <= c <= 'f'
  }

  function HexValue(c: char): (d: nat)
    requires IsHex(c)
    ensures d < 16
  {
    if c <= '9' then c as int - '0' as int
    else if c <= 'F' then c as int - 'A' as int + 10
    else c as int - 'a' as int + 10
  }

  lemma HexValueOfHexDigit(d: nat)
    requires d < 16
    ensures IsHex(HexDigit(d)) && HexValue(HexDigit(d)) == d
  {
  }

  // ---------------------------------------------------------------------------
  // UTF-8

  predicate IsScalarValue(n: int) {
    0 <= n < 0xD800 || 0xE000 <= n < 0x11_0000
  }

  /** The UTF-8 bytes of one code point: a lead byte announcing the length and
      continuation bytes carrying six bits each. */
  function Utf8(c: char): (bs: seq<Byte>)
    ensures 1 <= |bs| <= 4
    ensures |bs| == 1 <==> c as int < 0x80
    ensures forall i :: 1 <= i < |bs| ==> 0x80 <= bs[i] < 0xC0
  {
    var n := c as int;
    var q1 := n / 64;
    var q2 := q1 / 64;
    var q3 := q2 / 64;
    if n < 0x80 then [n]
    else if n < 0x800 then [0xC0 + q1, 0x80 + n % 64]
    else if n < 0x1_0000 then [0xE0 + q2, 0x80 + q1 % 64, 0x80 + n % 64]
    else [0xF0 + q3, 0x80 + q2 % 64, 0x80 + q1 % 64, 0x80 + n % 64]
  }

  // ---------------------------------------------------------------------------
  // Encoding

  /** `%XX` for every byte. */
  function Escape(bs: seq<Byte>): (s: string)
    ensures |s| == 3 * |bs|
    ensures forall i :: 0 <= i < |s| ==> s[i] == '%' || IsAsciiAlnum(s[i])
  {
    if bs == [] then [] else ['%', HexDigit(bs[0] / 16), HexDigit(bs[0] % 16)] + Escape(bs[1..])
  }

  /** How one code point is written. */
  function EncodeChar(es: EncodeSet, c: char): (s: string)
    ensures |s| > 0
    ensures forall i :: 0 <= i < |s| ==> Emitted(es, s[i])
  {
    if Keeps(es, c) then [c]
    else if es == Form && c == ' ' then "+"
    else Escape(Utf8(c))
  }

  function Encode(s: string, es: EncodeSet): (r: string)
    ensures |r| >= |s|
    ensures forall i :: 0 <= i < |r| ==> Emitted(es, r[i])
  {
    if s == [] then [] else EncodeChar(es, s[0]) + Encode(s[1..], es)
  }

  /** `encodeURIComponent(s)`. The result never holds a character that
      delimits a URL path segment, query or fragment, so it is always one
      path segment or one query value. */
  function EncodeUriComponent(s: string): (r: string)
    ensures forall i :: 0 <= i < |r| ==> Keeps(Component, r[i]) || r[i] == '%'
    ensures '/' !in r && '?' !in r && '#' !in r && '&' !in r && '=' !in r && '+' !in r
  {
    var r := Encode(s, Component);
    forall i | 0 <= i < |r|
      ensures r[i] !in "/?#&=+"
    {
      ComponentCharIsNoDelimiter(r[i]);
    }
    r
  }

  lemma ComponentCharIsNoDelimiter(c: char)
    requires Emitted(Component, c)
    ensures c !in "/?#&=+"
  {
  }

  // ---------------------------------------------------------------------------
  // Decoding

  /** The byte written as `%XX` at position `i`, if there is one. */
  function ByteAt(s: string, i: nat): Option<Byte>
  {
    if i + 3 <= |s| && s[i] == '%' && IsHex(s[i + 1]) && IsHex(s[i + 2])
    then Some(HexValue(s[i + 1]) * 16 + HexValue(s[i + 2]))
    else None
  }

  /** The six payload bits of an escaped continuation byte at position `i`. */
  function ContinuationAt(s: string, i: nat): (r: Option<int>)
    ensures r.Some? ==> 0 <= r.value < 64
  {
    match ByteAt(s, i)
    case Some(b) => if 0x80 <= b < 0xC0 then Some(b - 0x80) else None
    case None => None
  }

  /** Decodes the escape group at the start of `s` into one code point and the
      number of characters it took. A lead byte that announces no valid length,
      a missing or malformed continuation, an overlong form, a surrogate or a
      value above U+10FFFF is an error (a URIError in ECMA-262). */
  function DecodeEscape(s: string): (r: Option<(char, nat)>)
    ensures r.Some? ==> 3 <= r.value.1 <= |s|
  {
    match ByteAt(s, 0)
    case None => None
    case Some(b) =>
      if b < 0x80 then Some((b as char, 3))
      else if 0xC0 <= b < 0xE0 then
        match ContinuationAt(s, 3)
        case Some(x1) =>
          var n := (b - 0xC0) * 64 + x1;
          if 0x80 <= n then Some((n as char, 6)) else None
        case None => None
      else if 0xE0 <= b < 0xF0 then
        match (ContinuationAt(s, 3), ContinuationAt(s, 6))
        case (Some(x1), Some(x2)) =>
          var n := ((b - 0xE0) * 64 + x1) * 64 + x2;
          if 0x800 <= n && IsScalarValue(n) then Some((n as char, 9)) else None
        case _ => None
      else if 0xF0 <= b < 0xF8 then
        match (ContinuationAt(s, 3), ContinuationAt(s, 6), ContinuationAt(s, 9))
        case (Some(x1), Some(x2), Some(x3)) =>
          var n := (((b - 0xF0) * 64 + x1) * 64 + x2) * 64 + x3;
          if 0x1_0000 <= n < 0x11_0000 then Some((n as char, 12)) else None
        case _ => None
      else None
  }

  /** Decodes the code point at the start of `s`; the form parser also reads
      `+` as a space. */
  function DecodeStep(s: string, plusAsSpace: bool): (r: Option<(char, nat)>)
    requires s != []
    ensures r.Some? ==> 1 <= r.value.1 <= |s|
  {
    if s[0] == '%' then DecodeEscape(s)
    else if plusAsSpace && s[0] == '+' then Some((' ', 1))
    else Some((s[0], 1))
  }

  function Decode(s: string, plusAsSpace: bool): Option<string>
    decreases |s|
  {
    if s == [] then Some([])
    else
      match DecodeStep(s, plusAsSpace)
      case None => None
      case Some((c, n)) =>
        match Decode(s[n..], plusAsSpace)
        case None => None
        case Some(t) => Some([c] + t)
  }

  /** `decodeURIComponent(s)`, with a thrown URIError as `None`. */
  function DecodeUriComponent(s: string): Option<string>
  {
    Decode(s, false)
  }

  // ---------------------------------------------------------------------------
  // Round trips

  lemma {:induction false} EscapeAt(bs: seq<Byte>, k: nat)
    requires k < |bs|
    ensures Escape(bs)[3 * k] == '%'
    ensures Escape(bs)[3 * k + 1] == HexDigit(bs[k] / 16)
    ensures Escape(bs)[3 * k + 2] == HexDigit(bs[k] % 16)
  {
    if k > 0 {
      EscapeAt(bs[1..], k - 1);
    }
  }

  /** The two hex digits written for a byte read back as that byte. */
  lemma HexPairValue(b: Byte)
    ensures IsHex(HexDigit(b / 16)) && IsHex(HexDigit(b % 16))
    ensures HexValue(HexDigit(b / 16)) * 16 + HexValue(HexDigit(b % 16)) == b
  {
    HexValueOfHexDigit(b / 16);
    HexValueOfHexDigit(b % 16);
  }

  /** Each `%XX` group of an escaped byte sequence reads back as that byte,
      whatever follows. */
  lemma ByteAtEscape(bs: seq<Byte>, rest: string, k: nat)
    requires k < |bs|
    ensures ByteAt(Escape(bs) + rest, 3 * k) == Some(bs[k])
  {
    var e := Escape(bs);
    var s := e + rest;
    var i := 3 * k;
    EscapeAt(bs, k);
    assert s[i] == e[i] && s[i + 1] == e[i + 1] && s[i + 2] == e[i + 2];
    ByteAtHexPair(s, i, bs[k]);
  }

  /** `%` and the two hex digits written for a byte read back as that byte. */
  lemma ByteAtHexPair(s: string, i: nat, b: Byte)
    requires i + 3 <= |s| && s[i] == '%'
    requires s[i + 1] == HexDigit(b / 16) && s[i + 2] == HexDigit(b % 16)
    ensures ByteAt(s, i) == Some(b)
  {
    HexPairValue(b);
  }

  lemma ContinuationAtEscape(bs: seq<Byte>, rest: string, k: nat)
    requires k < |bs| && 0x80 <= bs[k] < 0xC0
    ensures ContinuationAt(Escape(bs) + rest, 3 * k) == Some(bs[k] - 0x80)
  {
    ByteAtEscape(bs, rest, k);
    ContinuationOfByte(Escape(bs) + rest, 3 * k, bs[k]);
  }

  lemma ContinuationOfByte(s: string, i: nat, b: Byte)
    requires ByteAt(s, i) == Some(b) && 0x80 <= b < 0xC0
    ensures ContinuationAt(s, i) == Some(b - 0x80)
  {
  }

  lemma DecodeEscapeUtf8Two(c: char, rest: string)
    requires 0x80 <= c as int < 0x800
    ensures DecodeEscape(Escape(Utf8(c)) + rest) == Some((c, 6))
  {
    var bs := Utf8(c);
    var s := Escape(bs) + rest;
    var n := c as int;
    assert bs == [0xC0 + n / 64, 0x80 + n % 64];
    ByteAtEscape(bs, rest, 0);
    ContinuationAtEscape(bs, rest, 1);
    assert (bs[0] as int - 0xC0) * 64 + (bs[1] as int - 0x80) == n;
  }

  /** The three bytes of a code point from U+0800 to U+FFFF recombine to it. */
  lemma Utf8ThreeBytes(c: char)
    requires 0x800 <= c as int < 0x1_0000
    ensures var bs := Utf8(c);
      |bs| == 3 && 0xE0 <= bs[0] < 0xF0 &&
      ((bs[0] as int - 0xE0) * 64 + (bs[1] as int - 0x80)) * 64 + (bs[2] as int - 0x80) == c as int
  {
    var n := c as int;
    var q1 := n / 64;
    var q2 := q1 / 64;
    assert Utf8(c) == [0xE0 + q2, 0x80 + q1 % 64, 0x80 + n % 64];
  }

  lemma DecodeEscapeUtf8Three(c: char, rest: string)
    requires 0x800 <= c as int < 0x1_0000
    ensures DecodeEscape(Escape(Utf8(c)) + rest) == Some((c, 9))
  {
    var bs := Utf8(c);
    Utf8ThreeBytes(c);
    ByteAtEscape(bs, rest, 0);
    ContinuationAtEscape(bs, rest, 1);
    ContinuationAtEscape(bs, rest, 2);
  }

  /** The four bytes of a code point from U+10000 up recombine to it. */
  lemma Utf8FourBytes(c: char)
    requires 0x1_0000 <= c as int
    ensures var bs := Utf8(c);
      |bs| == 4 && 0xF0 <= bs[0] < 0xF8 &&
      (((bs[0] as int - 0xF0) * 64 + (bs[1] as int - 0x80)) * 64 + (bs[2] as int - 0x80)) * 64 + (bs[3] as int - 0x80) == c as int
  {
    var n := c as int;
    var q1 := n / 64;
    var q2 := q1 / 64;
    var q3 := q2 / 64;
    assert Utf8(c) == [0xF0 + q3, 0x80 + q2 % 64, 0x80 + q1 % 64, 0x80 + n % 64];
  }

  lemma DecodeEscapeUtf8Four(c: char, rest: string)
    requires 0x1_0000 <= c as int
    ensures DecodeEscape(Escape(Utf8(c)) + rest) == Some((c, 12))
  {
    var bs := Utf8(c);
    Utf8FourBytes(c);
    ByteAtEscape(bs, rest, 0);
    ContinuationAtEscape(bs, rest, 1);
    ContinuationAtEscape(bs, rest, 2);
    ContinuationAtEscape(bs, rest, 3);
  }

  lemma DecodeEscapeUtf8One(c: char, rest: string)
    requires c as int < 0x80
    ensures DecodeEscape(Escape(Utf8(c)) + rest) == Some((c, 3))
  {
    assert Utf8(c) == [c as int];
    ByteAtEscape(Utf8(c), rest, 0);
  }

  /** The escaped UTF-8 bytes of a code point decode to that code point,
      whatever follows. */
  lemma DecodeEscapeUtf8(c: char, rest: string)
    ensures DecodeEscape(Escape(Utf8(c)) + rest) == Some((c, 3 * |Utf8(c)|))
  {
    var n := c as int;
    if n < 0x80 {
      DecodeEscapeUtf8One(c, rest);
    } else if n < 0x800 {
      DecodeEscapeUtf8Two(c, rest);
    } else if n < 0x1_0000 {
      DecodeEscapeUtf8Three(c, rest);
    } else {
      DecodeEscapeUtf8Four(c, rest);
    }
  }

  /** One encoded code point decodes back to itself, whatever follows. The form
      encoding needs the decoder that reads `+` as a space; the component
      encoding never writes `+` and decodes under either reading. */
  lemma DecodeStepEncodeChar(es: EncodeSet, plusAsSpace: bool, c: char, rest: string)
    requires es == Component || plusAsSpace
    ensures DecodeStep(EncodeChar(es, c) + rest, plusAsSpace) == Some((c, |EncodeChar(es, c)|))
  {
    if !Keeps(es, c) && !(es == Form && c == ' ') {
      DecodeEscapeUtf8(c, rest);
    }
  }

  /** Decoding an encoded string gives the string back. */
  lemma {:induction false} DecodeEncode(s: string, es: EncodeSet, plusAsSpace: bool)
    requires es == Component || plusAsSpace
    ensures Decode(Encode(s, es), plusAsSpace) == Some(s)
    decreases |s|
  {
    if s != [] {
      var e := EncodeChar(es, s[0]);
      var tail := Encode(s[1..], es);
      var enc := Encode(s, es);
      assert enc == e + tail;
      DecodeStepEncodeChar(es, plusAsSpace, s[0], tail);
      assert enc[|e|..] == tail;
      DecodeEncode(s[1..], es, plusAsSpace);
      assert [s[0]] + s[1..] == s;
    }
  }

  /** `decodeURIComponent(encodeURIComponent(s)) == s`. */
  lemma DecodeUriComponentRoundTrip(s: string)
    ensures DecodeUriComponent(EncodeUriComponent(s)) == Some(s)
  {
    DecodeEncode(s, Component, false);
  }

  /** A string made only of characters the encoder keeps is written unchanged. */
  lemma {:induction false} EncodeKept(s: string, es: EncodeSet)
    requires forall i :: 0 <= i < |s| ==> Keeps(es, s[i])
    ensures Encode(s, es) == s
    decreases |s|
  {
    if s != [] {
      EncodeKept(s[1..], es);
    }
  }

  /** A decimal numeral is written unchanged by either encoder. */
  lemma NumeralKept(s: string, es: EncodeSet)
    requires AllDigits(s)
    ensures Encode(s, es) == s
  {
    assert forall i :: 0 <= i < |s| ==> IsAsciiAlnum(s[i]);
    EncodeKept(s, es);
  }
}
