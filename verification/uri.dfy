/**
 * JavaScript's `encodeURIComponent`, which the search box applies to the
 * query before navigating. A character of the unreserved set
 * (`A-Z a-z 0-9 - _ . ! ~ * ' ( )`) is kept; every other character is
 * written as its UTF-8 bytes, each as `%` and two upper-case hex digits.
 *
 * `Decode` is the partner: it reads the escapes back into bytes and the
 * bytes back into characters, and `DecodeEncode` proves that it undoes
 * `Encode` on every string.
 */
module Uri {
  import opened Wrappers

  type Byte = b: int | 0 <= b < 256

  /** The characters `encodeURIComponent` leaves as they are. */
  predicate Unreserved(c: char) {
    ('A' <= c <= 'Z') || ('a' <= c <= 'z') || ('0' <= c <= '9') ||
    c == '-' || c == '_' || c == '.' || c == '!' || c == '~' || c == '*' || c == '\'' || c == '(' || c == ')'
  }

  /** A code point Dafny's `char` (a Unicode scalar value) can hold. */
  predicate IsScalar(n: int) {
    (0 <= n < 0xD800) || (0xE000 <= n < 0x11_0000)
  }

  /** A UTF-8 continuation byte, `10xxxxxx`. */
  predicate Continuation(b: Byte) {
    0x80 <= b < 0xC0
  }

  // ---------------------------------------------------------------------
  // UTF-8
  // ---------------------------------------------------------------------

  /** The UTF-8 encoding of one character: one to four bytes. */
  function Utf8(c: char): (bs: seq<Byte>)
    ensures 1 <= |bs| <= 4
    ensures |bs| == 1 <==> (c as int) < 0x80
    ensures forall k :: 1 <= k < |bs| ==> Continuation(bs[k])
  {
    var n := c as int;
    if n < 0x80 then [n]
    else if n < 0x800 then [0xC0 + n / 64, 0x80 + n % 64]
    else if n < 0x1_0000 then [0xE0 + n / 64 / 64, 0x80 + n / 64 % 64, 0x80 + n % 64]
    else [0xF0 + n / 64 / 64 / 64, 0x80 + n / 64 / 64 % 64, 0x80 + n / 64 % 64, 0x80 + n % 64]
  }

  /** The UTF-8 encoding of a string, character by character. */
  function Utf8String(s: string): seq<Byte> {
    if |s| == 0 then [] else Utf8(s[0]) + Utf8String(s[1..])
  }

  /** `[x] + rest`, if there is a rest. */
  function Prepend<T>(x: T, rest: Option<seq<T>>): (r: Option<seq<T>>)
    ensures r.Some? <==> rest.Some?
    ensures r.Some? ==> r.value == [x] + rest.value
  {
    if rest.Some? then Some([x] + rest.value) else None
  }

  /**
   * Decodes UTF-8: the lead byte fixes the length of each sequence, the
   * continuation bytes carry six bits each, and a sequence that does not
   * end in a scalar value fails the whole decoding.
   */
  function Utf8Decode(bs: seq<Byte>): (r: Option<string>)
    decreases |bs|
  {
    if |bs| == 0 then Some([])
    else
      var b: int := bs[0];
      if b < 0x80 then Prepend(b as char, Utf8Decode(bs[1..]))
      else if 0xC0 <= b < 0xE0 && |bs| >= 2 && Continuation(bs[1]) then
        var n: int := (b - 0xC0) * 64 + (bs[1] as int - 0x80);
        Prepend(n as char, Utf8Decode(bs[2..]))
      else if 0xE0 <= b < 0xF0 && |bs| >= 3 && Continuation(bs[1]) && Continuation(bs[2]) then
        var n: int := (b - 0xE0) * 4096 + (bs[1] as int - 0x80) * 64 + (bs[2] as int - 0x80);
        if IsScalar(n) then Prepend(n as char, Utf8Decode(bs[3..])) else None
      else if 0xF0 <= b < 0xF8 && |bs| >= 4 && Continuation(bs[1]) && Continuation(bs[2]) && Continuation(bs[3]) then
        var n: int := (b - 0xF0) * 262144 + (bs[1] as int - 0x80) * 4096 + (bs[2] as int - 0x80) * 64 + (bs[3] as int - 0x80);
        if IsScalar(n) then Prepend(n as char, Utf8Decode(bs[4..])) else None
      else None
  }

  /** Decoding one encoded character peels it off the front. */
  lemma Utf8DecodeChar(c: char, rest: seq<Byte>)
    ensures Utf8Decode(Utf8(c) + rest) == Prepend(c, Utf8Decode(rest))
  {
    var n := c as int;
    if n < 0x80 {
      var bs := Utf8(c) + rest;
      assert bs[0] == n && bs[1..] == rest;
    } else if n < 0x800 {
      DecodeTwoBytes(c, rest);
    } else if n < 0x1_0000 {
      DecodeThreeBytes(c, rest);
    } else {
      DecodeFourBytes(c, rest);
    }
  }

  /** A character from U+0080 to U+07FF: a lead byte and one continuation byte. */
  lemma DecodeTwoBytes(c: char, rest: seq<Byte>)
    requires 0x80 <= c as int < 0x800
    ensures Utf8Decode(Utf8(c) + rest) == Prepend(c, Utf8Decode(rest))
  {
    var n := c as int;
    var b0, b1 := 0xC0 + n / 64, 0x80 + n % 64;
    assert Utf8(c) == [b0, b1];
    var bs := Utf8(c) + rest;
    assert bs[0] == b0 && bs[1] == b1 && bs[2..] == rest;
    assert 0xC0 <= b0 < 0xE0;
    assert (b0 - 0xC0) * 64 + (b1 - 0x80) == n;
  }

  /** A character from U+0800 to U+FFFF: a lead byte and two continuation bytes. */
  lemma DecodeThreeBytes(c: char, rest: seq<Byte>)
    requires 0x800 <= c as int < 0x1_0000
    ensures Utf8Decode(Utf8(c) + rest) == Prepend(c, Utf8Decode(rest))
  {
    var n := c as int;
    var q1 := n / 64;
    var q2 := q1 / 64;
    assert n == 64 * q1 + n % 64 && q1 == 64 * q2 + q1 % 64;
    var b0, b1, b2 := 0xE0 + q2, 0x80 + q1 % 64, 0x80 + n % 64;
    assert Utf8(c) == [b0, b1, b2];
    var bs := Utf8(c) + rest;
    assert bs[0] == b0 && bs[1] == b1 && bs[2] == b2 && bs[3..] == rest;
    assert 0xE0 <= b0 < 0xF0;
    assert (b0 - 0xE0) * 4096 + (b1 - 0x80) * 64 + (b2 - 0x80) == n;
    assert IsScalar(n);
  }

  /** A character from U+10000 on: a lead byte and three continuation bytes. */
  lemma DecodeFourBytes(c: char, rest: seq<Byte>)
    requires 0x1_0000 <= c as int
    ensures Utf8Decode(Utf8(c) + rest) == Prepend(c, Utf8Decode(rest))
  {
    var n := c as int;
    var q1 := n / 64;
    var q2 := q1 / 64;
    var q3 := q2 / 64;
    assert n == 64 * q1 + n % 64 && q1 == 64 * q2 + q1 % 64 && q2 == 64 * q3 + q2 % 64;
    var b0, b1, b2, b3 := 0xF0 + q3, 0x80 + q2 % 64, 0x80 + q1 % 64, 0x80 + n % 64;
    assert Utf8(c) == [b0, b1, b2, b3];
    var bs := Utf8(c) + rest;
    assert bs[0] == b0 && bs[1] == b1 && bs[2] == b2 && bs[3] == b3 && bs[4..] == rest;
    assert 0xF0 <= b0 < 0xF8;
    assert (b0 - 0xF0) * 262144 + (b1 - 0x80) * 4096 + (b2 - 0x80) * 64 + (b3 - 0x80) == n;
    assert IsScalar(n);
  }

  /** Decoding UTF-8 undoes encoding it. */
  lemma {:induction false} Utf8RoundTrip(s: string)
    ensures Utf8Decode(Utf8String(s)) == Some(s)
  {
    if |s| > 0 {
      Utf8RoundTrip(s[1..]);
      Utf8DecodeChar(s[0], Utf8String(s[1..]));
      assert [s[0]] + s[1..] == s;
    }
  }

  // ---------------------------------------------------------------------
  // Percent escapes
  // ---------------------------------------------------------------------

  const HexDigits := "0123456789ABCDEF"

  /** The value of a hex digit of either case, if it is one. */
  function HexValue(c: char): (r: Option<nat>)
    ensures r.Some? ==> r.value < 16
  {
    if '0' <= c <= '9' then Some(c as int - '0' as int)
    else if 'A' <= c <= 'F' then Some(c as int - 'A' as int + 10)
    else if 'a' <= c <= 'f' then Some(c as int - 'a' as int + 10)
    else None
  }

  /** An upper-case hex digit reads back as its value. */
  lemma HexDigitValue(d: nat)
    requires d < 16
    ensures HexValue(HexDigits[d]) == Some(d)
  {
  }

  /** One byte as `%` and two upper-case hex digits. */
  function Escape(b: Byte): (r: string)
    ensures |r| == 3 && r[0] == '%'
  {
    ['%', HexDigits[b / 16], HexDigits[b % 16]]
  }

  /** Every byte of a sequence escaped, in order. */
  function EscapeAll(bs: seq<Byte>): (r: string)
    ensures |r| == 3 * |bs|
  {
    if |bs| == 0 then [] else Escape(bs[0]) + EscapeAll(bs[1..])
  }

  /** `encodeURIComponent` of one character. */
  function EncodeChar(c: char): (r: string)
    ensures Unreserved(c) ==> r == [c]
    ensures !Unreserved(c) ==> r == EscapeAll(Utf8(c))
  {
    if Unreserved(c) then [c] else EscapeAll(Utf8(c))
  }

  /** `encodeURIComponent(s)`. */
  function Encode(s: string): (r: string)
    ensures |s| <= |r| <= 12 * |s|
  {
    if |s| == 0 then [] else EncodeChar(s[0]) + Encode(s[1..])
  }

  /**
   * The bytes a URI component stands for: `%XY` is the byte with hex
   * value `XY`, any other ASCII character is its own byte, and a broken
   * escape or a raw non-ASCII character fails.
   */
  function Unescape(s: string): (r: Option<seq<Byte>>)
    decreases |s|
  {
    if |s| == 0 then Some([])
    else if s[0] == '%' then
      if |s| >= 3 && HexValue(s[1]).Some? && HexValue(s[2]).Some? then
        Prepend(HexValue(s[1]).value * 16 + HexValue(s[2]).value, Unescape(s[3..]))
      else None
    else if (s[0] as int) < 0x80 then Prepend(s[0] as int, Unescape(s[1..]))
    else None
  }

  /** Decodes a URI component: the escaped bytes, read as UTF-8. */
  function Decode(s: string): Option<string> {
    var bs := Unescape(s);
    if bs.Some? then Utf8Decode(bs.value) else None
  }

  /** Unescaping one escape reads its byte off the front. */
  lemma UnescapeEscape(b: Byte, tail: string)
    ensures Unescape(Escape(b) + tail) == Prepend(b, Unescape(tail))
  {
    var s := Escape(b) + tail;
    HexDigitValue(b / 16);
    HexDigitValue(b % 16);
    assert s[0] == '%' && s[1] == HexDigits[b / 16] && s[2] == HexDigits[b % 16];
    assert s[3..] == tail;
  }

  /** Unescaping escaped bytes gives the bytes back, in front of the rest. */
  lemma {:induction false} UnescapeEscapeAll(bs: seq<Byte>, rest: string)
    ensures Unescape(EscapeAll(bs) + rest) ==
      (if Unescape(rest).Some? then Some(bs + Unescape(rest).value) else None)
  {
    if |bs| == 0 {
      assert EscapeAll(bs) + rest == rest;
      if Unescape(rest).Some? {
        assert bs + Unescape(rest).value == Unescape(rest).value;
      }
    } else {
      var tail := EscapeAll(bs[1..]) + rest;
      assert EscapeAll(bs) + rest == Escape(bs[0]) + tail;
      UnescapeEscape(bs[0], tail);
      UnescapeEscapeAll(bs[1..], rest);
      if Unescape(rest).Some? {
        var v := Unescape(rest).value;
        assert Unescape(tail) == Some(bs[1..] + v);
        assert [bs[0]] + (bs[1..] + v) == bs + v;
      }
    }
  }

  /** Unescaping the encoding of one character gives its UTF-8 bytes. */
  lemma UnescapeEncodeChar(c: char, rest: string)
    ensures Unescape(EncodeChar(c) + rest) ==
      (if Unescape(rest).Some? then Some(Utf8(c) + Unescape(rest).value) else None)
  {
    if Unreserved(c) {
      assert (EncodeChar(c) + rest)[1..] == rest;
    } else {
      UnescapeEscapeAll(Utf8(c), rest);
    }
  }

  /** Unescaping an encoded string gives the string's UTF-8 bytes. */
  lemma {:induction false} UnescapeEncode(s: string)
    ensures Unescape(Encode(s)) == Some(Utf8String(s))
  {
    if |s| > 0 {
      UnescapeEncode(s[1..]);
      UnescapeEncodeChar(s[0], Encode(s[1..]));
    }
  }

  /** Decoding an encoded component gives the original string back. */
  lemma DecodeEncode(s: string)
    ensures Decode(Encode(s)) == Some(s)
  {
    UnescapeEncode(s);
    Utf8RoundTrip(s);
  }

  /** A character that may stand in a query value unescaped: ASCII, and none of `&`, `#`, `=`. */
  predicate QuerySafe(c: char) {
    (c as int) < 0x80 && c != '&' && c != '#' && c != '='
  }

  /** Escapes consist of `%` and hex digits only. */
  lemma {:induction false} EscapeAllIsSafe(bs: seq<Byte>)
    ensures forall k :: 0 <= k < |EscapeAll(bs)| ==> QuerySafe(EscapeAll(bs)[k])
  {
    if |bs| > 0 {
      EscapeAllIsSafe(bs[1..]);
      var r := EscapeAll(bs);
      assert r == Escape(bs[0]) + EscapeAll(bs[1..]);
      forall k | 0 <= k < |r|
        ensures QuerySafe(r[k])
      {
        if k >= 3 {
          assert r[k] == EscapeAll(bs[1..])[k - 3];
        }
      }
    }
  }

  /** An encoded component is plain ASCII and never holds a `&`, `#` or `=`. */
  lemma {:induction false} EncodeIsSafe(s: string)
    ensures forall k :: 0 <= k < |Encode(s)| ==> QuerySafe(Encode(s)[k])
  {
    if |s| > 0 {
      EncodeIsSafe(s[1..]);
      EscapeAllIsSafe(Utf8(s[0]));
      var head := EncodeChar(s[0]);
      var r := Encode(s);
      assert r == head + Encode(s[1..]);
      forall k | 0 <= k < |r|
        ensures QuerySafe(r[k])
      {
        if k >= |head| {
          assert r[k] == Encode(s[1..])[k - |head|];
        } else {
          assert r[k] == head[k];
        }
      }
    }
  }
}
