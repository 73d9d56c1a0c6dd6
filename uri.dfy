/**
 * Percent-decoding as `decodeURIComponent` performs it (section 19.2.6.2
 * of ECMA-262, with an empty reserved set), over UTF-8 as RFC 3629 defines
 * it, together with `encodeURIComponent` as its partner.
 *
 * A string is a sequence of Unicode scalar values; JavaScript's strings are
 * UTF-16 code units, which only differs for characters outside the Basic
 * Multilingual Plane, kept here as one character.
 */
module Uri {
  import opened Wrappers

  /** A byte value. */
  type Byte = b: nat | b < 256

  // ---------------------------------------------------------------------
  // Hexadecimal digits

  function HexValue(c: char): Option<nat>
  {
    if '0' <= c <= '9' then Some(c as int - '0' as int)
    else if 'a' <= c <= 'f' then Some(c as int - 'a' as int + 10)
    else if 'A' <= c <= 'F' then Some(c as int - 'A' as int + 10)
    else None
  }

  /** The upper-case hexadecimal digit `encodeURIComponent` writes. */
  function HexUpper(d: nat): char
    requires d < 16
  {
    if d < 10 then ('0' as int + d) as char else ('A' as int + d - 10) as char
  }

  lemma HexUpperValue(d: nat)
    requires d < 16
    ensures HexValue(HexUpper(d)) == Some(d)
  {
  }

  /** `%XY` at the front of `s`: the byte it stands for. */
  function EscapeAt(s: string): (b: Option<Byte>)
    ensures b.Some? ==> |s| >= 3 && s[0] == '%'
  {
    if |s| < 3 || s[0] != '%' then None
    else match (HexValue(s[1]), HexValue(s[2]))
      case (Some(h), Some(l)) => Some(h * 16 + l)
      case _ => None
  }

  /** `n` escapes in a row at the front of `s`. */
  function EscapesAt(s: string, n: nat): (bs: Option<seq<Byte>>)
    ensures bs.Some? ==> |bs.value| == n && |s| >= 3 * n
  {
    if n == 0 then Some([])
    else match EscapeAt(s)
      case None => None
      case Some(b) =>
        match EscapesAt(s[3..], n - 1)
        case None => None
        case Some(rest) => Some([b] + rest)
  }

  // ---------------------------------------------------------------------
  // UTF-8 (RFC 3629)

  /** How many bytes a sequence starting with `b` has; 0 when `b` cannot start one. */
  function SequenceLength(b: Byte): nat
  {
    if b < 0x80 then 1
    else if 0xC2 <= b <= 0xDF then 2
    else if 0xE0 <= b <= 0xEF then 3
    else if 0xF0 <= b <= 0xF4 then 4
    else 0
  }

  predicate Continuation(b: Byte)
  {
    0x80 <= b <= 0xBF
  }

  /** RFC 3629 section 4: the well-formed byte sequences of one character. */
  predicate WellFormed(bs: seq<Byte>)
  {
    |bs| >= 1 && SequenceLength(bs[0]) == |bs| &&
    (forall i :: 1 <= i < |bs| ==> Continuation(bs[i])) &&
    (|bs| == 3 && bs[0] == 0xE0 ==> bs[1] >= 0xA0) &&
    (|bs| == 3 && bs[0] == 0xED ==> bs[1] <= 0x9F) &&
    (|bs| == 4 && bs[0] == 0xF0 ==> bs[1] >= 0x90) &&
    (|bs| == 4 && bs[0] == 0xF4 ==> bs[1] <= 0x8F)
  }

  /** The code point a well-formed sequence encodes. */
  function CodePoint(bs: seq<Byte>): (v: nat)
    requires WellFormed(bs)
    ensures v < 0xD800 || 0xE000 <= v < 0x11_0000
  {
    if |bs| == 1 then bs[0]
    else if |bs| == 2 then (bs[0] as int - 0xC0) * 64 + (bs[1] as int - 0x80)
    else if |bs| == 3 then
      assert Continuation(bs[1]) && Continuation(bs[2]);
      (bs[0] as int - 0xE0) * 4096 + (bs[1] as int - 0x80) * 64 + (bs[2] as int - 0x80)
    else
      assert Continuation(bs[1]) && Continuation(bs[2]) && Continuation(bs[3]);
      (bs[0] as int - 0xF0) * 262144 + (bs[1] as int - 0x80) * 4096 + (bs[2] as int - 0x80) * 64 + (bs[3] as int - 0x80)
  }

  /** The UTF-8 encoding of one character. */
  function Utf8(c: char): (bs: seq<Byte>)
    ensures 1 <= |bs| <= 4
  {
    var v := c as int;
    if v < 0x80 then [v]
    else if v < 0x800 then [0xC0 + v / 64, 0x80 + v % 64]
    else if v < 0x1_0000 then [0xE0 + v / 4096, 0x80 + v / 64 % 64, 0x80 + v % 64]
    else [0xF0 + v / 262144, 0x80 + v / 4096 % 64, 0x80 + v / 64 % 64, 0x80 + v % 64]
  }

  /** `Utf8` writes a well-formed sequence, and that sequence decodes to the character. */
  lemma Utf8Decodes(c: char)
    ensures WellFormed(Utf8(c)) && CodePoint(Utf8(c)) == c as int
  {
    var v := c as int;
    if v < 0x80 {
    } else if v < 0x800 {
      Utf8Two(v);
    } else if v < 0x1_0000 {
      Utf8Three(v);
    } else {
      Utf8Four(v);
    }
  }

  lemma Utf8Two(v: int)
    requires 0x80 <= v < 0x800
    ensures var bs: seq<Byte> := [0xC0 + v / 64, 0x80 + v % 64];
      WellFormed(bs) && CodePoint(bs) == v
  {
    assert 2 <= v / 64 < 32;
  }

  lemma Utf8Three(v: int)
    requires 0x800 <= v < 0x1_0000 && !(0xD800 <= v < 0xE000)
    ensures var bs: seq<Byte> := [0xE0 + v / 4096, 0x80 + v / 64 % 64, 0x80 + v % 64];
      WellFormed(bs) && CodePoint(bs) == v
  {
    var hi, mid, lo := v / 4096, v / 64 % 64, v % 64;
    assert v / 64 == hi * 64 + mid;
    assert v == hi * 4096 + mid * 64 + lo;
    assert hi == 0 ==> mid >= 32;
    assert hi == 13 ==> mid < 32;
  }

  lemma Utf8Four(v: int)
    requires 0x1_0000 <= v < 0x11_0000
    ensures var bs: seq<Byte> := [0xF0 + v / 262144, 0x80 + v / 4096 % 64, 0x80 + v / 64 % 64, 0x80 + v % 64];
      WellFormed(bs) && CodePoint(bs) == v
  {
    var top, hi, mid, lo := v / 262144, v / 4096 % 64, v / 64 % 64, v % 64;
    assert v / 4096 == top * 64 + hi;
    assert v / 64 == (v / 4096) * 64 + mid;
    assert v == top * 262144 + hi * 4096 + mid * 64 + lo;
    assert top == 0 ==> hi >= 16;
    assert top == 4 ==> hi < 16;
  }

  // ---------------------------------------------------------------------
  // decodeURIComponent

  /**
   * `decodeURIComponent(s)`; `None` where it throws `URIError`: a `%` not
   * followed by two hexadecimal digits, a byte that cannot start a UTF-8
   * sequence, a missing or wrong continuation byte, an overlong form, a
   * surrogate or a code point above U+10FFFF.
   */
  function DecodeURIComponent(s: string): Option<string>
    decreases |s|
  {
    if s == [] then Some("")
    else if s[0] != '%' then
      match DecodeURIComponent(s[1..])
      case None => None
      case Some(rest) => Some([s[0]] + rest)
    else
      match EscapeAt(s)
      case None => None
      case Some(b0) =>
        var n := SequenceLength(b0);
        if n == 0 then None
        else
          match EscapesAt(s, n)
          case None => None
          case Some(bs) =>
            if !WellFormed(bs) then None
            else
              match DecodeURIComponent(s[3 * n..])
              case None => None
              case Some(rest) => Some([CodePoint(bs) as char] + rest)
  }

  // ---------------------------------------------------------------------
  // encodeURIComponent, the partner

  /** The characters `encodeURIComponent` leaves as they are. */
  predicate Unreserved(c: char)
  {
    'A' <= c <= 'Z' || 'a' <= c <= 'z' || '0' <= c <= '9' ||
    c == '-' || c == '_' || c == '.' || c == '!' || c == '~' || c == '*' ||
    c == '\'' || c == '(' || c == ')'
  }

  function EscapeByte(b: Byte): string
  {
    ['%', HexUpper(b / 16), HexUpper(b % 16)]
  }

  function EscapeBytes(bs: seq<Byte>): (s: string)
    ensures |s| == 3 * |bs|
  {
    if bs == [] then "" else EscapeByte(bs[0]) + EscapeBytes(bs[1..])
  }

  /** `encodeURIComponent(s)`. */
  function EncodeURIComponent(s: string): string
  {
    if s == [] then ""
    else if Unreserved(s[0]) then [s[0]] + EncodeURIComponent(s[1..])
    else EscapeBytes(Utf8(s[0])) + EncodeURIComponent(s[1..])
  }

  lemma {:induction false} EscapesOfEscapeBytes(bs: seq<Byte>, tail: string)
    ensures EscapesAt(EscapeBytes(bs) + tail, |bs|) == Some(bs)
    decreases |bs|
  {
    if bs != [] {
      var s := EscapeBytes(bs) + tail;
      HexUpperValue(bs[0] / 16);
      HexUpperValue(bs[0] % 16);
      assert s[0] == '%' && s[1] == HexUpper(bs[0] / 16) && s[2] == HexUpper(bs[0] % 16);
      assert EscapeAt(s) == Some(bs[0]);
      assert s[3..] == EscapeBytes(bs[1..]) + tail;
      EscapesOfEscapeBytes(bs[1..], tail);
      assert [bs[0]] + bs[1..] == bs;
    }
  }

  /** Decoding what was encoded gives back the original: `decodeURIComponent(encodeURIComponent(s)) === s`. */
  lemma {:induction false} DecodeEncode(s: string)
    ensures DecodeURIComponent(EncodeURIComponent(s)) == Some(s)
    decreases |s|
  {
    if s != [] {
      DecodeEncode(s[1..]);
      var tail := EncodeURIComponent(s[1..]);
      if Unreserved(s[0]) {
        assert s[0] != '%';
        assert ([s[0]] + tail)[0] == s[0] && ([s[0]] + tail)[1..] == tail;
        assert s == [s[0]] + s[1..];
      } else {
        var bs := Utf8(s[0]);
        var e := EscapeBytes(bs) + tail;
        Utf8Decodes(s[0]);
        EscapesOfEscapeBytes(bs, tail);
        assert e[0] == '%';
        assert EscapeAt(e) == Some(bs[0]);
        assert e[3 * |bs|..] == tail;
        assert s == [CodePoint(bs) as char] + s[1..];
      }
    }
  }

  /** Text without `%` decodes to itself. */
  lemma {:induction false} DecodeWithoutPercent(s: string)
    requires '%' !in s
    ensures DecodeURIComponent(s) == Some(s)
    decreases |s|
  {
    if s != [] {
      assert s[0] != '%' && '%' !in s[1..];
      DecodeWithoutPercent(s[1..]);
      assert s == [s[0]] + s[1..];
    }
  }
}
