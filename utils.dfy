/**
 * The nonce generator and the tolerant URL decoder of src/utils.ts.
 *
 * `Math.random` is not modelled: the generator takes the successive values
 * of `Math.floor(Math.random() * 62)` as a parameter.
 */
module Utils {
  import opened Wrappers
  import opened Uri

  /** The characters `first`, `first + 1`, ... `n` of them. */
  function Run(first: char, n: nat): (r: string)
    requires first as int + n <= 0xD800
    ensures |r| == n
    ensures forall i :: 0 <= i < n ==> r[i] as int == first as int + i
  {
    seq(n, i requires 0 <= i < n => (first as int + i) as char)
  }

  /** The 62 characters a nonce is drawn from: `A`-`Z`, then `a`-`z`, then `0`-`9`. */
  const Alphabet: string := Run('A', 26) + Run('a', 26) + Run('0', 10)

  predicate Alphanumeric(c: char)
  {
    'A' <= c <= 'Z' || 'a' <= c <= 'z' || '0' <= c <= '9'
  }

  /** The alphabet has 62 characters, all letters or digits, none repeated. */
  lemma AlphabetShape()
    ensures |Alphabet| == 62
    ensures forall i :: 0 <= i < |Alphabet| ==> Alphanumeric(Alphabet[i])
    ensures forall i, j :: 0 <= i < j < |Alphabet| ==> Alphabet[i] != Alphabet[j]
  {
  }

  /**
   * `generateRandomString(length)`: one alphabet character per draw, for
   * `length` iterations (none when `length` is zero or negative).
   */
  method GenerateRandomString(length: int, draws: seq<nat>) returns (result: string)
    requires forall i :: 0 <= i < |draws| ==> draws[i] < |Alphabet|
    requires length <= |draws|
    ensures |result| == if length <= 0 then 0 else length
    ensures forall i :: 0 <= i < |result| ==> result[i] == Alphabet[draws[i]]
    ensures forall i :: 0 <= i < |result| ==> Alphanumeric(result[i]) && Unreserved(result[i])
  {
    AlphabetShape();
    result := "";
    var i := 0;
    while i < length
      invariant 0 <= i <= (if length <= 0 then 0 else length)
      invariant |result| == i
      invariant forall j :: 0 <= j < i ==> result[j] == Alphabet[draws[j]]
    {
      result := result + [Alphabet[draws[i]]];
      i := i + 1;
    }
  }

  /** `safeDecode(value)`: `decodeURIComponent(value)`, or `value` itself when that throws. */
  function SafeDecode(value: string): (r: string)
    ensures DecodeURIComponent(value).None? ==> r == value
    ensures DecodeURIComponent(value).Some? ==> r == DecodeURIComponent(value).value
  {
    match DecodeURIComponent(value)
    case None => value
    case Some(decoded) => decoded
  }

  /** A value that went through `encodeURIComponent` comes back unchanged. */
  lemma SafeDecodeEncoded(s: string)
    ensures SafeDecode(EncodeURIComponent(s)) == s
  {
    DecodeEncode(s);
  }

  /** A value without `%` is left as it is; in particular `+` is not read as a space. */
  lemma SafeDecodeWithoutPercent(s: string)
    requires '%' !in s
    ensures SafeDecode(s) == s
  {
    DecodeWithoutPercent(s);
  }

  /** A stray `%` makes `decodeURIComponent` throw, and the value is kept. */
  lemma SafeDecodeStrayPercent()
    ensures DecodeURIComponent("100%").None?
    ensures SafeDecode("100%") == "100%"
  {
    assert "100%"[1..] == "00%" && "00%"[1..] == "0%" && "0%"[1..] == "%";
  }

  /** An overlong UTF-8 form is rejected as a whole, not decoded byte by byte. */
  lemma SafeDecodeOverlong()
    ensures DecodeURIComponent("%C0%80").None?
    ensures SafeDecode("%C0%80") == "%C0%80"
  {
    assert EscapeAt("%C0%80") == Some(0xC0);
  }

  /** A well-formed escape decodes: `a%20b` becomes `a b`. */
  lemma SafeDecodeSpace()
    ensures SafeDecode("a%20b") == "a b"
  {
    assert "b"[0] == 'b' && "b"[1..] == "";
    assert DecodeURIComponent("") == Some("");
    assert ['b'] + "" == "b";
    assert DecodeURIComponent("b") == Some("b");
    assert EscapeAt("%20b") == Some(0x20);
    assert "%20b"[3..] == "b";
    var space: seq<Byte> := [0x20];
    assert EscapesAt("b", 0) == Some([]);
    assert space == [0x20 as Byte] + [];
    assert EscapesAt("%20b", 1) == Some(space);
    assert WellFormed(space) && CodePoint(space) == 0x20;
    assert SequenceLength(0x20) == 1 && 3 * 1 == 3;
    assert "%20b"[0] == '%';
    assert (0x20 as char) == ' ' && [' '] + "b" == " b";
    assert DecodeURIComponent("%20b") == Some(" b");
    assert "a%20b"[1..] == "%20b";
  }

  /** An escaped ampersand decodes: `a%26b` becomes `a&b`. */
  lemma SafeDecodeAmpersand()
    ensures SafeDecode("a%26b") == "a&b"
  {
    assert "b"[0] == 'b' && "b"[1..] == "";
    assert DecodeURIComponent("") == Some("");
    assert ['b'] + "" == "b";
    assert DecodeURIComponent("b") == Some("b");
    assert EscapeAt("%26b") == Some(0x26);
    assert "%26b"[3..] == "b";
    var amp: seq<Byte> := [0x26];
    assert EscapesAt("b", 0) == Some([]);
    assert amp == [0x26 as Byte] + [];
    assert EscapesAt("%26b", 1) == Some(amp);
    assert WellFormed(amp) && CodePoint(amp) == 0x26;
    assert SequenceLength(0x26) == 1 && 3 * 1 == 3;
    assert "%26b"[0] == '%';
    assert (0x26 as char) == '&' && ['&'] + "b" == "&b";
    assert DecodeURIComponent("%26b") == Some("&b");
    assert "a%26b"[1..] == "%26b";
  }
}
