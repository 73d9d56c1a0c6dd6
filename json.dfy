/**
 * `JSON.stringify` (with no replacer and no indentation) on the payload
 * values of this model: section 25.5.2 of ECMA-262.
 */
module Json {
  import opened Wrappers
  import opened Text
  import opened Payload

  function HexLower(d: nat): char
    requires d < 16
  {
    if d < 10 then ('0' as int + d) as char else ('a' as int + d - 10) as char
  }

  /** QuoteJSONString's treatment of one character. */
  function EscapeChar(c: char): string
  {
    if c == '"' then "\\\""
    else if c == '\\' then "\\\\"
    else if c == '\U{8}' then "\\b"
    else if c == '\t' then "\\t"
    else if c == '\n' then "\\n"
    else if c == '\U{C}' then "\\f"
    else if c == '\r' then "\\r"
    else if c < ' ' then "\\u00" + [HexLower(c as int / 16), HexLower(c as int % 16)]
    else [c]
  }

  /** A character JSON writes as itself. */
  predicate Plain(c: char)
  {
    c >= ' ' && c != '"' && c != '\\'
  }

  function Escape(s: string): string
  {
    if s == [] then "" else EscapeChar(s[0]) + Escape(s[1..])
  }

  /** `JSON.stringify(s)` for a string. */
  function Quote(s: string): string
  {
    "\"" + Escape(s) + "\""
  }

  /** A string with no quote, backslash or control character is written verbatim between quotes. */
  lemma {:induction false} QuotePlain(s: string)
    requires forall i :: 0 <= i < |s| ==> Plain(s[i])
    ensures Quote(s) == "\"" + s + "\""
  {
    EscapePlain(s);
  }

  lemma {:induction false} EscapePlain(s: string)
    requires forall i :: 0 <= i < |s| ==> Plain(s[i])
    ensures Escape(s) == s
  {
    if s != [] {
      EscapePlain(s[1..]);
      assert s == [s[0]] + s[1..];
    }
  }

  /**
   * `JSON.stringify(v)`: `None` stands for the `undefined` that
   * `JSON.stringify(undefined)` returns.
   */
  function Stringify(v: Value): (r: Option<string>)
    ensures r.None? <==> v.Undefined?
    decreases v, 0
  {
    match v
    case Str(s) => Some(Quote(s))
    case Num(n) => Some(IntToString(n))
    case Bool(b) => Some(if b then "true" else "false")
    case Null => Some("null")
    case Undefined => None
    case Obj(fields) => Some(StringifyObject(fields))
    case Arr(items) => Some("[" + Join(",", StringifyItems(items)) + "]")
  }

  /** An object: members whose value is `undefined` are left out. */
  function StringifyObject(fields: seq<Entry>): string
    decreases fields, 2
  {
    "{" + Join(",", StringifyMembers(fields)) + "}"
  }

  function StringifyMembers(fields: seq<Entry>): seq<string>
    decreases fields, 1
  {
    if fields == [] then []
    else
      var e := fields[0];
      match Stringify(e.value)
      case None => StringifyMembers(fields[1..])
      case Some(t) => [Quote(e.key) + ":" + t] + StringifyMembers(fields[1..])
  }

  function StringifyItems(items: seq<Item>): (r: seq<string>)
    ensures |r| == |items|
    decreases items
  {
    if items == [] then [] else [StringifyObject(items[0].fields)] + StringifyItems(items[1..])
  }
}
