/**
 * The response envelope of src/schemas.ts (`createResponseSchema`) and the
 * three data schemas the client plugs into it.
 *
 * The envelope is a passthrough object whose `code` is coerced with
 * JavaScript's `Number(...)`, whose `msg`, `message`, `sign`, `status_code`,
 * `status_msg`, `time_stamp` and `version` are optional strings, and whose
 * optional `data` is checked by the data schema of the endpoint.
 */
module Responses {
  import opened Wrappers
  import opened Text
  import opened Payload
  import opened Schemas
  import opened Lists

  // ---------------------------------------------------------------------
  // Number(...) as z.coerce.number() applies it

  /** The characters `Number(s)` ignores around a numeral (WhiteSpace and LineTerminator of ECMA-262). */
  predicate JsSpace(c: char)
  {
    var n := c as int;
    (0x09 <= n <= 0x0D) || n == 0x20 || n == 0xA0 || n == 0x1680 || (0x2000 <= n <= 0x200A) ||
    n == 0x2028 || n == 0x2029 || n == 0x202F || n == 0x205F || n == 0x3000 || n == 0xFEFF
  }

  function TrimStart(s: string): (r: string)
    ensures |r| <= |s| && r == s[|s| - |r|..]
    ensures forall i :: 0 <= i < |s| - |r| ==> JsSpace(s[i])
    ensures r == [] || !JsSpace(r[0])
  {
    if s != [] && JsSpace(s[0]) then TrimStart(s[1..]) else s
  }

  function TrimEnd(s: string): (r: string)
    ensures |r| <= |s| && r == s[..|r|]
    ensures forall i :: |r| <= i < |s| ==> JsSpace(s[i])
    ensures r == [] || !JsSpace(r[|r| - 1])
  {
    if s != [] && JsSpace(s[|s| - 1]) then TrimEnd(s[..|s| - 1]) else s
  }

  predicate AllDigits(s: string)
  {
    forall i :: 0 <= i < |s| ==> IsDigit(s[i])
  }

  /**
   * `Number(s)` for a string, `None` standing for `NaN`: white space around
   * the numeral is ignored, blank text is 0, and an optionally signed run of
   * decimal digits is its value.
   */
  function StringToNumber(s: string): Option<int>
  {
    var t := TrimEnd(TrimStart(s));
    if t == [] then Some(0)
    else if t[0] == '-' && |t| > 1 && AllDigits(t[1..]) then Some(-DigitsValue(t[1..]))
    else if t[0] == '+' && |t| > 1 && AllDigits(t[1..]) then Some(DigitsValue(t[1..]))
    else if AllDigits(t) then Some(DigitsValue(t))
    else None
  }

  /**
   * `Number(v)`, `None` standing for `NaN`. `null`, `false` and `[]` are 0,
   * `true` is 1; `undefined` and plain objects are `NaN`, and so is an array
   * of objects, whose text is `[object Object]`.
   */
  function ToNumber(v: Value): Option<int>
  {
    match v
    case Str(s) => StringToNumber(s)
    case Num(n) => Some(n)
    case Bool(b) => Some(if b then 1 else 0)
    case Null => Some(0)
    case Undefined => None
    case Obj(_) => None
    case Arr(items) => if items == [] then Some(0) else None
  }

  lemma TrimPlain(s: string)
    requires s != [] && !JsSpace(s[0]) && !JsSpace(s[|s| - 1])
    ensures TrimEnd(TrimStart(s)) == s
  {
  }

  lemma DigitsAreNotSpace(d: string)
    requires AllDigits(d)
    ensures forall i :: 0 <= i < |d| ==> !JsSpace(d[i])
  {
  }

  lemma UnsignedDigits(d: string)
    requires d != [] && AllDigits(d)
    ensures StringToNumber(d) == Some(DigitsValue(d))
  {
    DigitsAreNotSpace(d);
    TrimPlain(d);
    assert d[0] != '-' && d[0] != '+' by { assert IsDigit(d[0]); }
  }

  lemma NegatedDigits(d: string)
    requires d != [] && AllDigits(d)
    ensures StringToNumber("-" + d) == Some(-DigitsValue(d))
  {
    DigitsAreNotSpace(d);
    var m := "-" + d;
    assert m[1..] == d && m[|m| - 1] == d[|d| - 1];
    TrimPlain(m);
    var t := TrimEnd(TrimStart(m));
    assert t == m;
    assert t[0] == '-' && |t| > 1 && AllDigits(t[1..]);
  }

  /** `Number(String(n)) === n`: the coercion reads back the decimal text of any integer. */
  lemma NumberOfDecimalText(n: int)
    ensures StringToNumber(IntToString(n)) == Some(n)
  {
    var d := NatToString(if n < 0 then -n else n);
    assert AllDigits(d);
    NatToStringValue(if n < 0 then -n else n);
    if n < 0 {
      assert IntToString(n) == "-" + d;
      NegatedDigits(d);
    } else {
      assert IntToString(n) == d;
      UnsignedDigits(d);
    }
  }

  /** Blank text coerces to 0, not to `NaN`. */
  lemma BlankIsZero(s: string)
    requires forall i :: 0 <= i < |s| ==> JsSpace(s[i])
    ensures StringToNumber(s) == Some(0)
  {
  }

  /**
   * A character that occurs in some JavaScript numeric literal: a digit, a
   * sign, the decimal point, an exponent or radix letter, a hexadecimal
   * digit or a letter of `Infinity`.
   */
  predicate NumeralChar(c: char)
  {
    IsDigit(c) || c in "+-.xXoObBInfity" || 'a' <= c <= 'f' || 'A' <= c <= 'F'
  }

  /**
   * Text holding a character that no numeric literal uses (and that is not
   * white space) is `NaN`.
   */
  lemma NonNumericIsNaN(s: string, i: nat)
    requires i < |s| && !NumeralChar(s[i]) && !JsSpace(s[i])
    ensures StringToNumber(s) == None
  {
    var u := TrimStart(s);
    var t := TrimEnd(u);
    var j := i - (|s| - |u|);
    assert 0 <= j < |t| && t[j] == s[i];
    assert !AllDigits(t) by { assert !IsDigit(t[j]); }
    if j == 0 {
      assert t[0] != '-' && t[0] != '+';
    } else {
      assert !AllDigits(t[1..]) by { assert t[1..][j - 1] == t[j]; }
    }
  }

  // ---------------------------------------------------------------------
  // The envelope

  /** The declared keys of the envelope, in declaration order. */
  datatype Slot = Code | StringSlot(name: string) | Data

  const Shape: seq<Slot> := [
    Code, StringSlot("msg"), StringSlot("message"), Data, StringSlot("sign"),
    StringSlot("status_code"), StringSlot("status_msg"), StringSlot("time_stamp"), StringSlot("version")]

  function SlotName(slot: Slot): string
  {
    match slot
    case Code => "code"
    case StringSlot(n) => n
    case Data => "data"
  }

  function SlotNames(slots: seq<Slot>): (ns: seq<string>)
    ensures |ns| == |slots|
    ensures forall i :: 0 <= i < |slots| ==> ns[i] == SlotName(slots[i])
  {
    seq(|slots|, i requires 0 <= i < |slots| => SlotName(slots[i]))
  }

  /** Issues of a nested schema, moved under the key `p`. */
  function Under(p: string, issues: seq<Issue>): (r: seq<Issue>)
    ensures |r| == |issues|
    ensures forall i :: 0 <= i < |issues| ==> r[i] == Issue([p] + issues[i].path, issues[i].message)
  {
    if issues == [] then [] else [Issue([p] + issues[0].path, issues[0].message)] + Under(p, issues[1..])
  }

  /** One key of the envelope: its parsed value, or its issues. */
  function ParseSlot(ds: ObjectSchema, slot: Slot, x: Value): (r: Result<Value, seq<Issue>>)
    ensures r.Failure? ==> |r.error| > 0
  {
    match slot
    case Code =>
      (match ToNumber(x)
       case Some(n) => Success(Num(n))
       case None => Failure([Issue(["code"], "Expected number, received nan")]))
    case StringSlot(n) =>
      if x.Undefined? || x.Str? then Success(x)
      else Failure([Issue([n], "Expected string, received " + TypeName(x))])
    case Data =>
      if x.Undefined? then Success(x)
      else if !x.Obj? then Failure([Issue(["data"], "Expected object, received " + TypeName(x))])
      else
        NoAbortMeansIssueFree(ds.fields, x.fields);
        match Parse(ds, x.fields)
        case Success(out) => Success(Obj(out))
        case Failure(issues) => Failure(Under("data", issues))
  }

  /** What a key of the envelope admits, stated directly. */
  predicate SlotAccepts(ds: ObjectSchema, slot: Slot, x: Value)
  {
    match slot
    case Code => ToNumber(x).Some?
    case StringSlot(_) => x.Undefined? || x.Str?
    case Data => x.Undefined? || (x.Obj? && Accepts(ds, x.fields))
  }

  function SlotIssues(ds: ObjectSchema, slots: seq<Slot>, r: Record): seq<Issue>
  {
    if slots == [] then []
    else
      var here := match ParseSlot(ds, slots[0], Read(r, SlotName(slots[0])))
        case Success(_) => []
        case Failure(issues) => issues;
      here + SlotIssues(ds, slots[1..], r)
  }

  /** The declared keys present in the input, with their parsed values, in declaration order. */
  function SlotOutput(ds: ObjectSchema, slots: seq<Slot>, r: Record): Record
  {
    if slots == [] then []
    else
      var rest := SlotOutput(ds, slots[1..], r);
      var name := SlotName(slots[0]);
      if name !in KeySeq(r) then rest
      else match ParseSlot(ds, slots[0], Read(r, name))
        case Success(v) => [Entry(name, v)] + rest
        case Failure(_) => rest
  }

  /** `createResponseSchema(ds).parse(json)`: the parsed envelope, or the issues `parse` throws. */
  function ParseResponse(ds: ObjectSchema, json: Value): Result<Record, seq<Issue>>
  {
    if !json.Obj? then Failure([Issue([], "Expected object, received " + TypeName(json))])
    else
      var r := json.fields;
      var issues := SlotIssues(ds, Shape, r);
      if issues != [] then Failure(issues)
      else Success(SlotOutput(ds, Shape, r) + ExtraPart(SlotNames(Shape), r))
  }

  /** `{}` has no `code`, which coerces to `NaN`: the first issue is at `code`. */
  lemma EmptyObjectRejected(ds: ObjectSchema)
    ensures var out := ParseResponse(ds, Obj([]));
      out.Failure? && |out.error| > 0 && out.error[0] == Issue(["code"], "Expected number, received nan")
  {
    var r: Record := [];
    assert Shape[0] == Code;
    assert Read(r, "code") == Undefined;
    assert ParseSlot(ds, Code, Undefined) == Failure([Issue(["code"], "Expected number, received nan")]);
    assert SlotIssues(ds, Shape, r) == [Issue(["code"], "Expected number, received nan")] + SlotIssues(ds, Shape[1..], r);
  }

  /** What the envelope admits, stated directly: an object whose every declared key is acceptable. */
  predicate ResponseAccepted(ds: ObjectSchema, json: Value)
  {
    json.Obj? &&
    forall i :: 0 <= i < |Shape| ==> SlotAccepts(ds, Shape[i], Read(json.fields, SlotName(Shape[i])))
  }

  /** The data object of a response, when it has one, has unique keys (as anything `JSON.parse` returns). */
  predicate DataKeysUnique(json: Value)
  {
    json.Obj? && Read(json.fields, "data").Obj? ==> UniqueKeys(Read(json.fields, "data").fields)
  }

  // ---------------------------------------------------------------------
  // The data schemas

  /** `defaultDataSchema`: any object. */
  const DefaultData := OpenObject

  /** `gatewayPayResponseDataSchema`: a `pay_content` string; other keys are stripped. */
  const GatewayPayData := ObjectSchema([Field("pay_content", AnyString, false)], Strip, NoRefinement)

  /** `gatewayOrderQueryResponseDataSchema`: sixteen required fields; other keys are stripped. */
  const GatewayOrderQueryData := ObjectSchema(
    [Field("channel", AnyString, false), Field("openid", AnyString, false),
     Field("channel_order_no", AnyString, false), Field("cash_fee_type", AnyString, false),
     Field("ksher_order_no", AnyString, false), Field("nonce_str", AnyString, false),
     Field("time_end", AnyString, false), Field("fee_type", AnyString, false),
     Field("attach", AnyString, false), Field("rate", AnyString, false),
     Field("result", AnyString, false), Field("total_fee", Amount, false),
     Field("appid", AnyString, false), Field("cash_fee", Amount, false),
     Field("mch_order_no", AnyString, false), Field("pay_mch_order_no", AnyString, false)],
    Strip, NoRefinement)

  // ---------------------------------------------------------------------
  // Properties

  lemma SlotParses(ds: ObjectSchema, slot: Slot, x: Value)
    requires RefinesDeclared(ds) && (slot.Data? && x.Obj? ==> UniqueKeys(x.fields))
    ensures ParseSlot(ds, slot, x).Success? <==> SlotAccepts(ds, slot, x)
    ensures ParseSlot(ds, slot, x).Success? ==> ParseSlot(ds, slot, x).value == SlotValue(ds, slot, x)
  {
    if slot.Data? && x.Obj? {
      ParseIsAccepts(ds, x.fields);
    }
  }

  /** The value a key of the envelope parses to: `code` as a number, `data` as its schema's output. */
  function SlotValue(ds: ObjectSchema, slot: Slot, x: Value): Value
  {
    match slot
    case Code => if ToNumber(x).Some? then Num(ToNumber(x).value) else Undefined
    case StringSlot(_) => x
    case Data => if x.Obj? then Obj(Output(ds, x.fields)) else x
  }

  lemma {:induction false} SlotIssuesEmpty(ds: ObjectSchema, slots: seq<Slot>, r: Record)
    ensures SlotIssues(ds, slots, r) == [] <==>
      forall i :: 0 <= i < |slots| ==> ParseSlot(ds, slots[i], Read(r, SlotName(slots[i]))).Success?
  {
    if slots != [] {
      SlotIssuesEmpty(ds, slots[1..], r);
      assert forall i :: 1 <= i < |slots| ==> slots[i] == slots[1..][i - 1];
    }
  }

  lemma SlotsAccepted(ds: ObjectSchema, slots: seq<Slot>, r: Record)
    requires RefinesDeclared(ds) && (Read(r, "data").Obj? ==> UniqueKeys(Read(r, "data").fields))
    ensures SlotIssues(ds, slots, r) == [] <==>
      forall i :: 0 <= i < |slots| ==> SlotAccepts(ds, slots[i], Read(r, SlotName(slots[i])))
  {
    SlotIssuesEmpty(ds, slots, r);
    forall i | 0 <= i < |slots|
      ensures ParseSlot(ds, slots[i], Read(r, SlotName(slots[i]))).Success? <==>
        SlotAccepts(ds, slots[i], Read(r, SlotName(slots[i])))
    {
      SlotParses(ds, slots[i], Read(r, SlotName(slots[i])));
    }
  }

  /** `parse` accepts exactly the envelopes `ResponseAccepted` describes. */
  lemma ParseResponseIsAccepted(ds: ObjectSchema, json: Value)
    requires RefinesDeclared(ds) && DataKeysUnique(json)
    ensures ParseResponse(ds, json).Success? <==> ResponseAccepted(ds, json)
  {
    if json.Obj? {
      SlotsAccepted(ds, Shape, json.fields);
    }
  }

  lemma {:induction false} SlotOutputOthers(ds: ObjectSchema, slots: seq<Slot>, r: Record, k: string)
    requires k !in SlotNames(slots)
    ensures k !in KeySeq(SlotOutput(ds, slots, r))
  {
    if slots != [] {
      assert SlotNames(slots) == [SlotName(slots[0])] + SlotNames(slots[1..]);
      SlotOutputOthers(ds, slots[1..], r, k);
      var rest := SlotOutput(ds, slots[1..], r);
      assert forall e :: KeySeq([e] + rest) == [e.key] + KeySeq(rest);
    }
  }

  lemma {:induction false} SlotOutputGet(ds: ObjectSchema, slots: seq<Slot>, r: Record, i: nat)
    requires Distinct(SlotNames(slots)) && i < |slots|
    requires ParseSlot(ds, slots[i], Read(r, SlotName(slots[i]))).Success?
    ensures Get(SlotOutput(ds, slots, r), SlotName(slots[i])) ==
      if SlotName(slots[i]) in KeySeq(r) then Some(ParseSlot(ds, slots[i], Read(r, SlotName(slots[i]))).value) else None
  {
    var names := SlotNames(slots);
    assert names[1..] == SlotNames(slots[1..]);
    assert Distinct(names[1..]);
    if i > 0 {
      assert slots[i] == slots[1..][i - 1];
      SlotOutputGet(ds, slots[1..], r, i - 1);
      assert SlotName(slots[0]) != SlotName(slots[i]) by {
        assert names[0] != names[i];
      }
      var out, rest := SlotOutput(ds, slots, r), SlotOutput(ds, slots[1..], r);
      assert out == rest || (out != [] && out[0].key == SlotName(slots[0]) && out[1..] == rest);
    } else {
      assert SlotName(slots[0]) !in names[1..];
      SlotOutputOthers(ds, slots[1..], r, SlotName(slots[0]));
    }
  }

  lemma ShapeNamesDistinct()
    ensures SlotNames(Shape) == ["code", "msg", "message", "data", "sign", "status_code", "status_msg", "time_stamp", "version"]
    ensures Distinct(SlotNames(Shape))
  {
    EnvelopeNamesDistinct();
  }

  lemma EnvelopeNamesDistinct()
    ensures Distinct(["code", "msg", "message", "data", "sign", "status_code", "status_msg", "time_stamp", "version"])
  {
  }

  /** A declared key of a parsed envelope holds the parsed value of that key, when the JSON has it. */
  lemma ParsedSlot(ds: ObjectSchema, json: Value, i: nat)
    requires RefinesDeclared(ds) && DataKeysUnique(json) && ParseResponse(ds, json).Success?
    requires UniqueKeys(json.fields) && i < |Shape|
    ensures var r, out, name := json.fields, ParseResponse(ds, json).value, SlotName(Shape[i]);
      Read(out, name) == if name in KeySeq(r) then SlotValue(ds, Shape[i], Read(r, name)) else Undefined
  {
    var r, out := json.fields, ParseResponse(ds, json).value;
    var names := SlotNames(Shape);
    var name := names[i];
    ShapeNamesDistinct();
    SlotsAccepted(ds, Shape, r);
    SlotIssuesEmpty(ds, Shape, r);
    SlotParses(ds, Shape[i], Read(r, name));
    SlotOutputGet(ds, Shape, r, i);
    GetAppend(SlotOutput(ds, Shape, r), ExtraPart(names, r), name);
    ExtraPartGet(names, r, name);
  }

  /** An undeclared key of a parsed envelope reads as it does in the JSON: the envelope is passthrough. */
  lemma ParsedExtra(ds: ObjectSchema, json: Value, k: string)
    requires ParseResponse(ds, json).Success? && UniqueKeys(json.fields)
    requires k !in ["code", "msg", "message", "data", "sign", "status_code", "status_msg", "time_stamp", "version"]
    ensures Read(ParseResponse(ds, json).value, k) == Read(json.fields, k)
  {
    var r := json.fields;
    var names := SlotNames(Shape);
    ShapeNamesDistinct();
    SlotOutputOthers(ds, Shape, r, k);
    GetAppend(SlotOutput(ds, Shape, r), ExtraPart(names, r), k);
    ExtraPartGet(names, r, k);
  }

  /** A parsed envelope holds `code` as the number `Number(code)` gives; a `NaN` code is rejected. */
  lemma ParsedCode(ds: ObjectSchema, json: Value)
    requires RefinesDeclared(ds) && DataKeysUnique(json)
    requires ParseResponse(ds, json).Success? && UniqueKeys(json.fields)
    ensures var r, out := json.fields, ParseResponse(ds, json).value;
      ToNumber(Read(r, "code")).Some? && Read(out, "code") == Num(ToNumber(Read(r, "code")).value)
  {
    var r := json.fields;
    var x := Read(r, "code");
    assert ToNumber(x).Some? by {
      ParseResponseIsAccepted(ds, json);
      assert Shape[0] == Code;
    }
    assert "code" in KeySeq(r) by {
      assert x != Undefined;
    }
    ParsedSlot(ds, json, 0);
    assert SlotName(Shape[0]) == "code";
  }

  /** A parsed envelope holds in `data` what the data schema made of it, or nothing. */
  lemma ParsedData(ds: ObjectSchema, json: Value)
    requires RefinesDeclared(ds) && DataKeysUnique(json)
    requires ParseResponse(ds, json).Success? && UniqueKeys(json.fields)
    ensures var r, out := json.fields, ParseResponse(ds, json).value;
      && (Read(r, "data").Obj? ==> Accepts(ds, Read(r, "data").fields))
      && (Read(r, "data").Obj? ==> Read(out, "data") == Obj(Output(ds, Read(r, "data").fields)))
      && (!Read(r, "data").Obj? ==> Read(out, "data") == Undefined)
  {
    var r, out := json.fields, ParseResponse(ds, json).value;
    var x := Read(r, "data");
    assert Shape[3] == Data && SlotName(Shape[3]) == "data";
    assert SlotAccepts(ds, Data, x) by {
      ParseResponseIsAccepted(ds, json);
      assert SlotAccepts(ds, Shape[3], Read(r, SlotName(Shape[3])));
    }
    ParsedSlot(ds, json, 3);
    if x.Obj? {
      assert "data" in KeySeq(r) by { assert x != Undefined; }
      assert Read(out, "data") == Obj(Output(ds, x.fields));
    } else {
      assert Read(out, "data") == Undefined by {
        if "data" in KeySeq(r) {
          assert Read(out, "data") == SlotValue(ds, Data, x);
        }
      }
    }
  }

  /** The optional string keys of a parsed envelope are as in the JSON, and are strings when present. */
  lemma ParsedStrings(ds: ObjectSchema, json: Value, i: nat)
    requires RefinesDeclared(ds) && DataKeysUnique(json)
    requires ParseResponse(ds, json).Success? && UniqueKeys(json.fields)
    requires i < |Shape| && Shape[i].StringSlot?
    ensures var r, out, k := json.fields, ParseResponse(ds, json).value, Shape[i].name;
      Read(out, k) == Read(r, k) && (Read(r, k).Str? || Read(r, k).Undefined?)
  {
    ParseResponseIsAccepted(ds, json);
    assert SlotAccepts(ds, Shape[i], Read(json.fields, Shape[i].name));
    ParsedSlot(ds, json, i);
  }

  /** The envelope a body that is not JSON falls back to, `{ code: status, msg: rawText }`, always parses. */
  lemma FallbackParses(status: int, raw: string)
    ensures ParseResponse(DefaultData, Obj([Entry("code", Num(status)), Entry("msg", Str(raw))])).Success?
    ensures ParseResponse(GatewayPayData, Obj([Entry("code", Num(status)), Entry("msg", Str(raw))])).Success?
    ensures ParseResponse(GatewayOrderQueryData, Obj([Entry("code", Num(status)), Entry("msg", Str(raw))])).Success?
  {
    var json := Obj([Entry("code", Num(status)), Entry("msg", Str(raw))]);
    var r := json.fields;
    assert r[1..] == [Entry("msg", Str(raw))];
    assert "code" != "msg" by { assert "code"[0] != "msg"[0]; }
    assert Get(r, "msg") == Some(Str(raw));
    assert Read(r, "code") == Num(status);
    assert Read(r, "msg") == Str(raw);
    assert Read(r, "data") == Undefined;
    forall ds: ObjectSchema, i | 0 <= i < |Shape| ensures SlotAccepts(ds, Shape[i], Read(r, SlotName(Shape[i]))) {
    }
    SchemasRefineDeclared();
    ParseResponseIsAccepted(DefaultData, json);
    ParseResponseIsAccepted(GatewayPayData, json);
    ParseResponseIsAccepted(GatewayOrderQueryData, json);
  }

  /** A successful response of the gateway-pay endpoint carries only `pay_content` in its data. */
  lemma GatewayPayDataStripped(json: Value, k: string)
    requires DataKeysUnique(json) && ParseResponse(GatewayPayData, json).Success? && UniqueKeys(json.fields)
    requires Read(json.fields, "data").Obj?
    ensures var d := Read(ParseResponse(GatewayPayData, json).value, "data");
      d.Obj? && Read(d.fields, "pay_content").Str? &&
      (k != "pay_content" ==> Get(d.fields, k) == None)
  {
    var data := Read(json.fields, "data").fields;
    ParsedData(GatewayPayData, json);
    AcceptedField(GatewayPayData, data, 0);
    OutputReads(GatewayPayData, data, k);
    OutputReads(GatewayPayData, data, "pay_content");
  }
}
