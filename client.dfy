/**
 * The request pipeline of `createKsherClient` (src/client.ts): a call is
 * validated against its endpoint's request schema, rewritten (decode and
 * omit fields), given the `appid`/`nonce_str`/`time_stamp` header, signed,
 * sent as a form body, and its answer is parsed as a response envelope
 * whose signature is checked when `code` is 0. `orderCreate` maps its own
 * input onto a gateway-pay request.
 *
 * The transport is a parameter: the model computes what is sent and takes
 * the HTTP status and body text of the answer as inputs. So are the
 * random draws of the nonce, the clock, `JSON.parse` and the RSA signer
 * and verifier.
 */
module Client {
  import opened Wrappers
  import opened Text
  import opened Payload
  import Schemas
  import Responses
  import opened Endpoints
  import opened Fields
  import opened Form
  import opened Canonical
  import opened Signing
  import opened Utils

  // ---------------------------------------------------------------------
  // formatZodError

  const RequestErrorPrefix := "Invalid request: "

  /** Where an issue is: its path joined with dots, or `input` for the object itself. */
  function IssuePath(path: seq<string>): string
  {
    if |path| > 0 then Join(".", path) else "input"
  }

  function IssueText(issue: Schemas.Issue): string
  {
    IssuePath(issue.path) + ": " + issue.message
  }

  function IssueTexts(issues: seq<Schemas.Issue>): (ts: seq<string>)
    ensures |ts| == |issues|
    ensures forall i :: 0 <= i < |issues| ==> ts[i] == IssueText(issues[i])
  {
    seq(|issues|, i requires 0 <= i < |issues| => IssueText(issues[i]))
  }

  /** The message of the `TypeError` a rejected request throws. */
  function FormatZodError(issues: seq<Schemas.Issue>): (m: string)
    ensures |RequestErrorPrefix| <= |m| && m[..|RequestErrorPrefix|] == RequestErrorPrefix
  {
    RequestErrorPrefix + Join("; ", IssueTexts(issues))
  }

  /** The message names every issue: each one's `path: message` text appears whole after the prefix. */
  lemma FormatNamesEveryIssue(issues: seq<Schemas.Issue>, j: nat)
    requires j < |issues|
    ensures var m, t := FormatZodError(issues), IssueText(issues[j]);
      var o := |RequestErrorPrefix| + JoinOffset("; ", IssueTexts(issues), j);
      o + |t| <= |m| && m[o..o + |t|] == t
  {
    var parts := IssueTexts(issues);
    var body := Join("; ", parts);
    var o := JoinOffset("; ", parts, j);
    assert parts[j] == IssueText(issues[j]);
    assert FormatZodError(issues) == RequestErrorPrefix + body;
    SliceAfter(RequestErrorPrefix, body, o, o + |parts[j]|);
  }

  /** Two empty order numbers: the length issue of `mch_order_no` first, then the refinement's, at `input`. */
  lemma QueryByOrderEmptyMessage()
    ensures var r := [Entry("mch_order_no", Str("")), Entry("ksher_order_no", Str(""))];
      Schemas.Parse(Schemas.QueryByOrder, r).Failure? &&
      FormatZodError(Schemas.Parse(Schemas.QueryByOrder, r).error) ==
        RequestErrorPrefix + ("mch_order_no" + ": " + Schemas.TooShort) + "; " +
        ("input" + ": " + "mch_order_no or ksher_order_no is required")
  {
    Schemas.QueryByOrderEmptyStrings();
    var issues := [Schemas.Issue(["mch_order_no"], Schemas.TooShort),
                   Schemas.Issue([], "mch_order_no or ksher_order_no is required")];
    var t0 := "mch_order_no" + ": " + Schemas.TooShort;
    var t1 := "input" + ": " + "mch_order_no or ksher_order_no is required";
    assert IssuePath(["mch_order_no"]) == "mch_order_no";
    assert IssueText(issues[0]) == t0;
    assert IssueText(issues[1]) == t1;
    assert IssueTexts(issues) == [t0, t1];
    assert Join("; ", [t0, t1]) == t0 + "; " + t1;
  }

  // ---------------------------------------------------------------------
  // Reading the answer

  /** What the transport gives back: the HTTP status and the body text. */
  datatype Reply = Reply(status: int, text: string)

  /** `rawText ? JSON.parse(rawText) : {}`, falling back to `{ code: status, msg: rawText }` when the text is not JSON. */
  function ParseBody(reply: Reply, jsonParse: string -> Option<Value>): Value
  {
    if reply.text == "" then Obj([])
    else match jsonParse(reply.text)
      case Some(json) => json
      case None => Obj(Fallback(reply.status, reply.text))
  }

  const SignatureFailedMessage := "verify signature failed"

  /** What a request throws. */
  datatype RequestError =
    | InvalidRequest(message: string)                   // the TypeError of a rejected request
    | InvalidResponse(issues: seq<Schemas.Issue>)       // the ZodError of an envelope that does not parse
    | SignatureRejected(message: string, response: Record)  // KsherSignatureError

  /** The parsed envelope, unless it does not parse or it reports success (code 0) without a valid signature. */
  function ResponseOutcome(op: Operation, json: Value, verify: (string, Value) -> bool): Result<Record, RequestError>
  {
    match Responses.ParseResponse(ResponseData(op), json)
    case Failure(issues) => Failure(InvalidResponse(issues))
    case Success(response) =>
      if Read(response, "code") == Num(0) && !VerifySignature(response, verify)
      then Failure(SignatureRejected(SignatureFailedMessage, response))
      else Success(response)
  }

  lemma ResponseDataRefines(op: Operation)
    ensures Schemas.RefinesDeclared(ResponseData(op))
  {
    ResponseDataSchemas(op);
  }

  /**
   * An answer is returned exactly when its envelope is acceptable and it
   * either reports something other than success or carries a signature
   * that verifies; the signature is checked only for code 0.
   */
  lemma ResponseOutcomeDecides(op: Operation, json: Value, verify: (string, Value) -> bool)
    requires Responses.DataKeysUnique(json)
    ensures var out := ResponseOutcome(op, json, verify);
      out.Failure? && out.error.InvalidResponse? <==> !Responses.ResponseAccepted(ResponseData(op), json)
    ensures var out, parsed := ResponseOutcome(op, json, verify), Responses.ParseResponse(ResponseData(op), json);
      out.Success? <==> parsed.Success? && (Read(parsed.value, "code") != Num(0) || VerifySignature(parsed.value, verify))
    ensures var out := ResponseOutcome(op, json, verify);
      out.Success? ==> out.value == Responses.ParseResponse(ResponseData(op), json).value
    ensures var out := ResponseOutcome(op, json, verify);
      out.Failure? && out.error.SignatureRejected? ==> Read(out.error.response, "code") == Num(0)
  {
    ResponseDataRefines(op);
    Responses.ParseResponseIsAccepted(ResponseData(op), json);
  }

  /** A success envelope without data or without a signature is rejected, whatever the verifier says. */
  lemma UnsignedSuccessRejected(op: Operation, json: Value, verify: (string, Value) -> bool)
    requires Responses.ParseResponse(ResponseData(op), json).Success?
    requires var r := Responses.ParseResponse(ResponseData(op), json).value;
      Read(r, "code") == Num(0) && (!Truthy(Read(r, "data")) || !Truthy(Read(r, SignKey)))
    ensures ResponseOutcome(op, json, verify) ==
      Failure(SignatureRejected(SignatureFailedMessage, Responses.ParseResponse(ResponseData(op), json).value))
  {
  }

  /** An empty body parses as `{}`, whose missing code is `NaN`: the envelope is rejected at `code`. */
  lemma EmptyBodyRejected(op: Operation, status: int, jsonParse: string -> Option<Value>, verify: (string, Value) -> bool)
    ensures var out := ResponseOutcome(op, ParseBody(Reply(status, ""), jsonParse), verify);
      out.Failure? && out.error.InvalidResponse? &&
      |out.error.issues| > 0 && out.error.issues[0] == Schemas.Issue(["code"], "Expected number, received nan")
  {
    var json := ParseBody(Reply(status, ""), jsonParse);
    assert json == Obj([]);
    Responses.EmptyObjectRejected(ResponseData(op));
    InvalidOutcome(op, json, verify);
  }

  /** A response the envelope schema rejects is thrown with the schema's issues. */
  lemma InvalidOutcome(op: Operation, json: Value, verify: (string, Value) -> bool)
    requires Responses.ParseResponse(ResponseData(op), json).Failure?
    ensures ResponseOutcome(op, json, verify) == Failure(InvalidResponse(Responses.ParseResponse(ResponseData(op), json).error))
  {
  }

  /** The fallback envelope `{ code: status, msg: body }`. */
  function Fallback(status: int, text: string): Record
  {
    [Entry("code", Num(status)), Entry("msg", Str(text))]
  }

  lemma FallbackReads(status: int, text: string)
    ensures UniqueKeys(Fallback(status, text))
    ensures Read(Fallback(status, text), "code") == Num(status)
    ensures Read(Fallback(status, text), "msg") == Str(text)
    ensures Read(Fallback(status, text), "data") == Undefined
  {
    var r := Fallback(status, text);
    assert r[1..] == [Entry("msg", Str(text))];
    assert "code" != "msg" by { assert "code"[0] != "msg"[0]; }
    assert Get(r, "msg") == Some(Str(text));
  }

  /** The fallback envelope parses to itself, with no data. */
  lemma FallbackEnvelope(ds: Schemas.ObjectSchema, status: int, text: string)
    requires Schemas.RefinesDeclared(ds)
    requires Responses.ParseResponse(ds, Obj(Fallback(status, text))).Success?
    ensures var out := Responses.ParseResponse(ds, Obj(Fallback(status, text))).value;
      Read(out, "code") == Num(status) && Read(out, "msg") == Str(text) && Read(out, "data") == Undefined
  {
    var json := Obj(Fallback(status, text));
    FallbackReads(status, text);
    Responses.ParsedCode(ds, json);
    assert Responses.Shape[1] == Responses.StringSlot("msg");
    Responses.ParsedStrings(ds, json, 1);
    Responses.ParsedData(ds, json);
  }

  /**
   * A body that is not JSON stands for `{ code: status, msg: body }`: it is
   * returned with the HTTP status as its code, unless that status is 0,
   * which reads as an unsigned success and is rejected.
   */
  lemma UnparsableBody(op: Operation, reply: Reply, jsonParse: string -> Option<Value>, verify: (string, Value) -> bool)
    requires reply.text != "" && jsonParse(reply.text).None?
    ensures var out := ResponseOutcome(op, ParseBody(reply, jsonParse), verify);
      reply.status != 0 ==> out.Success? && Read(out.value, "code") == Num(reply.status) && Read(out.value, "msg") == Str(reply.text)
    ensures var out := ResponseOutcome(op, ParseBody(reply, jsonParse), verify);
      reply.status == 0 ==> out.Failure? && out.error.SignatureRejected?
  {
    var ds := ResponseData(op);
    var json := Obj(Fallback(reply.status, reply.text));
    assert ParseBody(reply, jsonParse) == json;
    assert Responses.ParseResponse(ds, json).Success? by {
      ResponseDataSchemas(op);
      Responses.FallbackParses(reply.status, reply.text);
    }
    ResponseDataRefines(op);
    FallbackEnvelope(ds, reply.status, reply.text);
    var response := Responses.ParseResponse(ds, json).value;
    assert !Truthy(Read(response, "data"));
    assert ResponseOutcome(op, json, verify) ==
      if reply.status == 0 then Failure(SignatureRejected(SignatureFailedMessage, response)) else Success(response);
  }

  // ---------------------------------------------------------------------
  // What is sent

  /** The `nonce_str` made of the first 32 draws: `generateRandomString(32)`. */
  function Nonce(draws: seq<nat>): (nonce: string)
    requires 32 <= |draws| && forall i :: 0 <= i < |draws| ==> draws[i] < |Alphabet|
    ensures |nonce| == 32
  {
    seq(32, i requires 0 <= i < 32 => Alphabet[draws[i]])
  }

  /** `withHeader`: the header, then the validated, decoded and trimmed request over it. */
  function Prepared(op: Operation, rc: ResolvedConfig, parsed: Record, nonce: string, now: int): Record
  {
    var definition := Endpoint(op);
    WithHeader(rc.appId, nonce, now, Omitted(Decoded(parsed, definition.decodeFields), definition.omitFields))
  }

  const FormContentType := Pair("Content-Type", "application/x-www-form-urlencoded")
  const SignVersionHeader := Pair("ksher-sign-version", "V2")

  /** The HTTP headers: the form content type, and the sign-version header when the client signs with V2. */
  function RequestHeaders(rc: ResolvedConfig): seq<Pair>
  {
    [FormContentType] + (if rc.signVersion == Some(V2) then [SignVersionHeader] else [])
  }

  /** A POST: where it goes, its headers, and the pairs of its form body. */
  datatype Outgoing = Outgoing(url: string, headers: seq<Pair>, body: seq<Pair>)

  /** The POST of a prepared request: its form body is the prepared object with its signature under `sign`. */
  function Post(op: Operation, rc: ResolvedConfig, prepared: Record, sign: string -> string): Outgoing
  {
    Outgoing(RequestUrl(op, rc), RequestHeaders(rc), FormPairs(Signed(prepared, sign(CanonicalString(prepared)))))
  }

  /** One call: what was sent (nothing when the request is rejected) and what it returns or throws. */
  datatype Exchange = Exchange(sent: Option<Outgoing>, result: Result<Record, RequestError>)

  /** `request(endpoint, data)`, given the nonce, the clock, the signer, the verifier, `JSON.parse` and the reply. */
  function Requested(op: Operation, rc: ResolvedConfig, data: Record, nonce: string, now: int,
                     sign: string -> string, verify: (string, Value) -> bool,
                     jsonParse: string -> Option<Value>, reply: Reply): Exchange
  {
    match Schemas.Parse(Endpoint(op).requestSchema, data)
    case Failure(issues) => Exchange(None, Failure(InvalidRequest(FormatZodError(issues))))
    case Success(parsed) =>
      Exchange(Some(Post(op, rc, Prepared(op, rc, parsed, nonce, now), sign)),
               ResponseOutcome(op, ParseBody(reply, jsonParse), verify))
  }

  /** The second half of `request`: parsing the answer and checking its signature. */
  method ReadResponse(op: Operation, reply: Reply, jsonParse: string -> Option<Value>, verify: (string, Value) -> bool)
    returns (result: Result<Record, RequestError>)
    ensures result == ResponseOutcome(op, ParseBody(reply, jsonParse), verify)
  {
    var parsedJson := ParseBody(reply, jsonParse);
    var parsedResponse := Responses.ParseResponse(ResponseData(op), parsedJson);
    if parsedResponse.Failure? {
      return Failure(InvalidResponse(parsedResponse.error));
    }
    var response := parsedResponse.value;
    if Read(response, "code") == Num(0) && !VerifySignature(response, verify) {
      result := Failure(SignatureRejected(SignatureFailedMessage, response));
    } else {
      result := Success(response);
    }
  }

  /** The first half of `request` after validation: the signed POST of the validated request. */
  method PrepareRequest(op: Operation, rc: ResolvedConfig, parsed: Record, draws: seq<nat>, now: int,
                        sign: string -> string)
    returns (post: Outgoing)
    requires 32 <= |draws| && forall i :: 0 <= i < |draws| ==> draws[i] < |Alphabet|
    ensures post == Post(op, rc, Prepared(op, rc, parsed, Nonce(draws), now), sign)
  {
    var definition := Endpoint(op);
    var decoded := ApplyDecodeFields(parsed, definition.decodeFields);
    var sanitized := ApplyOmitFields(decoded, definition.omitFields);
    var nonce := GenerateRandomString(32, draws);
    assert nonce == Nonce(draws);
    var withHeader := WithHeader(rc.appId, nonce, now, sanitized);
    var message := ConvertDataToString(withHeader);
    var body := BuildFormBody(Signed(withHeader, sign(message)));
    var headers := BuildHeaders(rc);
    post := Outgoing(RequestUrl(op, rc), headers, body);
  }

  /** The request headers, built as `request` builds them. */
  method BuildHeaders(rc: ResolvedConfig) returns (headers: seq<Pair>)
    ensures headers == RequestHeaders(rc)
  {
    headers := [FormContentType];
    if rc.signVersion == Some(V2) {
      headers := headers + [SignVersionHeader];
    }
  }

  /** `request(endpoint, data)`, step by step. */
  method Request(op: Operation, rc: ResolvedConfig, data: Record, draws: seq<nat>, now: int,
                 sign: string -> string, verify: (string, Value) -> bool,
                 jsonParse: string -> Option<Value>, reply: Reply)
    returns (sent: Option<Outgoing>, result: Result<Record, RequestError>)
    requires 32 <= |draws| && forall i :: 0 <= i < |draws| ==> draws[i] < |Alphabet|
    ensures Exchange(sent, result) == Requested(op, rc, data, Nonce(draws), now, sign, verify, jsonParse, reply)
    ensures sent.None? <==> Schemas.Parse(Endpoint(op).requestSchema, data).Failure?
    ensures sent.None? ==> result.Failure? && result.error.InvalidRequest?
  {
    var parsedResult := Schemas.Parse(Endpoint(op).requestSchema, data);
    if parsedResult.Failure? {
      return None, Failure(InvalidRequest(FormatZodError(parsedResult.error)));
    }
    var post := PrepareRequest(op, rc, parsedResult.value, draws, now, sign);
    sent := Some(post);
    result := ReadResponse(op, reply, jsonParse, verify);
  }

  /**
   * A request is sent exactly when its endpoint's schema accepts it;
   * otherwise the call throws the formatted issues, and there is at least one.
   */
  lemma SentIffAccepted(op: Operation, rc: ResolvedConfig, data: Record, nonce: string, now: int,
                        sign: string -> string, verify: (string, Value) -> bool,
                        jsonParse: string -> Option<Value>, reply: Reply)
    requires UniqueKeys(data)
    ensures var x := Requested(op, rc, data, nonce, now, sign, verify, jsonParse, reply);
      x.sent.Some? <==> Schemas.Accepts(Endpoint(op).requestSchema, data)
    ensures var x, parsed := Requested(op, rc, data, nonce, now, sign, verify, jsonParse, reply),
                             Schemas.Parse(Endpoint(op).requestSchema, data);
      x.sent.None? ==> |parsed.error| > 0 && x.result == Failure(InvalidRequest(FormatZodError(parsed.error)))
  {
    RequestSchemaFacts(op);
    Schemas.ParseIsAccepts(Endpoint(op).requestSchema, data);
  }

  lemma RequestSchemaFacts(op: Operation)
    ensures Schemas.RefinesDeclared(Endpoint(op).requestSchema)
    ensures Schemas.DistinctNames(Endpoint(op).requestSchema.fields)
  {
    RequestSchemas(op);
    Schemas.SchemasRefineDeclared();
    Schemas.SchemasDistinctNames();
  }

  /** The object that is signed and sent has unique keys when the validated request has. */
  lemma PreparedUnique(op: Operation, rc: ResolvedConfig, parsed: Record, nonce: string, now: int)
    requires UniqueKeys(parsed)
    ensures UniqueKeys(Omitted(Decoded(parsed, Endpoint(op).decodeFields), Endpoint(op).omitFields))
    ensures UniqueKeys(Prepared(op, rc, parsed, nonce, now))
  {
    var definition := Endpoint(op);
    var decoded := Decoded(parsed, definition.decodeFields);
    DecodedUnique(parsed, definition.decodeFields);
    OmittedIsWithout(decoded, definition.omitFields);
    WithoutUnique(decoded, definition.omitFields);
    HeaderMerge(rc.appId, nonce, now, Omitted(decoded, definition.omitFields), SignKey);
  }

  /**
   * A key the caller gave that the endpoint neither decodes nor omits keeps
   * the caller's value in the signed object, even over the header; the
   * header's `appid`, `nonce_str` and `time_stamp` fill in the rest.
   */
  lemma PreparedKeeps(op: Operation, rc: ResolvedConfig, parsed: Record, nonce: string, now: int, k: string)
    requires UniqueKeys(parsed)
    requires k !in Endpoint(op).decodeFields && k !in Endpoint(op).omitFields
    ensures Get(Prepared(op, rc, parsed, nonce, now), k) ==
      if k in KeySeq(parsed) then Get(parsed, k) else Get(Header(rc.appId, nonce, now), k)
  {
    var definition := Endpoint(op);
    var decoded := Decoded(parsed, definition.decodeFields);
    PreparedUnique(op, rc, parsed, nonce, now);
    HeaderMerge(rc.appId, nonce, now, Omitted(decoded, definition.omitFields), k);
    DecodedKeys(parsed, definition.decodeFields);
    DecodedOthers(parsed, definition.decodeFields);
    OmittedKeys(decoded, definition.omitFields, k);
  }

  /** An omitted key (that is not a header key) is neither signed nor sent. */
  lemma PreparedOmits(op: Operation, rc: ResolvedConfig, parsed: Record, nonce: string, now: int,
                      sign: string -> string, k: string)
    requires UniqueKeys(parsed)
    requires k in Endpoint(op).omitFields && k !in KeySeq(Header(rc.appId, nonce, now))
    ensures Get(Prepared(op, rc, parsed, nonce, now), k) == None
    ensures forall p :: p in Post(op, rc, Prepared(op, rc, parsed, nonce, now), sign).body ==> p.name != k
  {
    var definition := Endpoint(op);
    var decoded := Decoded(parsed, definition.decodeFields);
    var w := Prepared(op, rc, parsed, nonce, now);
    PreparedUnique(op, rc, parsed, nonce, now);
    HeaderMerge(rc.appId, nonce, now, Omitted(decoded, definition.omitFields), k);
    OmittedKeys(decoded, definition.omitFields, k);
    assert k != SignKey by { OmittedFields(op); }
    var signed := Signed(w, sign(CanonicalString(w)));
    SignAttached(w, sign(CanonicalString(w)), k);
    assert Get(signed, k) == None;
    AbsentKeySendsNothing(signed, k);
  }

  /** The body carries the signature of the prepared object's canonical string, under `sign`. */
  lemma SignatureSent(op: Operation, rc: ResolvedConfig, w: Record, sign: string -> string)
    ensures Pair(SignKey, sign(CanonicalString(w))) in Post(op, rc, w, sign).body
  {
    var signature := sign(CanonicalString(w));
    var signed := Signed(w, signature);
    SignAttached(w, signature, SignKey);
    var i := IndexOf(signed, SignKey).value;
    FormPairsMembers(signed, Pair(SignKey, signature));
  }

  /** `request` uses the same URL and headers for every call to an endpoint with one configuration. */
  lemma PostTarget(op: Operation, rc: ResolvedConfig, prepared: Record, sign: string -> string)
    ensures Post(op, rc, prepared, sign).url == RequestUrl(op, rc)
    ensures Post(op, rc, prepared, sign).headers[0] == FormContentType
    ensures |Post(op, rc, prepared, sign).headers| == 2 <==> rc.signVersion == Some(V2)
  {
  }

  // ---------------------------------------------------------------------
  // orderCreate

  /** The keys of the gateway-pay request `orderCreate` builds, in the order it writes them. */
  const OrderCreateKeys: seq<string> := [
    "mch_order_no", "mch_code", "total_fee", "fee_type", "product_name", "attach",
    "channel_list", "refer_url", "mch_redirect_url", "mch_redirect_url_fail", "time_stamp"]

  /** What `orderCreate` writes under each gateway-pay key, from its validated input `p`. */
  function OrderCreateValue(p: Record, k: string): Value
  {
    if k == "mch_order_no" then Read(p, "merchant_order_id")
    else if k == "mch_code" then Coalesce(Some(Read(p, "mch_code")), Read(p, "merchant_order_id"))
    else if k == "total_fee" then Read(p, "amount")
    else if k == "fee_type" then Coalesce(Some(Read(p, "fee_type")), Str("THB"))
    else if k == "product_name" then Read(p, "product_name")
    else if k == "attach" then Read(p, "note")
    else if k == "channel_list" then Read(p, "channel")
    else if k == "refer_url" then Read(p, "refer_url")
    else if k == "mch_redirect_url" then Read(p, "redirect_url")
    else if k == "mch_redirect_url_fail" then Read(p, "redirect_url_fail")
    else if k == "time_stamp" then Read(p, "timestamp")
    else Undefined
  }

  /** The gateway-pay request `orderCreate` makes of its validated input. */
  function OrderCreateRequest(p: Record): Record
  {
    seq(|OrderCreateKeys|, i requires 0 <= i < |OrderCreateKeys| => Entry(OrderCreateKeys[i], OrderCreateValue(p, OrderCreateKeys[i])))
  }

  /** `orderCreate(data)`: its own validation, then `request("gatewayPay", ...)` on the mapped input. */
  function OrderCreateRequested(rc: ResolvedConfig, data: Record, nonce: string, now: int,
                                sign: string -> string, verify: (string, Value) -> bool,
                                jsonParse: string -> Option<Value>, reply: Reply): Exchange
  {
    match Schemas.Parse(Schemas.OrderCreate, data)
    case Failure(issues) => Exchange(None, Failure(InvalidRequest(FormatZodError(issues))))
    case Success(payload) =>
      Requested(GatewayPay, rc, OrderCreateRequest(payload), nonce, now, sign, verify, jsonParse, reply)
  }

  method OrderCreate(rc: ResolvedConfig, data: Record, draws: seq<nat>, now: int,
                     sign: string -> string, verify: (string, Value) -> bool,
                     jsonParse: string -> Option<Value>, reply: Reply)
    returns (sent: Option<Outgoing>, result: Result<Record, RequestError>)
    requires 32 <= |draws| && forall i :: 0 <= i < |draws| ==> draws[i] < |Alphabet|
    ensures Exchange(sent, result) == OrderCreateRequested(rc, data, Nonce(draws), now, sign, verify, jsonParse, reply)
    ensures Schemas.Parse(Schemas.OrderCreate, data).Failure? ==> sent.None? && result.Failure? && result.error.InvalidRequest?
  {
    var payloadResult := Schemas.Parse(Schemas.OrderCreate, data);
    if payloadResult.Failure? {
      return None, Failure(InvalidRequest(FormatZodError(payloadResult.error)));
    }
    sent, result := Request(GatewayPay, rc, OrderCreateRequest(payloadResult.value), draws, now,
                            sign, verify, jsonParse, reply);
  }

  lemma OrderCreateKeysDistinct()
    ensures forall i, j :: 0 <= i < j < |OrderCreateKeys| ==> OrderCreateKeys[i] != OrderCreateKeys[j]
  {
  }

  /** The mapped request has exactly the eleven gateway-pay keys, once each, in order. */
  lemma OrderCreateKeysOnce(p: Record)
    ensures KeySeq(OrderCreateRequest(p)) == OrderCreateKeys
    ensures UniqueKeys(OrderCreateRequest(p))
  {
    var r := OrderCreateRequest(p);
    assert forall i :: 0 <= i < |r| ==> r[i].key == OrderCreateKeys[i];
    OrderCreateKeysDistinct();
  }

  /** Each key of the mapped request reads as the input field it is taken from; no other key is present. */
  lemma OrderCreateReads(p: Record, k: string)
    ensures k in OrderCreateKeys ==> Get(OrderCreateRequest(p), k) == Some(OrderCreateValue(p, k))
    ensures k !in OrderCreateKeys ==> Get(OrderCreateRequest(p), k) == None
  {
    var r := OrderCreateRequest(p);
    OrderCreateKeysOnce(p);
    if k in OrderCreateKeys {
      var i :| 0 <= i < |OrderCreateKeys| && OrderCreateKeys[i] == k;
      GetAt(r, i);
    }
  }

  /** The mapping looks at its input only through `Read`. */
  lemma SameReadsSameRequest(p: Record, q: Record)
    requires forall k :: Read(p, k) == Read(q, k)
    ensures OrderCreateRequest(p) == OrderCreateRequest(q)
  {
    forall k ensures OrderCreateValue(p, k) == OrderCreateValue(q, k) {
    }
  }

  /** The mapping only reads keys that parsing keeps as they are, so mapping the parsed input is mapping the input. */
  lemma OrderCreateOfParsed(data: Record)
    requires UniqueKeys(data)
    ensures OrderCreateRequest(Schemas.Output(Schemas.OrderCreate, data)) == OrderCreateRequest(data)
  {
    var out := Schemas.Output(Schemas.OrderCreate, data);
    forall k ensures Read(out, k) == Read(data, k) {
      Schemas.OutputReads(Schemas.OrderCreate, data, k);
    }
    SameReadsSameRequest(out, data);
  }

  /**
   * An input `orderCreate` accepts, whose `fee_type` is not the empty
   * string, maps to a request the gateway-pay schema accepts: `mch_code`
   * defaults to the merchant order id and `fee_type` to `THB`.
   */
  lemma OrderCreateForwards(p: Record)
    requires Schemas.Accepts(Schemas.OrderCreate, p) && Read(p, "fee_type") != Str("")
    ensures Schemas.Accepts(Schemas.GatewayPay, OrderCreateRequest(p))
    ensures var r := OrderCreateRequest(p);
      Read(r, "mch_code") == (if Read(p, "mch_code").Undefined? then Read(p, "merchant_order_id") else Read(p, "mch_code"))
    ensures var r := OrderCreateRequest(p);
      Read(r, "fee_type") == (if Read(p, "fee_type").Undefined? then Str("THB") else Read(p, "fee_type"))
  {
    var r := OrderCreateRequest(p);
    Schemas.OrderCreateRequires(p);
    var fs := Schemas.GatewayPay.fields;
    forall i | 0 <= i < |fs| ensures Schemas.FieldOk(fs[i], Read(r, fs[i].name)) {
      OrderCreateField(p, i);
    }
    OrderCreateReads(p, "mch_code");
    OrderCreateReads(p, "fee_type");
  }

  /** Field `i` of the gateway-pay schema holds in the mapped request what it takes from an accepted input. */
  lemma OrderCreateField(p: Record, i: nat)
    requires Schemas.Accepts(Schemas.OrderCreate, p) && Read(p, "fee_type") != Str("")
    requires i < |Schemas.GatewayPay.fields|
    ensures var f := Schemas.GatewayPay.fields[i]; Schemas.FieldOk(f, Read(OrderCreateRequest(p), f.name))
  {
    Schemas.OrderCreateRequires(p);
    if i == 0 {
      MapsOrderNumber(p);
    } else if i == 1 {
      MapsAmount(p);
    } else if i == 2 {
      MapsFeeType(p);
    } else if i == 3 {
      MapsReferUrl(p);
    } else if i == 4 {
      MapsProductName(p);
    } else if i == 5 {
      MapsChannel(p);
    } else if i == 6 {
      MapsRedirectUrl(p);
    } else if i == 7 {
      MapsRedirectUrlFail(p);
    } else {
      MapsMerchantCode(p);
    }
  }

  // One lemma per gateway-pay field: each needs only the input field it is taken from.

  lemma MapsOrderNumber(p: Record)
    requires var m := Read(p, "merchant_order_id"); m.Str? && 1 <= Utf16Length(m.s) <= 32
    ensures var f := Schemas.GatewayPay.fields[0]; Schemas.FieldOk(f, Read(OrderCreateRequest(p), f.name))
  {
    assert Schemas.GatewayPay.fields[0].name == "mch_order_no";
    OrderCreateReads(p, "mch_order_no");
  }

  lemma MapsAmount(p: Record)
    requires Read(p, "amount").Str? || Read(p, "amount").Num?
    ensures var f := Schemas.GatewayPay.fields[1]; Schemas.FieldOk(f, Read(OrderCreateRequest(p), f.name))
  {
    assert Schemas.GatewayPay.fields[1].name == "total_fee";
    OrderCreateReads(p, "total_fee");
  }

  lemma MapsFeeType(p: Record)
    requires Read(p, "fee_type").Undefined? || Schemas.NonEmptyString(Read(p, "fee_type"))
    ensures var f := Schemas.GatewayPay.fields[2]; Schemas.FieldOk(f, Read(OrderCreateRequest(p), f.name))
  {
    assert Schemas.GatewayPay.fields[2].name == "fee_type";
    OrderCreateReads(p, "fee_type");
  }

  lemma MapsReferUrl(p: Record)
    requires Schemas.NonEmptyString(Read(p, "refer_url"))
    ensures var f := Schemas.GatewayPay.fields[3]; Schemas.FieldOk(f, Read(OrderCreateRequest(p), f.name))
  {
    assert Schemas.GatewayPay.fields[3].name == "refer_url";
    OrderCreateReads(p, "refer_url");
  }

  lemma MapsProductName(p: Record)
    requires Schemas.NonEmptyString(Read(p, "product_name"))
    ensures var f := Schemas.GatewayPay.fields[4]; Schemas.FieldOk(f, Read(OrderCreateRequest(p), f.name))
  {
    assert Schemas.GatewayPay.fields[4].name == "product_name";
    OrderCreateReads(p, "product_name");
  }

  lemma MapsChannel(p: Record)
    requires Schemas.NonEmptyString(Read(p, "channel"))
    ensures var f := Schemas.GatewayPay.fields[5]; Schemas.FieldOk(f, Read(OrderCreateRequest(p), f.name))
  {
    assert Schemas.GatewayPay.fields[5].name == "channel_list";
    OrderCreateReads(p, "channel_list");
  }

  lemma MapsRedirectUrl(p: Record)
    requires Schemas.NonEmptyString(Read(p, "redirect_url"))
    ensures var f := Schemas.GatewayPay.fields[6]; Schemas.FieldOk(f, Read(OrderCreateRequest(p), f.name))
  {
    assert Schemas.GatewayPay.fields[6].name == "mch_redirect_url";
    OrderCreateReads(p, "mch_redirect_url");
  }

  lemma MapsRedirectUrlFail(p: Record)
    requires Schemas.NonEmptyString(Read(p, "redirect_url_fail"))
    ensures var f := Schemas.GatewayPay.fields[7]; Schemas.FieldOk(f, Read(OrderCreateRequest(p), f.name))
  {
    assert Schemas.GatewayPay.fields[7].name == "mch_redirect_url_fail";
    OrderCreateReads(p, "mch_redirect_url_fail");
  }

  lemma MapsMerchantCode(p: Record)
    requires var m := Read(p, "merchant_order_id"); m.Str? && 1 <= Utf16Length(m.s) <= 32
    requires var c := Read(p, "mch_code"); c.Undefined? || (c.Str? && 1 <= Utf16Length(c.s) <= 32)
    ensures var f := Schemas.GatewayPay.fields[8]; Schemas.FieldOk(f, Read(OrderCreateRequest(p), f.name))
  {
    assert Schemas.GatewayPay.fields[8].name == "mch_code";
    OrderCreateReads(p, "mch_code");
  }

  /**
   * `orderCreate` lets an empty `fee_type` through (its own schema only
   * asks for a string), and the gateway-pay schema then rejects it: the
   * caller gets the second validation's error, and nothing is sent.
   */
  lemma OrderCreateEmptyFeeType(rc: ResolvedConfig, data: Record, nonce: string, now: int,
                                sign: string -> string, verify: (string, Value) -> bool,
                                jsonParse: string -> Option<Value>, reply: Reply)
    requires UniqueKeys(data) && Schemas.Accepts(Schemas.OrderCreate, data) && Read(data, "fee_type") == Str("")
    ensures Schemas.Parse(Schemas.OrderCreate, data).Success?
    ensures var x := OrderCreateRequested(rc, data, nonce, now, sign, verify, jsonParse, reply);
      x.sent.None? && x.result.Failure? && x.result.error.InvalidRequest?
  {
    Schemas.SchemasRefineDeclared();
    Schemas.ParseIsAccepts(Schemas.OrderCreate, data);
    OrderCreateOfParsed(data);
    EmptyFeeTypeRejected(data);
  }

  lemma EmptyFeeTypeRejected(p: Record)
    requires Read(p, "fee_type") == Str("")
    ensures Schemas.Parse(Schemas.GatewayPay, OrderCreateRequest(p)).Failure?
  {
    var r := OrderCreateRequest(p);
    assert !Schemas.Accepts(Schemas.GatewayPay, r) by {
      OrderCreateReads(p, "fee_type");
      Schemas.GatewayPayRefusesEmptyFeeType(r);
    }
    OrderCreateKeysOnce(p);
    Schemas.SchemasRefineDeclared();
    Schemas.ParseIsAccepts(Schemas.GatewayPay, r);
  }

  /** With any other accepted input, the gateway-pay request is sent. */
  lemma OrderCreateSends(rc: ResolvedConfig, data: Record, nonce: string, now: int,
                         sign: string -> string, verify: (string, Value) -> bool,
                         jsonParse: string -> Option<Value>, reply: Reply)
    requires UniqueKeys(data) && Schemas.Accepts(Schemas.OrderCreate, data) && Read(data, "fee_type") != Str("")
    ensures OrderCreateRequested(rc, data, nonce, now, sign, verify, jsonParse, reply).sent.Some?
  {
    Schemas.SchemasRefineDeclared();
    Schemas.ParseIsAccepts(Schemas.OrderCreate, data);
    OrderCreateOfParsed(data);
    OrderCreateForwards(data);
    OrderCreateKeysOnce(data);
    Schemas.ParseIsAccepts(Schemas.GatewayPay, OrderCreateRequest(data));
  }

  /**
   * The caller's `timestamp` is what `time_stamp` holds in the object that
   * is signed and sent: it replaces the clock reading of the header.
   * Without a `note`, no `attach` is signed or sent at all.
   */
  lemma OrderCreateTimestamp(rc: ResolvedConfig, p: Record, nonce: string, now: int, sign: string -> string)
    requires Schemas.Accepts(Schemas.OrderCreate, p)
    ensures var parsed := Schemas.Output(Schemas.GatewayPay, OrderCreateRequest(p));
      Get(Prepared(GatewayPay, rc, parsed, nonce, now), "time_stamp") == Some(Read(p, "timestamp"))
    ensures var parsed := Schemas.Output(Schemas.GatewayPay, OrderCreateRequest(p));
      Read(p, "note").Undefined? ==> Get(Prepared(GatewayPay, rc, parsed, nonce, now), "attach") == None
    ensures var parsed := Schemas.Output(Schemas.GatewayPay, OrderCreateRequest(p));
      Read(p, "note").Undefined? ==>
        forall q :: q in Post(GatewayPay, rc, Prepared(GatewayPay, rc, parsed, nonce, now), sign).body ==> q.name != "attach"
  {
    var parsed := Schemas.Output(Schemas.GatewayPay, OrderCreateRequest(p));
    ParsedGatewayRequest(p);
    TimestampKept(rc, parsed, nonce, now, Read(p, "timestamp"));
    if Read(p, "note").Undefined? {
      AttachAbsent(rc, parsed, nonce, now, sign);
    }
  }

  lemma TimestampKept(rc: ResolvedConfig, parsed: Record, nonce: string, now: int, t: Value)
    requires UniqueKeys(parsed) && Get(parsed, "time_stamp") == Some(t)
    ensures Get(Prepared(GatewayPay, rc, parsed, nonce, now), "time_stamp") == Some(t)
  {
    PreparedKeeps(GatewayPay, rc, parsed, nonce, now, "time_stamp");
  }

  lemma AttachAbsent(rc: ResolvedConfig, parsed: Record, nonce: string, now: int, sign: string -> string)
    requires UniqueKeys(parsed) && Get(parsed, "attach") == None
    ensures Get(Prepared(GatewayPay, rc, parsed, nonce, now), "attach") == None
    ensures forall q :: q in Post(GatewayPay, rc, Prepared(GatewayPay, rc, parsed, nonce, now), sign).body ==> q.name != "attach"
  {
    assert Get(Header(rc.appId, nonce, now), "attach") == None by {
      HeaderUnique(rc.appId, nonce, now);
    }
    PreparedKeeps(GatewayPay, rc, parsed, nonce, now, "attach");
    var w := Prepared(GatewayPay, rc, parsed, nonce, now);
    var signed := Signed(w, sign(CanonicalString(w)));
    SignAttached(w, sign(CanonicalString(w)), "attach");
    assert Get(signed, "attach") == None;
    AbsentKeySendsNothing(signed, "attach");
  }

  lemma AttachUndeclared()
    ensures "attach" !in Schemas.FieldNames(Schemas.GatewayPay.fields)
  {
  }

  /** What the gateway-pay validation makes of the mapped request: `time_stamp` kept, an undefined `attach` dropped. */
  lemma ParsedGatewayRequest(p: Record)
    requires Schemas.Accepts(Schemas.OrderCreate, p)
    ensures var parsed := Schemas.Output(Schemas.GatewayPay, OrderCreateRequest(p));
      UniqueKeys(parsed) && Get(parsed, "time_stamp") == Some(Read(p, "timestamp"))
    ensures var parsed := Schemas.Output(Schemas.GatewayPay, OrderCreateRequest(p));
      Read(p, "note").Undefined? ==> Get(parsed, "attach") == None
  {
    var r := OrderCreateRequest(p);
    OrderCreateKeysOnce(p);
    OrderCreateReads(p, "time_stamp");
    OrderCreateReads(p, "attach");
    Schemas.OrderCreateRequires(p);
    Schemas.SchemasDistinctNames();
    Schemas.OutputUnique(Schemas.GatewayPay, r);
    AttachUndeclared();
    Schemas.OutputReads(Schemas.GatewayPay, r, "time_stamp");
    Schemas.OutputReads(Schemas.GatewayPay, r, "attach");
  }

  // ---------------------------------------------------------------------
  // Two calls followed end to end

  /**
   * A gateway-pay request whose `product_name` is `a%26b` signs and sends
   * `product_name=a&b`: the field is decoded before signing.
   */
  lemma GatewayPayDecodesProductName(rc: ResolvedConfig, parsed: Record, nonce: string, now: int,
                                     sign: string -> string)
    requires UniqueKeys(parsed) && Get(parsed, "product_name") == Some(Str("a%26b"))
    ensures Get(Prepared(GatewayPay, rc, parsed, nonce, now), "product_name") == Some(Str("a&b"))
    ensures Pair("product_name", "a&b") in Post(GatewayPay, rc, Prepared(GatewayPay, rc, parsed, nonce, now), sign).body
  {
    var definition := Endpoint(GatewayPay);
    var k := "product_name";
    var decoded := Decoded(parsed, definition.decodeFields);
    GatewayPayFields();
    DecodedListed(parsed, definition.decodeFields, k);
    Utils.SafeDecodeAmpersand();
    assert Get(decoded, k) == Some(Str("a&b"));
    var sanitized := Omitted(decoded, definition.omitFields);
    assert Get(sanitized, k) == Some(Str("a&b"));
    PreparedUnique(GatewayPay, rc, parsed, nonce, now);
    HeaderMerge(rc.appId, nonce, now, sanitized, k);
    var w := Prepared(GatewayPay, rc, parsed, nonce, now);
    PairSent(w, sign(CanonicalString(w)), k, "a&b");
  }

  /**
   * A refund query by merchant order number `v` alone (1 to 32 characters)
   * passes validation, and the part `mch_order_no=v` is one of the parts of
   * the signed string and a pair of the body.
   */
  lemma RefundQueryByOrderNumber(rc: ResolvedConfig, v: string, nonce: string, now: int, sign: string -> string)
    requires 1 <= Utf16Length(v) <= 32
    ensures var data := [Entry("mch_order_no", Str(v))];
      Schemas.Parse(Schemas.RefundQuery, data).Success?
    ensures var data := [Entry("mch_order_no", Str(v))];
      var w := Prepared(RefundQuery, rc, Schemas.Parse(Schemas.RefundQuery, data).value, nonce, now);
      "mch_order_no" + "=" + v in Sort(Parts(Normalized(w))) &&
      Pair("mch_order_no", v) in Post(RefundQuery, rc, w, sign).body
  {
    var data := [Entry("mch_order_no", Str(v))];
    Schemas.RefundQueryOrderNumberParses(v);
    var parsed := Schemas.Parse(Schemas.RefundQuery, data).value;
    var w := Prepared(RefundQuery, rc, parsed, nonce, now);
    assert "mch_order_no" + "=" + v in Sort(Parts(Normalized(w))) && Pair("mch_order_no", v) in Post(RefundQuery, rc, w, sign).body by {
      assert UniqueKeys(parsed) && Get(parsed, "mch_order_no") == Some(Str(v));
      PassThroughEndpoints(RefundQuery);
      StringFieldSigned(RefundQuery, rc, parsed, nonce, now, sign, "mch_order_no", v);
    }
  }

  /**
   * A string field the endpoint neither decodes nor omits is signed as
   * `key=value` and sent as that pair, unchanged.
   */
  lemma StringFieldSigned(op: Operation, rc: ResolvedConfig, parsed: Record, nonce: string, now: int,
                          sign: string -> string, k: string, v: string)
    requires UniqueKeys(parsed) && Get(parsed, k) == Some(Str(v)) && k != SignKey
    requires k !in Endpoint(op).decodeFields && k !in Endpoint(op).omitFields
    ensures var w := Prepared(op, rc, parsed, nonce, now);
      k + "=" + v in Sort(Parts(Normalized(w))) && Pair(k, v) in Post(op, rc, w, sign).body
  {
    var w := Prepared(op, rc, parsed, nonce, now);
    assert Get(w, k) == Some(Str(v)) by {
      PreparedKeeps(op, rc, parsed, nonce, now, k);
    }
    assert UniqueKeys(w) by {
      PreparedUnique(op, rc, parsed, nonce, now);
    }
    assert k + "=" + v in Sort(Parts(Normalized(w))) by {
      PartListed(w, k);
    }
    assert Pair(k, v) in Post(op, rc, w, sign).body by {
      PairSent(w, sign(CanonicalString(w)), k, v);
    }
  }

  /** A string under a key other than `sign` is sent as it is. */
  lemma PairSent(w: Record, signature: string, k: string, v: string)
    requires Get(w, k) == Some(Str(v)) && k != SignKey
    ensures Pair(k, v) in FormPairs(Signed(w, signature))
  {
    var signed := Signed(w, signature);
    SignAttached(w, signature, k);
    var i := IndexOf(signed, k).value;
    assert signed[i].value == Str(v);
    assert signed[i].key == k && FormValue(signed[i].value) == Some(v);
    FormPairsMembers(signed, Pair(k, v));
  }
}
