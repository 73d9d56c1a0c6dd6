# Ksher payment client: signed request/response pipeline

This project models the core of a TypeScript client for the Ksher payment
gateway. The client turns a caller's request into a signed,
form-encoded POST. It then reads the JSON answer and checks its signature.
The model covers these parts:

- **Canonical string** (`sortKeys` and `convertDataToString`, src/utils.ts).
  This is what is signed and verified. The key `sign` is dropped and values
  are normalised (a nested object becomes the sorted list of its key names).
  One `key=value` part is rendered per key. The parts are sorted as whole
  strings and concatenated with no separator.
- **Helpers** (src/utils.ts). `generateRandomString` draws from a
  62-character alphabet; the random draws are a parameter. `safeDecode` is
  `decodeURIComponent` (section 19.2.6.2 of ECMA-262) over UTF-8
  (RFC 3629), falling back to its input when decoding throws.
- **Endpoint table and request pipeline** (src/client.ts). The model covers:
  - the twenty endpoints, their base URL and path, and their decode and omit
    lists;
  - configuration defaults and key selection;
  - `applyDecodeFields` and `applyOmitFields`;
  - the `appid`/`nonce_str`/`time_stamp` header merge and the `sign` field;
  - `buildFormBody`, `buildSignaturePayload` and `verifySignature`;
  - response parsing with its fallback, and signature gating on `code == 0`;
  - `formatZodError` and the `orderCreate` field mapping.
- **Validation rules** (src/schemas.ts). The zod request schemas are modelled
  as data: declared fields with their rules, passthrough or strip of unknown
  keys, and an "any of these is truthy" refinement. A parse function follows
  zod 3's issue order. The response envelope coerces `code` with `Number(...)`.

Payloads are JavaScript objects: ordered lists of key/value entries
(`Payload.Record`). Values are strings, integers, booleans, `null`,
`undefined`, nested objects and arrays of objects. A Buffer is folded into a
string (its UTF-8 text); see "## Left out" for where that differs.

Several things are parameters: RSA-MD5 signing and verification, `JSON.parse`,
the clock, the random draws, the PEM check and the HTTP transport. The
transport's result (the HTTP status and the body text) is an input.

The source's loops are methods proved against specification functions.
These are `SortKeys`, `ConvertDataToString`, `GenerateRandomString`,
`ApplyDecodeFields`, `ApplyOmitFields`, `BuildFormBody` and `Request`.
The properties are lemmas about those functions.

Two behaviours of the code are easy to misread:

- The caller's fields are spread after `appid`, `nonce_str` and `time_stamp`
  (src/client.ts:442-447), so a caller-supplied value for one of those
  names wins.
- `buildSignaturePayload` narrows the data to the five payout keys whenever
  all five are present, even when other keys are present too
  (src/client.ts:306-319).

## Model

| member | source | states |
|---|---|---|
| Canonical.SortKeys | src/utils.ts:13-35 | the sorted-key walk returns the normalised record `Normalized(data)` |
| Canonical.WalkKeys | src/utils.ts:15-33 | the `forEach` loop over the sorted keys builds exactly the entries of those keys, in that order |
| Canonical.KeyEntry | src/utils.ts:18-32 | one loop step stores nothing for `sign`, else the key with its normalised value |
| Canonical.NormalizeOne | src/utils.ts:19-32 | the type switch: strings and numbers are kept, arrays are normalised item by item, objects become their sorted key names, other values are kept |
| Canonical.NormalizeArray | src/utils.ts:24-27 | `value.map(item => sortKeys(item))` normalises every array item by the same rule |
| Canonical.ConvertDataToString | src/utils.ts:37-53 | the method computes `CanonicalString`: sortKeys, one part per entry, sort, join with "" |
| Canonical.PushParts | src/utils.ts:40-50 | the loop pushes one `key=value` part per normalised entry, in entry order |
| Canonical.RenderValue | src/utils.ts:41-48 | one template-literal step computes `Render`; what `Render` produces for each kind of value is stated by `Canonical.RenderRules` |
| Canonical.RenderRules | src/utils.ts:20-48 | string values render verbatim, numbers as decimal text, booleans and null as JSON words, undefined as `undefined`, nested objects as the JSON array of their sorted key names |
| Canonical.NormalizedShape | src/utils.ts:13-35 | sortKeys output holds every input key except `sign`, in sorted order, and for an object (whose keys are unique) each key exactly once |
| Canonical.CanonicalIgnoresOrderAndSign | src/utils.ts:13-53 | two payloads with the same non-`sign` key/value pairs, in any order, have the same canonical string |
| Canonical.CanonicalIgnoresSign | src/utils.ts:18 | setting `sign` to any value leaves the canonical string unchanged |
| Canonical.CanonicalDependsOnNormalizedValues | src/utils.ts:13-53 | the canonical string depends only on the normalised value under each non-`sign` key |
| Canonical.CanonicalIgnoresNestedValues | src/utils.ts:28-29 | replacing a nested object by another with the same key names (any values) leaves the canonical string unchanged |
| Canonical.CanonicalIsSortedRendering | src/utils.ts:37-53 | the canonical string is the concatenation, sorted as whole strings, of one `key=value` part per non-`sign` key |
| Canonical.PartsSortedAsWholeStrings | src/utils.ts:51-52 | the second sort orders whole parts, not keys: keys `a` < `a-b` but the string is `a-b=2a=1` |
| Canonical.CanonicalNotInjective | src/utils.ts:49-52 | parts have no separator, so `{a: "=b"}` and `{"a=": "b"}` share the canonical string `a==b` |
| Canonical.SingleEntry | src/utils.ts:40-52 | a one-key payload other than `sign` canonicalises to `key=` followed by its rendered value |
| Text.SortIsSortedPermutation | src/utils.ts:16 | `sort()` returns the one sorted permutation of its input |
| Text.SortPermutationInvariant | src/utils.ts:51 | the sorted parts do not depend on the order they were pushed in |
| Json.Stringify | src/utils.ts:47 | `JSON.stringify` yields no text exactly for `undefined` |
| Json.QuotePlain | src/utils.ts:47 | a string without quotes, backslashes or control characters is written between quotes unchanged |
| Utils.GenerateRandomString | src/utils.ts:3-11 | the result has `length` characters (none for length <= 0), character i is alphabet[draw i], all alphanumeric |
| Utils.AlphabetShape | src/utils.ts:4-5 | the alphabet has 62 distinct characters A-Z, a-z, 0-9 |
| Utils.SafeDecode | src/utils.ts:73-79 | the decoded text when `decodeURIComponent` succeeds, the input unchanged when it throws |
| Utils.SafeDecodeEncoded | src/utils.ts:73-79 | safeDecode inverts `encodeURIComponent` |
| Utils.SafeDecodeWithoutPercent | src/utils.ts:73-79 | text without `%` is returned unchanged |
| Utils.SafeDecodeStrayPercent | src/utils.ts:76-77 | a stray `%` makes decoding throw and the input is kept |
| Utils.SafeDecodeOverlong | src/utils.ts:76-77 | an overlong UTF-8 escape is rejected and the input kept |
| Utils.SafeDecodeSpace | src/utils.ts:75 | `a%20b` decodes to `a b` |
| Utils.SafeDecodeAmpersand | src/utils.ts:75 | `a%26b` decodes to `a&b` |
| Uri.DecodeEncode | src/utils.ts:75 | `decodeURIComponent(encodeURIComponent(s)) == s` for every string |
| Uri.DecodeWithoutPercent | src/utils.ts:75 | text without `%` decodes to itself |
| Fields.ApplyDecodeFields | src/client.ts:338-351 | keys and their order are kept; unlisted keys keep their values; a listed string becomes its safeDecode, other listed values are unchanged |
| Fields.DecodeField | src/client.ts:344-349 | one step replaces only a string under the field, by its decoding |
| Fields.DecodedListed | src/client.ts:344-349 | a field listed once holds the decoding of its string value |
| Fields.DecodedUnique | src/client.ts:343 | decoding keeps keys unique |
| Fields.DecodeNothing | src/client.ts:342 | an empty list returns the data unchanged |
| Fields.ApplyOmitFields | src/client.ts:353-363 | the result is the input's entries whose key is not listed, in input order |
| Fields.Omitted | src/client.ts:358-361 | result keys are the input keys minus the listed ones, and surviving keys keep their values |
| Fields.OmittedIsWithout | src/client.ts:353-363 | deleting listed keys one at a time equals filtering them out in one pass |
| Fields.WithoutUnique | src/client.ts:358-361 | omitting keeps keys unique and adds no key |
| Form.FormValue | src/client.ts:411-422 | undefined and null send nothing, strings are sent as they are, objects and arrays as JSON |
| Form.BuildFormBody | src/client.ts:408-425 | the loop appends one pair per entry with a sendable value, in payload order |
| Form.FormPairsMembers | src/client.ts:410-423 | a pair is sent exactly for the entries whose value is neither undefined nor null, under the entry's key |
| Form.FormPairsAppend | src/client.ts:410 | pairs keep payload order |
| Form.DroppedEntries | src/client.ts:411 | removing an undefined or null entry leaves the body unchanged |
| Form.AbsentKeySendsNothing | src/client.ts:410-423 | a key the payload does not hold names no pair of the body |
| Signing.HeaderMerge | src/client.ts:442-447 | the signed object always has appid, nonce_str and time_stamp, and a caller-supplied key (those three included) keeps the caller's value |
| Signing.SignAttached | src/client.ts:449 | `sign` is set last to the signature, replacing any caller `sign`; other keys are unchanged |
| Signing.SignedMessageUnchanged | src/client.ts:448-449 | attaching the signature does not change the canonical string |
| Signing.SignedButNotSent | src/client.ts:448-449 | a null or undefined field is part of the signed string but has no pair in the body |
| Signing.PartListed | src/client.ts:448 | every non-`sign` key contributes its `key=value` part to the signed string |
| Signing.SignaturePayload | src/client.ts:303-322 | `{}` for falsy or non-object data; only the five payout fields when all five are present; otherwise the data unchanged |
| Signing.PayoutPayload | src/client.ts:313-319 | exactly mobile, mch_id, account_type, business_mode and nonce_str, with the data's values |
| Signing.PayoutFieldsOnly | src/client.ts:306-319 | with all five payout keys present, changing any other field leaves the signed payload unchanged |
| Signing.PayoutNeedsAllFive | src/client.ts:306-321 | with any one of the five payout keys missing, the whole data is the signed payload |
| Signing.VerifySignature | src/client.ts:395-406 | false without a truthy data and sign; true only when the verifier accepts the canonical string of the signature payload |
| Signing.VerifyDecides | src/client.ts:400-405 | with truthy data and sign, the verifier alone decides |
| Endpoints.PathsIdentifyOperations | src/client.ts:110-228 | every endpoint path is a distinct `/...` path that identifies its operation |
| Endpoints.PathsDistinct | src/client.ts:110-228 | no two endpoints share a path |
| Endpoints.GatewayEndpoints | src/client.ts:110-134 | exactly gatewayPay, gatewayOrderQuery and cancelOrder use the gateway base |
| Endpoints.ResponseDataSchemas | src/client.ts:110-129 | exactly gatewayPay and gatewayOrderQuery declare a response schema of their own, and the answer is parsed with it; every other endpoint falls back to the default envelope |
| Endpoints.RequestSchemas | src/client.ts:110-228 | every endpoint validates its request with one of the seven request schemas |
| Endpoints.PassThroughEndpoints | src/client.ts:110-228 | exactly the ten endpoints without decode or omit lists sign and send the validated request as it is |
| Endpoints.GatewayPayFields | src/client.ts:111-120 | gatewayPay's decode list names product_name, names each field once, and gatewayPay omits nothing |
| Endpoints.OmittedFields | src/client.ts:123-207 | the three order queries omit `operator_id`; no other endpoint omits anything |
| Endpoints.DecodeAndOmitDisjoint | src/client.ts:110-228 | no endpoint both decodes and omits a field |
| Endpoints.ResolveConfig | src/client.ts:366-374 | missing options take their defaults (empty public key, timeout 0, the two Ksher bases); given options are kept |
| Endpoints.BuildUrl | src/client.ts:334-336 | the gateway base for gateway endpoints, the api base otherwise |
| Endpoints.DefaultUrls | src/client.ts:464-465 | with no bases configured, the URL is the default gateway or api base followed by the path |
| Endpoints.UrlEndsWithPath | src/client.ts:464-465 | the URL ends with the endpoint's path, which identifies the operation |
| Endpoints.LoadKey | src/client.ts:280-301 | a missing private key is the error "privateKey is required"; a missing public key picks the V2 or V1 built-in key; otherwise PEM text or a file path |
| Endpoints.ClientKeys | src/client.ts:376-385 | client construction fails exactly without a private key; an absent or empty public key selects the built-in key of the sign version |
| Schemas.CheckFieldPasses | src/schemas.ts:3-5 | a field check passes exactly when the value satisfies its rule (string, non-empty string, 1 to 32 UTF-16 code units as JavaScript `length` counts them, string or number; optional admits undefined) |
| Schemas.ParseIsAccepts | src/schemas.ts:7-91 | safeParse succeeds exactly when every declared field satisfies its rule and the refinement holds; failures report at least one issue |
| Schemas.OutputReads | src/schemas.ts:13 | parsed output reads like the input: declared keys always, and every key under passthrough; stripped schemas drop undeclared keys |
| Schemas.PassthroughKeepsUnknownKeys | src/schemas.ts:13 | a passthrough schema keeps every undeclared key with a defined value, with its value |
| Schemas.OutputUnique | src/schemas.ts:7-13 | a parse of an object with unique keys returns unique keys |
| Schemas.Max32Bounds | src/schemas.ts:4-5 | a `max32String` field of an accepted object is absent or 1 to 32 UTF-16 code units long |
| Schemas.QueryByOrderAccepts | src/schemas.ts:15-23 | query-by-order accepts exactly when mch_order_no is absent or 1 to 32 UTF-16 code units, ksher_order_no is absent or a string, and one of them is a non-empty string |
| Schemas.QueryByOrderEmptyStrings | src/schemas.ts:15-23 | two empty order numbers give a too-short issue for mch_order_no and then the refinement issue |
| Schemas.RefundQueryNeedsAReference | src/schemas.ts:25-37 | with none of the three references, the only issue is the refinement's message naming all three |
| Schemas.PayBaseRequires | src/schemas.ts:7-13 | an accepted pay request has a mch_order_no of 1 to 32 UTF-16 code units, a string or number total_fee and a non-empty fee_type |
| Schemas.GatewayPayRequires | src/schemas.ts:39-46 | gateway-pay also requires non-empty refer_url, product_name, channel_list, mch_redirect_url, mch_redirect_url_fail, and an optional mch_code of 1 to 32 UTF-16 code units |
| Schemas.OrderCreateRequires | src/schemas.ts:77-91 | orderCreate requires amount, a merchant_order_id of 1 to 32 UTF-16 code units and the six non-empty strings; note, fee_type and mch_code are optional |
| Schemas.GatewayPayRefusesEmptyFeeType | src/schemas.ts:7-13 | gateway-pay rejects an object whose fee_type is the empty string |
| Schemas.SchemasDistinctNames | src/schemas.ts:7-91 | every request schema declares each field once |
| Responses.NumberOfDecimalText | src/schemas.ts:121 | the code coercion reads the decimal text of any integer back as that integer |
| Responses.BlankIsZero | src/schemas.ts:121 | blank text coerces to 0 |
| Responses.UnsignedDigits | src/schemas.ts:121 | a non-empty run of decimal digits coerces to the number it spells |
| Responses.NegatedDigits | src/schemas.ts:121 | a minus sign before a run of digits coerces to the negated number |
| Responses.NonNumericIsNaN | src/schemas.ts:121 | text holding a non-space character that no JavaScript numeric literal uses (not a digit, sign, `.`, exponent or radix letter, hexadecimal digit or letter of `Infinity`) coerces to NaN |
| Responses.EmptyObjectRejected | src/schemas.ts:116-121 | `{}` is rejected under every data schema, and its first issue is the NaN code |
| Responses.ParseResponseIsAccepted | src/schemas.ts:116-131 | the envelope parses exactly when code coerces to a number, the seven optional keys are strings or absent and data satisfies its schema |
| Responses.ParsedCode | src/schemas.ts:121 | the parsed envelope's code is the number the coercion gives |
| Responses.ParsedStrings | src/schemas.ts:122-129 | msg, message, sign, status_code, status_msg, time_stamp and version are kept as the strings they were |
| Responses.ParsedData | src/schemas.ts:124 | data is the data schema's output, or absent |
| Responses.ParsedExtra | src/schemas.ts:131 | undeclared envelope keys are preserved |
| Responses.FallbackParses | src/schemas.ts:116-131 | the fallback `{code: status, msg: text}` parses under every data schema |
| Responses.GatewayPayDataStripped | src/schemas.ts:94-96 | a gateway-pay response's data keeps a string pay_content and nothing else |
| Client.FormatZodError | src/client.ts:91-99 | the message starts with `Invalid request: ` |
| Client.FormatNamesEveryIssue | src/client.ts:91-99 | every issue's `path: message` text appears whole in the message |
| Client.QueryByOrderEmptyMessage | src/client.ts:91-99 | the issue paths are joined with dots, and an issue on the object itself is reported at `input` |
| Client.ResponseOutcomeDecides | src/client.ts:486-494 | the answer is returned exactly when the envelope parses and either code is not 0 or the signature verifies; a signature error always has code 0 |
| Client.UnsignedSuccessRejected | src/client.ts:490-492 | a code-0 envelope with no truthy data or no truthy sign always raises the signature error |
| Client.InvalidOutcome | src/client.ts:486-488 | an envelope the schema rejects is thrown with the schema's issues, whatever the verifier says |
| Client.EmptyBodyRejected | src/client.ts:481 | an empty body parses as `{}`, whose missing code is NaN, so the envelope is rejected at `code` |
| Client.FallbackReads | src/client.ts:483 | the fallback object has code = status, msg = body text and no data |
| Client.FallbackEnvelope | src/client.ts:483-488 | the fallback parses to itself |
| Client.UnparsableBody | src/client.ts:479-494 | a non-JSON body is returned as `{code: status, msg: body}` (status 0 reads as an unsigned success and raises) |
| Client.ReadResponse | src/client.ts:478-494 | the answer-handling steps compute `ResponseOutcome`, whose behaviour `Client.ResponseOutcomeDecides`, `Client.EmptyBodyRejected` and `Client.UnparsableBody` state |
| Client.Nonce | src/client.ts:444 | the nonce is 32 characters |
| Client.PrepareRequest | src/client.ts:439-472 | decode, omit, header, sign, form body and headers compute `Post(Prepared(...))` |
| Client.BuildHeaders | src/client.ts:450-455 | the steps compute `RequestHeaders`; `Client.PostTarget` states that the content type comes first and the version header is added exactly for V2 |
| Client.Request | src/client.ts:427-495 | the whole call computes `Requested`; nothing is sent exactly when the request schema rejects, and then the call throws InvalidRequest |
| Client.SentIffAccepted | src/client.ts:434-438 | a request is sent exactly when its schema accepts it; otherwise the formatted issues are thrown |
| Client.PreparedUnique | src/client.ts:440-447 | the object that is signed has unique keys |
| Client.PreparedKeeps | src/client.ts:440-447 | a caller key that is neither decoded nor omitted keeps its value, even over the header |
| Client.PreparedOmits | src/client.ts:441-449 | an omitted key is neither signed nor sent |
| Client.SignatureSent | src/client.ts:448-449 | the body carries the signature of the canonical string under `sign` |
| Client.PostTarget | src/client.ts:450-465 | the URL is the endpoint's URL; the headers are the content type and, exactly for V2, the version header |
| Client.StringFieldSigned | src/client.ts:440-449 | a string field neither decoded nor omitted is signed as `key=value` and sent unchanged |
| Client.PairSent | src/client.ts:449 | a string under a key other than `sign` is sent as it is |
| Client.GatewayPayDecodesProductName | src/client.ts:111-120 | gateway-pay with product_name `a%26b` signs and sends `product_name=a&b` |
| Client.RefundQueryByOrderNumber | src/client.ts:187-191 | a refund query with only a mch_order_no `v` of 1 to 32 UTF-16 code units is accepted, and `mch_order_no=v` is signed and sent |
| Schemas.RefundQueryOrderNumberParses | src/schemas.ts:25-37 | the refund-query schema accepts `{mch_order_no: v}` for `v` of 1 to 32 UTF-16 code units and keeps the number |
| Schemas.RefundQueryByOrderNumberAccepted | src/schemas.ts:25-37 | `{mch_order_no: v}` satisfies the refund-query rules and its refinement when `v` is 1 to 32 UTF-16 code units |
| Schemas.RefundQueryRejectsLongOrderNumber | src/schemas.ts:5 | a mch_order_no over 32 UTF-16 code units is rejected, whatever its character count |
| Schemas.SeventeenEmojiTooLong | src/schemas.ts:5 | seventeen U+1F600 characters are 34 code units long and rejected as too long |
| Text.Utf16Length | src/schemas.ts:4-5 | JavaScript `length` lies between the character count and twice it, and is 0 exactly for the empty string |
| Text.Utf16LengthBasic | src/schemas.ts:4-5 | without characters above U+FFFF, the length is the character count |
| Text.Utf16LengthAstral | src/schemas.ts:4-5 | each character above U+FFFF counts two code units |
| Client.OrderCreate | src/client.ts:526-548 | orderCreate validates its input, and on success sends the mapped gateway-pay request; on failure it sends nothing and throws InvalidRequest |
| Client.OrderCreateKeysOnce | src/client.ts:534-546 | the mapped request has the eleven gateway-pay keys once each, in order |
| Client.OrderCreateReads | src/client.ts:535-545 | each mapped key holds its source field: merchant_order_id to mch_order_no, amount to total_fee, note to attach, channel to channel_list, redirect urls, timestamp to time_stamp; no other key is present |
| Client.OrderCreateOfParsed | src/client.ts:527-531 | mapping the parsed input equals mapping the input |
| Client.OrderCreateForwards | src/client.ts:526-547 | an accepted input with a non-empty fee_type maps to an accepted gateway-pay request; mch_code defaults to merchant_order_id and fee_type to THB |
| Client.OrderCreateEmptyFeeType | src/client.ts:526-547 | an empty fee_type passes orderCreate's schema but is rejected by gateway-pay's, and nothing is sent |
| Client.OrderCreateSends | src/client.ts:526-547 | any other accepted input is sent |
| Client.ParsedGatewayRequest | src/client.ts:534-546 | validating the mapped request keeps the caller's timestamp under time_stamp, and drops attach when note is undefined |
| Client.TimestampKept | src/client.ts:442-447 | a time_stamp in the validated request replaces the clock reading in the signed object |
| Client.AttachAbsent | src/client.ts:442-447 | a validated request without attach signs no attach |
| Client.OrderCreateTimestamp | src/client.ts:545 | the caller's timestamp replaces the clock in time_stamp; with no note, no attach is signed or sent |

## Left out

- RSA-MD5 signing and verification (PKCS#1 v1.5 of RFC 8017 section 8.2 over the MD5 digest of RFC 1321): `sign` and `verify` are function parameters over the canonical string.
- Key material: reading a key file and the PEM check of `isPrivateKeyPem`/`isPublicKeyPem` are foreign crypto and file I/O. `LoadKey` takes the outcome of the PEM check as a boolean. It returns where the key comes from, not the key.
- `fetch`, `AbortController`, the `setTimeout` timeout and `async`/`await`: the transport result (HTTP status and body text) is an input. A network failure or an abort is not modelled.
- `Math.random` and `Date.now`: the random draws and the clock reading are parameters.
- `JSON.parse` is an abstract parameter that returns an optional value. `JSON.stringify` is modelled for this value universe only, with integer numbers.
- Numbers are integers: floating-point values, `NaN` and `Infinity` in payloads are not modelled. The model's integers are unbounded, and `String(n)`/`JSON.stringify(n)` are rendered as full decimal text. That matches JavaScript only for |n| < 10^21 (from 1e21 JavaScript switches to exponent form, such as `1e+21`, which changes the signed `key=value` part and the form pair), and JavaScript numbers hold integers exactly only up to 2^53.
- Responses.StringToNumber: decimal fractions, exponents, hexadecimal, octal and binary literals, and `Infinity` are treated as NaN here, but `z.coerce.number` turns them into numbers.
- Arrays hold objects only. `sortKeys` on a string array element (which becomes an index-keyed object) and on a null element (which throws) is not modelled.
- `Object.entries`/`Object.keys` list integer-like keys ("0", "1", ...) first in numeric order. The model uses insertion order everywhere. The canonical string does not depend on this, because its parts are sorted. The form body's pair order and the JSON text of nested objects inside arrays do.
- String ordering: JavaScript's `sort()` compares UTF-16 code units. The model compares Unicode scalar values, which agrees on every string without characters above U+FFFF. String lengths, by contrast, are counted in UTF-16 code units, as zod's `min`/`max` do (`Text.Utf16Length`).
- A Buffer is held as `Str` with its UTF-8 text. `applyDecodeFields` decodes only values whose `typeof` is `"string"` (src/client.ts:346), so a Buffer under a decoded field is signed and sent undecoded. The model decodes it like a string (`Fields.DecodeField`). Buffers are therefore modelled only where the field is not decoded.
- The serialisation of the pairs by `URLSearchParams.toString()` (application/x-www-form-urlencoded, section 5.2 of the WHATWG URL Standard) is not modelled. The body is the list of name/value pairs.
- zod internals: issues carry only a path and a message. The issue codes and the error object are not modelled, and the messages are those zod 3 produces for these rules.
- src/index.ts only re-exports and is not part of this model.
