/**
 * The endpoint table of src/client.ts, the client configuration with its
 * defaults, and the choice of the signing and verification keys.
 */
module Endpoints {
  import opened Wrappers
  import Schemas
  import Responses
  import Lists

  /** The twenty operations of the client, one per endpoint. */
  datatype Operation =
    | GatewayPay | GatewayOrderQuery | CancelOrder | OrderRefund | OrderReverse
    | NativePay | OrderQuery | QuickPay | AppPay | MiniProgramPay
    | WapPay | JsapiPay | RefundQuery | OrderClose | Payout
    | OrderQueryPayout | GetPayoutBalance | RateQuery | MerchantInfo | GetSettlementInfo

  /** Which configured base URL an endpoint is posted to. */
  datatype BaseKind = Api | Gateway

  /**
   * An entry of the table: the base and path of its URL, the schema the
   * request is validated against, the data schema of its response when it
   * names one, and the fields decoded or removed before signing.
   */
  datatype EndpointDefinition = EndpointDefinition(
    base: BaseKind,
    path: string,
    requestSchema: Schemas.ObjectSchema,
    responseData: Option<Schemas.ObjectSchema>,
    decodeFields: seq<string>,
    omitFields: seq<string>)

  function ApiEndpoint(path: string, schema: Schemas.ObjectSchema): EndpointDefinition
  {
    EndpointDefinition(Api, path, schema, None, [], [])
  }

  /** `endpoints[op]`. */
  function Endpoint(op: Operation): EndpointDefinition
  {
    match op
    case GatewayPay =>
      EndpointDefinition(Gateway, "/gateway_pay", Schemas.GatewayPay, Some(Responses.GatewayPayData),
        ["product_name", "mch_redirect_url", "mch_redirect_url_fail", "mch_notify_url"], [])
    case GatewayOrderQuery =>
      EndpointDefinition(Gateway, "/gateway_order_query", Schemas.QueryByOrder, Some(Responses.GatewayOrderQueryData),
        [], ["operator_id"])
    case CancelOrder => EndpointDefinition(Gateway, "/cancel_order", Schemas.QueryByOrder, None, [], [])
    case OrderRefund => ApiEndpoint("/order_refund", Schemas.OrderNumberOnly)
    case OrderReverse => ApiEndpoint("/order_reverse", Schemas.QueryByOrder)
    case NativePay => ApiEndpoint("/native_pay", Schemas.PayBase).(decodeFields := ["notify_url", "product"])
    case OrderQuery => ApiEndpoint("/order_query", Schemas.QueryByOrder).(omitFields := ["operator_id"])
    case QuickPay => ApiEndpoint("/quick_pay", Schemas.QuickPay).(decodeFields := ["notify_url", "product"])
    case AppPay => ApiEndpoint("/app_pay", Schemas.PayBase).(decodeFields := ["notify_url", "redirect_url", "refer_url", "product"])
    case MiniProgramPay => ApiEndpoint("/mini_program_pay", Schemas.PayBase).(decodeFields := ["notify_url", "product"])
    case WapPay => ApiEndpoint("/wap_pay", Schemas.PayBase).(decodeFields := ["notify_url", "redirect_url", "refer_url"])
    case JsapiPay => ApiEndpoint("/jsapi_pay", Schemas.PayBase).(decodeFields := ["notify_url", "redirect_url"])
    case RefundQuery => ApiEndpoint("/refund_query", Schemas.RefundQuery)
    case OrderClose => ApiEndpoint("/order_close", Schemas.QueryByOrder)
    case Payout => ApiEndpoint("/payout", Schemas.OrderNumberOnly)
    case OrderQueryPayout => ApiEndpoint("/order_query_payout", Schemas.QueryByOrder).(omitFields := ["operator_id"])
    case GetPayoutBalance => ApiEndpoint("/get_payout_balance", Schemas.OpenObject)
    case RateQuery => ApiEndpoint("/rate_query", Schemas.OpenObject)
    case MerchantInfo => ApiEndpoint("/merchant_info", Schemas.OpenObject)
    case GetSettlementInfo => ApiEndpoint("/get_settlement_info", Schemas.OpenObject)
  }

  /**
   * `definition.responseSchema ?? responseSchema`: the data schema a response
   * is parsed with, read off the table's two gateway entries
   * (`ResponseDataSchemas` ties the two together).
   */
  function ResponseData(op: Operation): Schemas.ObjectSchema
  {
    match op
    case GatewayPay => Responses.GatewayPayData
    case GatewayOrderQuery => Responses.GatewayOrderQueryData
    case _ => Responses.DefaultData
  }

  /**
   * The endpoint a path belongs to: the inverse of the table's paths,
   * looked up by the path's length first.
   */
  function OperationAt(path: string): Option<Operation>
  {
    match |path|
    case 7 => if path == "/payout" then Some(Payout) else None
    case 8 =>
      if path == "/app_pay" then Some(AppPay)
      else if path == "/wap_pay" then Some(WapPay)
      else None
    case 10 =>
      if path == "/quick_pay" then Some(QuickPay)
      else if path == "/jsapi_pay" then Some(JsapiPay)
      else None
    case 11 =>
      if path == "/native_pay" then Some(NativePay)
      else if path == "/rate_query" then Some(RateQuery)
      else None
    case 12 =>
      if path == "/gateway_pay" then Some(GatewayPay)
      else if path == "/order_query" then Some(OrderQuery)
      else if path == "/order_close" then Some(OrderClose)
      else None
    case 13 =>
      if path == "/cancel_order" then Some(CancelOrder)
      else if path == "/order_refund" then Some(OrderRefund)
      else if path == "/refund_query" then Some(RefundQuery)
      else None
    case 14 =>
      if path == "/order_reverse" then Some(OrderReverse)
      else if path == "/merchant_info" then Some(MerchantInfo)
      else None
    case 17 => if path == "/mini_program_pay" then Some(MiniProgramPay) else None
    case 19 =>
      if path == "/order_query_payout" then Some(OrderQueryPayout)
      else if path == "/get_payout_balance" then Some(GetPayoutBalance)
      else None
    case 20 =>
      if path == "/gateway_order_query" then Some(GatewayOrderQuery)
      else if path == "/get_settlement_info" then Some(GetSettlementInfo)
      else None
    case _ => None
  }


  /** Every endpoint has its own path: the path determines the operation. */
  lemma PathsIdentifyOperations(op: Operation)
    ensures OperationAt(Endpoint(op).path) == Some(op)
    ensures |Endpoint(op).path| > 1 && Endpoint(op).path[0] == '/'
  {
    match op
    case GatewayPay | GatewayOrderQuery | CancelOrder | OrderRefund => PathsOfGroup1(op);
    case OrderReverse | NativePay | OrderQuery | QuickPay => PathsOfGroup2(op);
    case AppPay | MiniProgramPay | WapPay | JsapiPay => PathsOfGroup3(op);
    case RefundQuery | OrderClose | Payout | OrderQueryPayout => PathsOfGroup4(op);
    case GetPayoutBalance | RateQuery | MerchantInfo | GetSettlementInfo => PathsOfGroup5(op);
  }

  lemma PathsOfGroup1(op: Operation)
    requires op in {GatewayPay, GatewayOrderQuery, CancelOrder, OrderRefund}
    ensures OperationAt(Endpoint(op).path) == Some(op)
    ensures |Endpoint(op).path| > 1 && Endpoint(op).path[0] == '/'
  {
    match op
    case GatewayPay => assert |Endpoint(op).path| == 12;
    case GatewayOrderQuery => assert |Endpoint(op).path| == 20;
    case CancelOrder => assert |Endpoint(op).path| == 13;
    case OrderRefund => assert |Endpoint(op).path| == 13;
  }

  lemma PathsOfGroup2(op: Operation)
    requires op in {OrderReverse, NativePay, OrderQuery, QuickPay}
    ensures OperationAt(Endpoint(op).path) == Some(op)
    ensures |Endpoint(op).path| > 1 && Endpoint(op).path[0] == '/'
  {
    match op
    case OrderReverse => assert |Endpoint(op).path| == 14;
    case NativePay => assert |Endpoint(op).path| == 11;
    case OrderQuery => assert |Endpoint(op).path| == 12;
    case QuickPay => assert |Endpoint(op).path| == 10;
  }

  lemma PathsOfGroup3(op: Operation)
    requires op in {AppPay, MiniProgramPay, WapPay, JsapiPay}
    ensures OperationAt(Endpoint(op).path) == Some(op)
    ensures |Endpoint(op).path| > 1 && Endpoint(op).path[0] == '/'
  {
    match op
    case AppPay => assert |Endpoint(op).path| == 8;
    case MiniProgramPay => assert |Endpoint(op).path| == 17;
    case WapPay => assert |Endpoint(op).path| == 8;
    case JsapiPay => assert |Endpoint(op).path| == 10;
  }

  lemma PathsOfGroup4(op: Operation)
    requires op in {RefundQuery, OrderClose, Payout, OrderQueryPayout}
    ensures OperationAt(Endpoint(op).path) == Some(op)
    ensures |Endpoint(op).path| > 1 && Endpoint(op).path[0] == '/'
  {
    match op
    case RefundQuery => assert |Endpoint(op).path| == 13;
    case OrderClose => assert |Endpoint(op).path| == 12;
    case Payout => assert |Endpoint(op).path| == 7;
    case OrderQueryPayout => assert |Endpoint(op).path| == 19;
  }

  lemma PathsOfGroup5(op: Operation)
    requires op in {GetPayoutBalance, RateQuery, MerchantInfo, GetSettlementInfo}
    ensures OperationAt(Endpoint(op).path) == Some(op)
    ensures |Endpoint(op).path| > 1 && Endpoint(op).path[0] == '/'
  {
    match op
    case GetPayoutBalance => assert |Endpoint(op).path| == 19;
    case RateQuery => assert |Endpoint(op).path| == 11;
    case MerchantInfo => assert |Endpoint(op).path| == 14;
    case GetSettlementInfo => assert |Endpoint(op).path| == 20;
  }

  lemma PathsDistinct(a: Operation, b: Operation)
    requires Endpoint(a).path == Endpoint(b).path
    ensures a == b
  {
    PathsIdentifyOperations(a);
    PathsIdentifyOperations(b);
  }

  /** Only the gateway-pay, gateway-order-query and cancel-order endpoints live on the gateway. */
  lemma GatewayEndpoints(op: Operation)
    ensures Endpoint(op).base == Gateway <==> op in {GatewayPay, GatewayOrderQuery, CancelOrder}
  {
  }

  /** Every endpoint validates its request with one of the seven request schemas. */
  lemma RequestSchemas(op: Operation)
    ensures Endpoint(op).requestSchema in {Schemas.PayBase, Schemas.QueryByOrder, Schemas.RefundQuery,
      Schemas.GatewayPay, Schemas.QuickPay, Schemas.OrderNumberOnly, Schemas.OpenObject}
  {
    match op
    case GatewayPay =>
    case GatewayOrderQuery =>
    case CancelOrder =>
    case OrderRefund =>
    case OrderReverse =>
    case NativePay =>
    case OrderQuery =>
    case QuickPay =>
    case AppPay =>
    case MiniProgramPay =>
    case WapPay =>
    case JsapiPay =>
    case RefundQuery =>
    case OrderClose =>
    case Payout =>
    case OrderQueryPayout =>
    case GetPayoutBalance =>
    case RateQuery =>
    case MerchantInfo =>
    case GetSettlementInfo =>
  }

  /** Only the two gateway endpoints parse their response data with a schema of their own. */
  lemma ResponseDataSchemas(op: Operation)
    ensures Endpoint(op).responseData.Some? <==> op == GatewayPay || op == GatewayOrderQuery
    ensures Endpoint(op).responseData.Some? ==> ResponseData(op) == Endpoint(op).responseData.value
    ensures Endpoint(op).responseData.None? ==> ResponseData(op) == Responses.DefaultData
  {
  }

  /** The three order queries drop `operator_id` before signing, and nothing else drops any field. */
  lemma OmittedFields(op: Operation)
    ensures Endpoint(op).omitFields == (if op in {GatewayOrderQuery, OrderQuery, OrderQueryPayout} then ["operator_id"] else [])
  {
  }

  /** `gatewayPay` decodes its four text fields, each named once, and omits nothing. */
  lemma GatewayPayFields()
    ensures Lists.Distinct(Endpoint(GatewayPay).decodeFields)
    ensures "product_name" in Endpoint(GatewayPay).decodeFields
    ensures Endpoint(GatewayPay).omitFields == []
  {
  }

  /** Exactly these ten endpoints sign and send the validated request as it is: nothing decoded, nothing omitted. */
  lemma PassThroughEndpoints(op: Operation)
    ensures Endpoint(op).decodeFields == [] && Endpoint(op).omitFields == [] <==>
      op in {CancelOrder, OrderRefund, OrderReverse, RefundQuery, OrderClose, Payout,
             GetPayoutBalance, RateQuery, MerchantInfo, GetSettlementInfo}
  {
  }

  /** No endpoint both decodes and omits a field. */
  lemma DecodeAndOmitDisjoint(op: Operation, f: string)
    ensures !(f in Endpoint(op).decodeFields && f in Endpoint(op).omitFields)
  {
  }

  // ---------------------------------------------------------------------
  // Configuration

  const DefaultApiBase := "https://api.mch.ksher.net/KsherPay"
  const DefaultGatewayBase := "https://gateway.ksher.com/api"

  datatype SignVersion = V2

  /** `KsherClientConfig`: `None` is an option left out (or `undefined`/`null`). */
  datatype ClientConfig = ClientConfig(
    appId: string,
    privateKey: string,
    publicKey: Option<string>,
    signVersion: Option<SignVersion>,
    timeoutMs: Option<int>,
    apiBase: Option<string>,
    gatewayBase: Option<string>)

  datatype ResolvedConfig = ResolvedConfig(
    appId: string,
    privateKey: string,
    publicKey: string,
    signVersion: Option<SignVersion>,
    timeoutMs: int,
    apiBase: string,
    gatewayBase: string)

  function OrElse<T>(x: Option<T>, d: T): T
  {
    match x
    case Some(v) => v
    case None => d
  }

  /**
   * `resolvedConfig`: each option missing from the configuration takes its
   * default (`""` for the public key, 0 for the timeout, the two Ksher
   * URLs for the bases); a given option is kept as it is, even when empty.
   */
  function ResolveConfig(c: ClientConfig): (rc: ResolvedConfig)
    ensures rc.appId == c.appId && rc.privateKey == c.privateKey && rc.signVersion == c.signVersion
    ensures rc.publicKey == if c.publicKey.Some? then c.publicKey.value else ""
    ensures rc.timeoutMs == if c.timeoutMs.Some? then c.timeoutMs.value else 0
    ensures rc.apiBase == if c.apiBase.Some? then c.apiBase.value else DefaultApiBase
    ensures rc.gatewayBase == if c.gatewayBase.Some? then c.gatewayBase.value else DefaultGatewayBase
  {
    ResolvedConfig(c.appId, c.privateKey, OrElse(c.publicKey, ""), c.signVersion,
      OrElse(c.timeoutMs, 0), OrElse(c.apiBase, DefaultApiBase), OrElse(c.gatewayBase, DefaultGatewayBase))
  }

  /** `buildUrl(base, config)`: the configured base URL of that kind. */
  function BuildUrl(base: BaseKind, rc: ResolvedConfig): (url: string)
    ensures base == Gateway ==> url == rc.gatewayBase
    ensures base == Api ==> url == rc.apiBase
  {
    if base == Gateway then rc.gatewayBase else rc.apiBase
  }

  /** The URL a request for `op` is posted to. */
  function RequestUrl(op: Operation, rc: ResolvedConfig): string
  {
    BuildUrl(Endpoint(op).base, rc) + Endpoint(op).path
  }

  /** With no bases configured, requests go to the Ksher hosts: the URL is a default base followed by the path. */
  lemma DefaultUrls(op: Operation, c: ClientConfig)
    requires c.apiBase.None? && c.gatewayBase.None?
    ensures RequestUrl(op, ResolveConfig(c)) ==
      (if op in {GatewayPay, GatewayOrderQuery, CancelOrder} then DefaultGatewayBase else DefaultApiBase) + Endpoint(op).path
  {
    GatewayEndpoints(op);
  }

  /** The URL ends with the endpoint's own path, so it tells the operation apart whatever the bases. */
  lemma UrlEndsWithPath(op: Operation, rc: ResolvedConfig)
    ensures var url := RequestUrl(op, rc);
      |url| >= |Endpoint(op).path| && OperationAt(url[|url| - |Endpoint(op).path|..]) == Some(op)
  {
    var url := RequestUrl(op, rc);
    assert url[|url| - |Endpoint(op).path|..] == Endpoint(op).path;
    PathsIdentifyOperations(op);
  }

  // ---------------------------------------------------------------------
  // Keys

  datatype KeyKind = PrivateKey | PublicKey

  /**
   * Where a key comes from: the PEM text given in the configuration, the
   * file that configuration value names, or the built-in Ksher public key
   * of the first or second signature version.
   */
  datatype KeySource = Pem(text: string) | FileAt(path: string) | BuiltInV1 | BuiltInV2

  /**
   * `loadKey(value, type, signVersion)`. Whether `value` parses as an RSA
   * key of the right kind is the parameter `isRsaPem`.
   */
  function LoadKey(value: string, kind: KeyKind, signVersion: Option<SignVersion>, isRsaPem: bool): (r: Result<KeySource, string>)
    ensures r.Failure? <==> value == "" && kind == PrivateKey
    ensures r.Failure? ==> r.error == "privateKey is required"
    ensures value == "" && kind == PublicKey ==> r == Success(if signVersion == Some(V2) then BuiltInV2 else BuiltInV1)
    ensures value != "" ==> r == Success(if isRsaPem then Pem(value) else FileAt(value))
  {
    if value == "" then
      if kind.PublicKey? then Success(if signVersion == Some(V2) then BuiltInV2 else BuiltInV1)
      else Failure("privateKey is required")
    else if isRsaPem then Success(Pem(value))
    else Success(FileAt(value))
  }

  /**
   * The two keys of a client: a missing private key is an error; a public
   * key left out, or given as `""`, selects the built-in key of the
   * configured signature version.
   */
  lemma ClientKeys(c: ClientConfig, privatePem: bool, publicPem: bool)
    ensures LoadKey(ResolveConfig(c).privateKey, PrivateKey, c.signVersion, privatePem).Failure? <==> c.privateKey == ""
    ensures c.publicKey.None? || c.publicKey == Some("") ==>
      LoadKey(ResolveConfig(c).publicKey, PublicKey, c.signVersion, publicPem) ==
        Success(if c.signVersion == Some(V2) then BuiltInV2 else BuiltInV1)
  {
  }
}
