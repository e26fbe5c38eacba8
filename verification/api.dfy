/** The backend client: how each call's HTTP request is built, and how the
    reply is turned into a value or an error once the network has answered.
    The network itself is a parameter: a `FetchReply` says what `fetch`
    produced (a rejection, or a status with a body that did or did not parse
    as JSON). */
module Api {
  import opened JsValues
  import opened Optional

  const ApiBaseUrl: string := "https://www.terning-farewell.p-e.kr"

  /** The `RequestInit` a caller hands to `apiFetch`. */
  datatype Options = Options(verb: string, headers: map<string, string>, body: Option<JsValue>)

  /** The request `fetch` is asked to send. The body is kept as the value that
      `JSON.stringify` serialises. */
  datatype Request = Request(
    verb: string,
    url: string,
    mode: string,
    headers: map<string, string>,
    body: Option<JsValue>)

  const DefaultHeaders: map<string, string> :=
    map["Content-Type" := "application/json", "Accept" := "application/json"]

  /** The request carries both JSON content-negotiation headers. */
  predicate HasJsonHeaders(r: Request) {
    && "Content-Type" in r.headers && r.headers["Content-Type"] == "application/json"
    && "Accept" in r.headers && r.headers["Accept"] == "application/json"
  }

  /** `fetch(API_BASE_URL + endpoint, {...options, mode: 'cors', headers: {...defaults, ...options.headers}})`:
      every header the caller gives survives, and a default survives unless the
      caller names the same header. */
  function BuildRequest(endpoint: string, options: Options): (r: Request)
    ensures r.url == ApiBaseUrl + endpoint && r.mode == "cors"
    ensures r.verb == options.verb && r.body == options.body
    ensures r.headers.Keys == DefaultHeaders.Keys + options.headers.Keys
    ensures forall h :: h in options.headers ==> r.headers[h] == options.headers[h]
    ensures forall h :: h in DefaultHeaders && h !in options.headers ==> r.headers[h] == DefaultHeaders[h]
  {
    Request(options.verb, ApiBaseUrl + endpoint, "cors", DefaultHeaders + options.headers, options.body)
  }

  /** The header a token-bearing call adds. */
  function BearerHeaders(token: string): map<string, string> {
    map["Authorization" := "Bearer " + token]
  }

  /** A call that only adds `Authorization` keeps both JSON headers and sends the token. */
  lemma BearerRequestHeaders(endpoint: string, verb: string, token: string)
    ensures var r := BuildRequest(endpoint, Options(verb, BearerHeaders(token), None));
      && HasJsonHeaders(r)
      && r.headers.Keys == {"Content-Type", "Accept", "Authorization"}
      && r.headers["Authorization"] == "Bearer " + token
  {
    var r := BuildRequest(endpoint, Options(verb, BearerHeaders(token), None));
    assert "Content-Type" !in BearerHeaders(token);
    assert "Accept" !in BearerHeaders(token);
  }

  function SendVerificationCodeRequest(email: string): (r: Request)
    ensures r.verb == "POST" && r.url == ApiBaseUrl + "/api/auth/send-verification-code"
    ensures r.headers == DefaultHeaders && HasJsonHeaders(r)
    ensures r.body == Some(JObj(map["email" := JStr(email)]))
  {
    BuildRequest("/api/auth/send-verification-code",
                 Options("POST", map[], Some(JObj(map["email" := JStr(email)]))))
  }

  function VerifyCodeRequest(email: string, code: string): (r: Request)
    ensures r.verb == "POST" && r.url == ApiBaseUrl + "/api/auth/verify-code"
    ensures r.headers == DefaultHeaders && HasJsonHeaders(r)
    ensures r.body == Some(JObj(map["email" := JStr(email), "code" := JStr(code)]))
  {
    BuildRequest("/api/auth/verify-code",
                 Options("POST", map[], Some(JObj(map["email" := JStr(email), "code" := JStr(code)]))))
  }

  function ApplyForGiftRequest(token: string): (r: Request)
    ensures r.verb == "POST" && r.url == ApiBaseUrl + "/api/event/apply" && r.body == None
    ensures HasJsonHeaders(r) && "Authorization" in r.headers
    ensures r.headers["Authorization"] == "Bearer " + token
  {
    BearerRequestHeaders("/api/event/apply", "POST", token);
    BuildRequest("/api/event/apply", Options("POST", BearerHeaders(token), None))
  }

  function CheckApplicationStatusRequest(token: string): (r: Request)
    ensures r.verb == "GET" && r.url == ApiBaseUrl + "/api/event/status" && r.body == None
    ensures HasJsonHeaders(r) && "Authorization" in r.headers
    ensures r.headers["Authorization"] == "Bearer " + token
  {
    BearerRequestHeaders("/api/event/status", "GET", token);
    BuildRequest("/api/event/status", Options("GET", BearerHeaders(token), None))
  }

  function CheckEventStockRequest(token: string): (r: Request)
    ensures r.verb == "GET" && r.url == ApiBaseUrl + "/api/admin/event/stock" && r.body == None
    ensures HasJsonHeaders(r) && "Authorization" in r.headers
    ensures r.headers["Authorization"] == "Bearer " + token
  {
    BearerRequestHeaders("/api/admin/event/stock", "GET", token);
    BuildRequest("/api/admin/event/stock", Options("GET", BearerHeaders(token), None))
  }

  /** What `response.json()` produced. JSON never yields `undefined`, so
      `Json(JUndefined)` does not arise; `ApiFetch` would treat it like `null`. */
  datatype Body = Json(value: JsValue) | NotJson(syntaxError: string)

  /** What the network produced for one request. */
  datatype FetchReply = NetworkFailure(reason: string) | Responded(status: int, body: Body)

  /** Everything the client can throw: `fetch` rejecting, `response.json()`
      rejecting, a property read on null, the error thrown for a non-2xx
      status, and the error thrown when verification yields no token. */
  datatype ApiError =
    | NetworkError(reason: string)
    | ProtocolError(syntaxError: string)
    | TypeError(detail: string)
    | RequestFailed(status: int, detail: string)
    | MissingToken

  /** The `message` property of the thrown error. */
  function Message(e: ApiError): string {
    match e
    case NetworkError(reason) => reason
    case ProtocolError(syntaxError) => syntaxError
    case TypeError(detail) => detail
    case RequestFailed(_, detail) => detail
    case MissingToken => MissingTokenMessage
  }

  const MissingTokenMessage: string := "\U{D1A0}\U{D070}\U{C744} \U{BC1B}\U{C9C0} \U{BABB}\U{D588}\U{C2B5}\U{B2C8}\U{B2E4}."

  datatype Result<T> = Ok(value: T) | Err(error: ApiError)

  /** `response.ok`. */
  predicate IsOk(status: int) {
    200 <= status <= 299
  }

  function HttpErrorMessage(status: int): string {
    "HTTP error! status: " + IntToString(status)
  }

  /** `apiFetch` after `fetch` has settled: parse the body first, then reject a
      non-2xx status with the body's message (or a generic one), and otherwise
      unwrap the `data` envelope when it is truthy. */
  function ApiFetch(reply: FetchReply): (r: Result<JsValue>)
    ensures r.Ok? <==>
      reply.Responded? && reply.body.Json? && IsOk(reply.status) && !IsNullish(reply.body.value)
    ensures r.Ok? ==> !IsNullish(r.value)
    ensures r.Err? && r.error.RequestFailed? ==>
      reply.Responded? && !IsOk(reply.status) && r.error.status == reply.status
    ensures r.Err? ==> r.error.NetworkError? || r.error.ProtocolError? || r.error.TypeError? || r.error.RequestFailed?
  {
    match reply
    case NetworkFailure(reason) => Err(NetworkError(reason))
    case Responded(_, NotJson(syntaxError)) => Err(ProtocolError(syntaxError))
    case Responded(status, Json(body)) =>
      if !IsOk(status) then
        match Prop(body, "message")
        case ThrowsTypeError(m) => Err(TypeError(m))
        case Value(message) =>
          Err(RequestFailed(status, if Truthy(message) then ToString(message) else HttpErrorMessage(status)))
      else
        match Prop(body, "data")
        case ThrowsTypeError(m) => Err(TypeError(m))
        case Value(data) => Ok(Or(data, body))
  }

  /** A body that does not parse fails the call whatever the status, because
      parsing happens before the status is looked at. */
  lemma UnparseableAlwaysFails(status: int, syntaxError: string)
    ensures ApiFetch(Responded(status, NotJson(syntaxError))) == Err(ProtocolError(syntaxError))
    ensures Message(ApiFetch(Responded(status, NotJson(syntaxError))).error) == syntaxError
  {
  }

  /** A non-2xx body that parsed to something other than null is rejected with
      its `message` when that is truthy, and otherwise with a message that
      names the status; an array, string, number or boolean body has no
      `message` and always gets the latter. */
  lemma NonOkMessage(status: int, body: JsValue)
    requires !IsOk(status) && !IsNullish(body)
    ensures var r := ApiFetch(Responded(status, Json(body)));
      var message := Prop(body, "message").value;
      && r.Err? && r.error.RequestFailed? && r.error.status == status
      && (Truthy(message) ==> Message(r.error) == ToString(message))
      && (!Truthy(message) ==> Message(r.error) == HttpErrorMessage(status))
      && (!body.JObj? ==> Message(r.error) == HttpErrorMessage(status))
  {
  }

  /** The generic message names the status in decimal, so the status can be read back from it. */
  lemma HttpErrorMessageNamesStatus(status: nat)
    ensures var m := HttpErrorMessage(status);
      var p := |"HTTP error! status: "|;
      && |m| > p
      && (forall k :: p <= k < |m| ==> IsDigit(m[k]))
      && DecimalValue(m[p..]) == status
  {
    IntToStringRoundTrip(status);
    var m := HttpErrorMessage(status);
    assert m[|"HTTP error! status: "|..] == IntToString(status);
  }

  /** A 2xx body that parsed to something other than null yields its `data`
      field when that is truthy and the whole body otherwise; an array,
      string, number or boolean body comes back whole. */
  lemma OkUnwrap(status: int, body: JsValue)
    requires IsOk(status) && !IsNullish(body)
    ensures var r := ApiFetch(Responded(status, Json(body)));
      var data := Prop(body, "data").value;
      && r.Ok?
      && (Truthy(data) ==> r.value == data)
      && (!Truthy(data) ==> r.value == body)
      && (!body.JObj? ==> r.value == body)
  {
  }

  /** The object `verifyCode` resolves to: `{ temporaryToken }` and nothing else. */
  function AuthResponse(temporaryToken: JsValue): JsValue {
    JObj(map["temporaryToken" := temporaryToken])
  }

  /** `response.result.temporaryToken` read as `response.result && response.result.temporaryToken`
      decides it: the token when `result` is an object holding one, undefined
      for any other shape (no `result`, a primitive or an array `result`, a
      `result` without the key). */
  function ResultToken(response: JsValue): (t: JsValue)
    ensures !(response.JObj? && "result" in response.fields) ==> t == JUndefined
  {
    if response.JObj? && "result" in response.fields
       && response.fields["result"].JObj? && "temporaryToken" in response.fields["result"].fields
    then response.fields["result"].fields["temporaryToken"]
    else JUndefined
  }

  /** `verifyCode` after `apiFetch` has settled: the unwrapped value must hold a
      truthy `result` with a truthy `temporaryToken`, which is returned alone. */
  function VerifyCode(reply: FetchReply): (r: Result<JsValue>)
    ensures r.Ok? ==> ApiFetch(reply).Ok?
    ensures ApiFetch(reply).Err? ==> r == ApiFetch(reply)
    ensures ApiFetch(reply).Ok? ==>
      && (r.Ok? <==> Truthy(ResultToken(ApiFetch(reply).value)))
      && (r.Ok? ==> r.value == AuthResponse(ResultToken(ApiFetch(reply).value)))
      && (r.Err? ==> r.error == MissingToken)
  {
    match ApiFetch(reply)
    case Err(e) => Err(e)
    case Ok(response) =>
      match Prop(response, "result")
      case ThrowsTypeError(m) => Err(TypeError(m))
      case Value(result) =>
        if !Truthy(result) then Err(MissingToken)
        else
          match Prop(result, "temporaryToken")
          case ThrowsTypeError(m) => Err(TypeError(m))
          case Value(token) => if Truthy(token) then Ok(AuthResponse(token)) else Err(MissingToken)
  }

  /** Read off a 2xx object body: the token comes from `data.result.temporaryToken`
      when `data` is truthy and from `result.temporaryToken` otherwise, and any
      other shape fails with the missing-token error. */
  lemma VerifyCodeExtractsToken(status: int, fields: map<string, JsValue>)
    requires IsOk(status)
    ensures var response := if "data" in fields && Truthy(fields["data"]) then fields["data"] else JObj(fields);
      var t := ResultToken(response);
      VerifyCode(Responded(status, Json(JObj(fields)))) == if Truthy(t) then Ok(AuthResponse(t)) else Err(MissingToken)
  {
    OkUnwrap(status, JObj(fields));
  }

  /** A reply shaped `{"data": {"token": T}}`, with the token under `data.token`
      instead of `data.result.temporaryToken`, fails with the missing-token error. */
  lemma TokenUnderDataFails(status: int, token: string)
    requires IsOk(status)
    ensures VerifyCode(Responded(status, Json(JObj(map["data" := JObj(map["token" := JStr(token)])])))) == Err(MissingToken)
  {
    VerifyCodeExtractsToken(status, map["data" := JObj(map["token" := JStr(token)])]);
  }

  /** `testSendCode` / `testApplyGift`: `true` on success, `false` on any failure. */
  function TestCall(reply: FetchReply): (ok: bool)
    ensures ok <==> reply.Responded? && reply.body.Json? && IsOk(reply.status) && !IsNullish(reply.body.value)
  {
    ApiFetch(reply).Ok?
  }

  /** `testVerifyCode`: the `{ temporaryToken }` object on success, `null` on any failure. */
  function TestVerifyCode(reply: FetchReply): (r: Option<JsValue>)
    ensures r.None? <==> VerifyCode(reply).Err?
    ensures r.Some? ==> r.value == VerifyCode(reply).value
    ensures r.Some? ==> exists t :: Truthy(t) && r.value == AuthResponse(t)
  {
    match VerifyCode(reply)
    case Ok(v) => Some(v)
    case Err(_) => None
  }

  /** `testCheckStatus`: the unwrapped reply on success, `null` on any failure. */
  function TestCheckStatus(reply: FetchReply): (r: Option<JsValue>)
    ensures r.Some? ==> ApiFetch(reply).Ok? && r.value == ApiFetch(reply).value && !IsNullish(r.value)
    ensures r.None? <==> !(reply.Responded? && reply.body.Json? && IsOk(reply.status) && !IsNullish(reply.body.value))
  {
    match ApiFetch(reply)
    case Ok(v) => Some(v)
    case Err(_) => None
  }
}
