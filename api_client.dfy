/**
 * `apiFetch`, the one gateway every screen uses to reach the backend: it normalises the
 * path, builds headers and body, and turns the outcome into a value or one of two errors.
 * `fetch` itself is a parameter: a function from the request sent to what happened.
 */
module ApiClient {
  import opened Wrappers
  import opened Json
  import JsText

  const ApiBase := "https://nirbhayabackend.onrender.com"
  const NetworkMessage := "Network error / server unreachable"

  /** The request handed to `fetch`; `None` for the body means `undefined`. */
  datatype Request = Request(url: string, httpMethod: string, headers: map<string, string>, body: Option<Json>)

  /**
   * How reading the body went: `res.clone().json()` parsed a value, or it failed and
   * `res.text()` returned a string, or both failed.
   */
  datatype BodyRead = Parsed(value: Json) | Text(text: string) | Unreadable

  /** What `fetch` did: it threw before any response arrived, or a response arrived. */
  datatype Transport = Unreachable(detail: Option<string>) | Responded(status: nat, read: BodyRead)

  /** The two shapes `apiFetch` throws: `{network: true, ...}` and `{status, message, data}`. */
  datatype ApiError =
    | NetworkError(message: string, detail: Option<string>)
    | HttpError(status: nat, backendMessage: Json, data: Json)

  /** `Response.ok` */
  predicate IsOk(status: nat) {
    200 <= status <= 299
  }

  predicate StartsWithSlash(s: string) {
    |s| >= 1 && s[0] == '/'
  }

  /** The path with exactly one leading slash added when it had none. */
  function NormalizePath(rawPath: string): (path: string)
    ensures StartsWithSlash(path)
    ensures StartsWithSlash(rawPath) ==> path == rawPath
    ensures !StartsWithSlash(rawPath) ==> path == "/" + rawPath
  {
    if StartsWithSlash(rawPath) then rawPath else "/" + rawPath
  }

  function BaseHeaders(): map<string, string> {
    map["Content-Type" := "application/json", "Accept" := "application/json"]
  }

  /** The request `apiFetch` sends; a falsy token adds no Authorization header and a falsy body is not sent. */
  function BuildRequest(rawPath: string, token: string, httpMethod: string, body: Option<Json>): (req: Request)
    ensures req.url == ApiBase + NormalizePath(rawPath) && req.httpMethod == httpMethod
    ensures req.headers.Keys == BaseHeaders().Keys + (if token != "" then {"Authorization"} else {})
    ensures forall h :: h in BaseHeaders() ==> req.headers[h] == "application/json"
    ensures token != "" ==> req.headers["Authorization"] == "Bearer " + JsText.Trim(token)
    ensures req.body.Some? <==> body.Some? && Truthy(body.value)
    ensures req.body.Some? ==> req.body == body
  {
    var headers := if token != "" then BaseHeaders()["Authorization" := "Bearer " + JsText.Trim(token)] else BaseHeaders();
    var sent := if body.Some? && Truthy(body.value) then body else None;
    Request(ApiBase + NormalizePath(rawPath), httpMethod, headers, sent)
  }

  /** `data` after the body was read: the parsed value, or `null` when parsing failed. */
  function DataOf(read: BodyRead): Json {
    if read.Parsed? then read.value else JNull
  }

  /** `text` after the body was read: only set when JSON parsing failed and the text read succeeded. */
  function TextOf(read: BodyRead): string {
    if read.Text? then read.text else ""
  }

  /** `data?.message || data?.error || text || "HTTP <status>"`: the thrown message is never empty. */
  function BackendMessage(data: Json, text: string, status: nat): (msg: Json)
    ensures Truthy(msg)
    ensures HasTruthy(data, "message") ==> msg == Get(data, "message").value
    ensures !HasTruthy(data, "message") && HasTruthy(data, "error") ==> msg == Get(data, "error").value
    ensures !HasTruthy(data, "message") && !HasTruthy(data, "error") && text != "" ==> msg == JStr(text)
    ensures !HasTruthy(data, "message") && !HasTruthy(data, "error") && text == ""
            ==> msg == JStr("HTTP " + JsText.IntToString(status))
  {
    OrElse(Get(data, "message"), OrElse(Get(data, "error"), if text != "" then JStr(text) else JStr("HTTP " + JsText.IntToString(status))))
  }

  /**
   * `apiFetch(rawPath, {token, method, body})`. A transport failure is the network error
   * and nothing else is; a non-2xx answer is an HTTP error carrying the status; a 2xx
   * answer resolves to the parsed data, else `{raw: text}` for a non-empty text, else `null`.
   */
  method ApiFetch(rawPath: string, token: string, httpMethod: string, body: Option<Json>, fetch: Request -> Transport)
    returns (r: Result<Json, ApiError>)
    ensures var t := fetch(BuildRequest(rawPath, token, httpMethod, body));
      && (r.Failure? && r.error.NetworkError? <==> t.Unreachable?)
      && (t.Unreachable? ==> r == Failure(NetworkError(NetworkMessage, t.detail)))
      && (t.Responded? && !IsOk(t.status) ==>
            && r.Failure? && r.error.HttpError?
            && r.error.status == t.status
            && r.error.data == DataOf(t.read)
            && r.error.backendMessage == BackendMessage(DataOf(t.read), TextOf(t.read), t.status))
      && (t.Responded? && IsOk(t.status) ==>
            && r.Success?
            && (DataOf(t.read) != JNull ==> r.value == DataOf(t.read))
            && (DataOf(t.read) == JNull && TextOf(t.read) != "" ==> r.value == JObj(map["raw" := JStr(TextOf(t.read))]))
            && (DataOf(t.read) == JNull && TextOf(t.read) == "" ==> r.value == JNull))
  {
    var req := BuildRequest(rawPath, token, httpMethod, body);
    var res := fetch(req);
    if res.Unreachable? {
      return Failure(NetworkError(NetworkMessage, res.detail));
    }
    var data := JNull;
    var text := "";
    match res.read {
      case Parsed(v) => data := v;
      case Text(t) => text := t;
      case Unreadable =>
    }
    if !IsOk(res.status) {
      return Failure(HttpError(res.status, BackendMessage(data, text, res.status), data));
    }
    if data != JNull {
      r := Success(data);
    } else if text != "" {
      r := Success(JObj(map["raw" := JStr(text)]));
    } else {
      r := Success(JNull);
    }
  }
}
