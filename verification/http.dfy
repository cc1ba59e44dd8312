/** The request gateway of `src/api/http.ts`. `fetch`, the abort timer and
    `JSON.parse` are outside the model: what the gateway prepares for `fetch`
    is computed here, and what `fetch` produced comes in as an `Outcome`. */
module Http {
  import opened Wrappers
  import Text
  import J = Json

  /** The timeout applied when the caller gives none. */
  const DefaultTimeoutMs: int := 20000

  const ContentType: string := "Content-Type"
  const JsonMediaType: string := "application/json"

  datatype Method = Get | Post | Delete

  /** What a backend client asks of the gateway: the body is the value handed to `JSON.stringify`. */
  datatype Request = Request(url: string, verb: Method, body: Option<J.Json>, timeoutMs: Option<int>)

  /** `RequestInit & { timeoutMs?: number }` as the gateway receives it. */
  datatype Options = Options(verb: Method, body: Option<string>, headers: map<string, string>, timeoutMs: Option<int>)

  /** What is handed to `fetch`, and the delay after which the request is aborted. */
  datatype Prepared = Prepared(url: string, verb: Method, body: Option<string>, headers: map<string, string>, timeoutMs: int)

  /** The options a backend client passes: the body serialised, no headers of its own. */
  function OptionsOf(r: Request): (o: Options)
    ensures o.verb == r.verb && o.timeoutMs == r.timeoutMs && o.headers == map[]
    ensures r.body.None? <==> o.body.None?
    ensures r.body.Some? ==> o.body == Some(J.Serialize(r.body.value))
  {
    Options(r.verb, if r.body.Some? then Some(J.Serialize(r.body.value)) else None, map[], r.timeoutMs)
  }

  /** `if (init.body)`: a body that is present and non-empty. */
  predicate HasBody(body: Option<string>) {
    body.Some? && body.value != ""
  }

  /** The request headers: `Content-Type: application/json` when there is a body,
      then the caller's headers merged over it. */
  function Headers(body: Option<string>, caller: map<string, string>): (h: map<string, string>)
    ensures h.Keys == caller.Keys + (if HasBody(body) then {ContentType} else {})
    ensures forall k :: k in caller ==> h[k] == caller[k]
    ensures HasBody(body) && ContentType !in caller ==> h[ContentType] == JsonMediaType
  {
    var base: map<string, string> := if HasBody(body) then map[ContentType := JsonMediaType] else map[];
    base + caller
  }

  /** The part of `httpJson` and `httpVoid` that runs before `fetch`. */
  function Prepare(url: string, opts: Options): (p: Prepared)
    ensures p.url == url && p.verb == opts.verb && p.body == opts.body
    ensures p.headers == Headers(opts.body, opts.headers)
    ensures opts.timeoutMs.None? ==> p.timeoutMs == DefaultTimeoutMs
    ensures opts.timeoutMs.Some? ==> p.timeoutMs == opts.timeoutMs.value
  {
    Prepared(url, opts.verb, opts.body, Headers(opts.body, opts.headers), opts.timeoutMs.GetOr(DefaultTimeoutMs))
  }

  /** A request from a backend client carries `Content-Type: application/json` exactly when it has a body. */
  lemma JsonBodyHeader(r: Request)
    ensures var p := Prepare(r.url, OptionsOf(r));
            && (ContentType in p.headers <==> r.body.Some?)
            && (r.body.Some? ==> p.headers[ContentType] == JsonMediaType)
            && p.headers.Keys <= {ContentType}
  {
  }

  /** The body of a response: `res.text()` resolves with the text, or rejects. */
  datatype Body = Readable(text: string) | Unreadable(name: string, message: string)

  datatype Response = Response(status: int, statusText: string, body: Body) {
    /** `res.ok`: the status is in the 2xx range. */
    predicate Ok() {
      200 <= status <= 299
    }
  }

  /** What `fetch` produced: a response, or a rejection (a network failure, or the abort after the timeout). */
  datatype Outcome = Responded(response: Response) | FetchFailed(name: string, message: string)

  /** `HttpError`. Its `name` is the inherited "Error". */
  datatype HttpError = HttpError(message: string, status: int, url: string, bodyText: string)

  /** Anything a gateway call can throw. */
  datatype Failure = HttpFailed(error: HttpError) | Thrown(name: string, message: string)

  /** `e?.message || String(e)`: the text a page shows for a failure. `String(e)` of an
      error with an empty message is its name. */
  function Describe(f: Failure): (r: string)
    ensures f.HttpFailed? && f.error.message != "" ==> r == f.error.message
    ensures f.HttpFailed? && f.error.message == "" ==> r == "Error"
    ensures f.Thrown? && f.message != "" ==> r == f.message
    ensures f.Thrown? && f.message == "" ==> r == f.name
  {
    match f
    case HttpFailed(e) => if e.message != "" then e.message else "Error"
    case Thrown(name, message) => if message != "" then message else name
  }

  /** `parseJsonOrText`: empty text is `null`, JSON text is its value, anything else is kept as text. */
  function ParseJsonOrText(text: string, parse: string -> Option<J.Json>): (r: J.Json)
    ensures text == "" ==> r == J.JNull
    ensures text != "" && parse(text).Some? ==> r == parse(text).value
    ensures text != "" && parse(text).None? ==> r == J.JStr(text)
  {
    if text == "" then J.JNull
    else match parse(text)
      case Some(v) => v
      case None => J.JStr(text)
  }

  /** Text that does not parse comes back unchanged. */
  lemma ParseJsonOrTextKeepsText(text: string, parse: string -> Option<J.Json>)
    requires text != "" && parse(text).None?
    ensures J.JsString(ParseJsonOrText(text, parse)) == text
  {
  }

  /** A serialised value is read back as that value by a parser that inverts `JSON.stringify`. */
  lemma ParseJsonOrTextSerialized(v: J.Json, parse: string -> Option<J.Json>)
    requires parse(J.Serialize(v)) == Some(v)
    ensures ParseJsonOrText(J.Serialize(v), parse) == v
  {
  }

  /** `${res.status} ${res.statusText}`. */
  function StatusLine(status: int, statusText: string): (r: string)
    ensures |r| > |statusText| && r[|r| - |statusText| - 1] == ' '
    ensures r[|r| - |statusText|..] == statusText
    ensures r[..|r| - |statusText| - 1] == Text.IntToString(status)
  {
    var r := Text.IntToString(status) + " " + statusText;
    assert r[|r| - |statusText|..] == statusText;
    assert r[..|r| - |statusText| - 1] == Text.IntToString(status);
    r
  }

  /** The text before the space reads back as the status code. */
  lemma StatusLineValue(status: nat, statusText: string)
    ensures var r := StatusLine(status, statusText);
            Text.DigitsValue(r[..|r| - |statusText| - 1]) == status
  {
    Text.NatToStringValue(status);
  }

  /** The message of a failed response: a truthy `detail` of an object body, else a
      truthy `message`, else the status line. */
  function ErrorMessage(parsed: J.Json, status: int, statusText: string): (r: string)
    ensures J.TruthyOpt(J.Get(parsed, "detail")) ==> r == J.JsString(J.Get(parsed, "detail").value)
    ensures !J.TruthyOpt(J.Get(parsed, "detail")) && J.TruthyOpt(J.Get(parsed, "message")) ==>
              r == J.JsString(J.Get(parsed, "message").value)
    ensures !J.TruthyOpt(J.Get(parsed, "detail")) && !J.TruthyOpt(J.Get(parsed, "message")) ==>
              r == StatusLine(status, statusText)
  {
    var detail := J.Get(parsed, "detail");
    var message := J.Get(parsed, "message");
    if J.TruthyOpt(detail) then J.JsString(detail.value)
    else if J.TruthyOpt(message) then J.JsString(message.value)
    else StatusLine(status, statusText)
  }

  /** Only an object body can supply the message: `null`, text, numbers and arrays give the status line. */
  lemma ErrorMessageNonObject(parsed: J.Json, status: int, statusText: string)
    requires !parsed.JObj?
    ensures ErrorMessage(parsed, status, statusText) == StatusLine(status, statusText)
  {
  }

  /** `{"detail":"x not found"}` gives "x not found". */
  lemma ErrorMessageDetailExample(status: int, statusText: string)
    ensures ErrorMessage(J.JObj([("detail", J.JStr("x not found"))]), status, statusText) == "x not found"
  {
    J.LookupUnique([("detail", J.JStr("x not found"))], 0);
  }

  /** The text of a failed response; a body that cannot be read counts as "". */
  function BodyText(b: Body): (t: string)
    ensures b.Readable? ==> t == b.text
    ensures b.Unreadable? ==> t == ""
  {
    match b
    case Readable(text) => text
    case Unreadable(_, _) => ""
  }

  /** `readErrorMessage`: the error carries the status, the URL and the raw body text. */
  function ReadErrorMessage(res: Response, url: string, parse: string -> Option<J.Json>): (e: HttpError)
    ensures e.status == res.status && e.url == url && e.bodyText == BodyText(res.body)
    ensures e.message == ErrorMessage(ParseJsonOrText(BodyText(res.body), parse), res.status, res.statusText)
  {
    var text := BodyText(res.body);
    HttpError(ErrorMessage(ParseJsonOrText(text, parse), res.status, res.statusText), res.status, url, text)
  }

  /** An empty or unreadable body gives the status line. */
  lemma EmptyBodyStatusLine(res: Response, url: string, parse: string -> Option<J.Json>)
    requires res.body.Unreadable? || res.body == Readable("")
    ensures ReadErrorMessage(res, url, parse).message == StatusLine(res.status, res.statusText)
  {
  }

  /** `httpJson` after `fetch`: what the call resolves with or throws. */
  function HttpJson(url: string, outcome: Outcome, parse: string -> Option<J.Json>): (r: Result<J.Json, Failure>)
    ensures outcome.FetchFailed? ==> r == Failure(Thrown(outcome.name, outcome.message))
    ensures outcome.Responded? && !outcome.response.Ok() ==>
              r == Failure(HttpFailed(ReadErrorMessage(outcome.response, url, parse)))
    ensures outcome.Responded? && outcome.response.Ok() && outcome.response.status == 204 ==> r == Success(J.JNull)
    ensures r.Success? ==> outcome.Responded? && outcome.response.Ok()
  {
    match outcome
    case FetchFailed(name, message) => Failure(Thrown(name, message))
    case Responded(res) =>
      if !res.Ok() then Failure(HttpFailed(ReadErrorMessage(res, url, parse)))
      else if res.status == 204 then Success(J.JNull)
      else match res.body
        case Readable(text) => Success(ParseJsonOrText(text, parse))
        case Unreadable(name, message) => Failure(Thrown(name, message))
  }

  /** A successful response other than 204 resolves with its parsed body. */
  lemma HttpJsonBody(url: string, res: Response, text: string, parse: string -> Option<J.Json>)
    requires res.Ok() && res.status != 204 && res.body == Readable(text)
    ensures HttpJson(url, Responded(res), parse) == Success(ParseJsonOrText(text, parse))
  {
  }

  /** A 204 response is not read: its body does not matter. */
  lemma NoContentIgnoresBody(url: string, res: Response, other: Body, parse: string -> Option<J.Json>)
    requires res.Ok() && res.status == 204
    ensures HttpJson(url, Responded(res), parse) == HttpJson(url, Responded(res.(body := other)), parse)
  {
  }

  /** `httpVoid` after `fetch`. */
  function HttpVoid(url: string, outcome: Outcome, parse: string -> Option<J.Json>): (r: Result<(), Failure>)
    ensures r.Success? <==> outcome.Responded? && outcome.response.Ok()
    ensures outcome.FetchFailed? ==> r == Failure(Thrown(outcome.name, outcome.message))
    ensures outcome.Responded? && !outcome.response.Ok() ==>
              r == Failure(HttpFailed(ReadErrorMessage(outcome.response, url, parse)))
  {
    match outcome
    case FetchFailed(name, message) => Failure(Thrown(name, message))
    case Responded(res) =>
      if !res.Ok() then Failure(HttpFailed(ReadErrorMessage(res, url, parse)))
      else Success(())
  }

  /** A non-ok response raises the same error in both gateways, and never yields a value. */
  lemma NonOkAlwaysRaises(url: string, res: Response, parse: string -> Option<J.Json>)
    requires !res.Ok()
    ensures HttpJson(url, Responded(res), parse).Failure?
    ensures HttpVoid(url, Responded(res), parse).Failure?
    ensures HttpJson(url, Responded(res), parse).error == HttpVoid(url, Responded(res), parse).error
    ensures HttpJson(url, Responded(res), parse).error.HttpFailed?
  {
  }

  /** Whenever `httpJson` succeeds, `httpVoid` does too; they differ only when an ok body cannot be read. */
  lemma HttpVoidAgrees(url: string, outcome: Outcome, parse: string -> Option<J.Json>)
    ensures HttpJson(url, outcome, parse).Success? ==> HttpVoid(url, outcome, parse).Success?
    ensures HttpVoid(url, outcome, parse).Failure? ==>
              HttpJson(url, outcome, parse) == Failure(HttpVoid(url, outcome, parse).error)
  {
  }
}
