/** The AI backend facade of `src/api/ai.ts`: a base URL stripped of trailing
    slashes and a fixed catalogue of operations, each described by the request
    it hands to the gateway. */
module AiClient {
  import opened Wrappers
  import Text
  import J = Json
  import Uri
  import Http

  /** The only operation with its own timeout. */
  const SuggestTimeoutMs: int := 30000

  /** The page size `listSessions` asks for when the caller gives none. */
  const DefaultListLimit: int := 20

  /** The object `makeAiClient` returns; `baseUrl` is the stripped URL. */
  datatype Client = Client(baseUrl: string)

  /** `makeAiClient(baseUrl)`. */
  function MakeAiClient(baseUrl: string): (c: Client)
    ensures |c.baseUrl| <= |baseUrl| && c.baseUrl == baseUrl[..|c.baseUrl|]
    ensures c.baseUrl == [] || c.baseUrl[|c.baseUrl| - 1] != '/'
    ensures forall i :: |c.baseUrl| <= i < |baseUrl| ==> baseUrl[i] == '/'
  {
    Client(Uri.StripTrailingSlashes(baseUrl))
  }

  /** Building a client from a client's own base URL changes nothing. */
  lemma MakeAiClientIdempotent(baseUrl: string)
    ensures MakeAiClient(MakeAiClient(baseUrl).baseUrl) == MakeAiClient(baseUrl)
  {
    Uri.StripTrailingSlashesIdempotent(baseUrl);
  }

  /** The operations of the client, with their arguments. */
  datatype Op =
    | Health
    | CreateSession(body: J.Json)
    | GetSession(id: string)
    | ListSessions(tenantId: string, userId: string, limit: Option<int>)
    | AddEvents(id: string, body: J.Json)
    | Suggest(id: string, body: J.Json)
    | DeleteSession(id: string)

  /** The `/`-separated segments of each operation's path below the base URL. A session
      id is percent-encoded, so it is always a single segment. */
  function Segments(op: Op): (s: seq<string>)
    ensures |s| >= 1
    ensures forall i :: 0 <= i < |s| ==> '/' !in s[i]
    ensures op.Health? ==> s == ["health"]
    ensures op.CreateSession? || op.ListSessions? ==> s == ["v1", "sessions"]
    ensures op.GetSession? || op.DeleteSession? ==> s == ["v1", "sessions", Uri.EncodeComponent(op.id)]
    ensures op.AddEvents? ==> s == ["v1", "sessions", Uri.EncodeComponent(op.id), "events"]
    ensures op.Suggest? ==> s == ["v1", "sessions", Uri.EncodeComponent(op.id), "suggest"]
  {
    match op
    case Health => ["health"]
    case CreateSession(_) => ["v1", "sessions"]
    case ListSessions(_, _, _) => ["v1", "sessions"]
    case GetSession(id) => Uri.EncodedHasNoDelimiter(id); ["v1", "sessions", Uri.EncodeComponent(id)]
    case DeleteSession(id) => Uri.EncodedHasNoDelimiter(id); ["v1", "sessions", Uri.EncodeComponent(id)]
    case AddEvents(id, _) => Uri.EncodedHasNoDelimiter(id); ["v1", "sessions", Uri.EncodeComponent(id), "events"]
    case Suggest(id, _) => Uri.EncodedHasNoDelimiter(id); ["v1", "sessions", Uri.EncodeComponent(id), "suggest"]
  }

  /** One query parameter, `name=value`. */
  function Param(name: string, value: string): string {
    name + "=" + value
  }

  /** A parameter whose name and value avoid a character other than `=` avoids it too. */
  lemma ParamAvoids(name: string, value: string, ch: char)
    requires ch !in name && ch != '=' && ch !in value
    ensures ch !in Param(name, value)
  {
    assert Param(name, value) == name + ['='] + value;
  }

  /** A parameter with a delimiter-free name and an encoded value holds no `&` or `?`. */
  lemma EncodedParamAvoids(name: string, value: string)
    requires '&' !in name && '?' !in name
    ensures '&' !in Param(name, Uri.EncodeComponent(value)) && '?' !in Param(name, Uri.EncodeComponent(value))
  {
    Uri.EncodedHasNoDelimiter(value);
    ParamAvoids(name, Uri.EncodeComponent(value), '&');
    ParamAvoids(name, Uri.EncodeComponent(value), '?');
  }

  /** The parameter names hold neither `&` nor `?`. */
  lemma QueryNamesPlain()
    ensures '&' !in "tenant_id" && '?' !in "tenant_id" && '&' !in "user_id" && '?' !in "user_id"
    ensures '&' !in "limit" && '?' !in "limit"
  {
  }

  /** The parameters of `listSessions`, tenant, user and limit, with their values encoded;
      none holds a `&` or a `?`. */
  function QueryParts(tenantId: string, userId: string, limit: int): (parts: seq<string>)
    ensures |parts| == 3
    ensures forall i :: 0 <= i < |parts| ==> '&' !in parts[i] && '?' !in parts[i]
  {
    var t := Uri.EncodeComponent(tenantId);
    var u := Uri.EncodeComponent(userId);
    var l := Text.IntToString(limit);
    QueryNamesPlain();
    EncodedParamAvoids("tenant_id", tenantId);
    EncodedParamAvoids("user_id", userId);
    IntTextHasNoDelimiter(limit);
    ParamAvoids("limit", l, '&');
    ParamAvoids("limit", l, '?');
    var parts := [Param("tenant_id", t), Param("user_id", u), Param("limit", l)];
    parts
  }

  /** The query of `listSessions`: its parameters joined by `&`. */
  function ListQuery(tenantId: string, userId: string, limit: int): string {
    Text.Join(QueryParts(tenantId, userId, limit), '&')
  }

  /** The path and query of each operation, appended to the base URL. */
  function Path(op: Op): string {
    var path := ['/'] + Text.Join(Segments(op), '/');
    match op
    case ListSessions(t, u, limit) => path + ['?'] + ListQuery(t, u, limit.GetOr(DefaultListLimit))
    case _ => path
  }

  /** The request each operation hands to `httpJson`. */
  function RequestFor(c: Client, op: Op): (r: Http.Request)
    ensures Text.StartsWith(r.url, c.baseUrl + "/")
    ensures r.verb == Http.Get <==> op.Health? || op.GetSession? || op.ListSessions?
    ensures r.verb == Http.Post <==> op.CreateSession? || op.AddEvents? || op.Suggest?
    ensures r.verb == Http.Delete <==> op.DeleteSession?
    ensures r.body.Some? <==> r.verb == Http.Post
    ensures r.body.Some? ==> r.body.value == op.body
    ensures r.timeoutMs.Some? <==> op.Suggest?
    ensures op.Suggest? ==> r.timeoutMs == Some(SuggestTimeoutMs)
  {
    var url := c.baseUrl + Path(op);
    assert url[..|c.baseUrl| + 1] == c.baseUrl + "/";
    match op
    case Health => Http.Request(url, Http.Get, None, None)
    case CreateSession(body) => Http.Request(url, Http.Post, Some(body), None)
    case GetSession(_) => Http.Request(url, Http.Get, None, None)
    case ListSessions(_, _, _) => Http.Request(url, Http.Get, None, None)
    case AddEvents(_, body) => Http.Request(url, Http.Post, Some(body), None)
    case Suggest(_, body) => Http.Request(url, Http.Post, Some(body), Some(SuggestTimeoutMs))
    case DeleteSession(_) => Http.Request(url, Http.Delete, None, None)
  }

  /** The timeout the gateway applies: 30000 ms for `suggest`, the 20000 ms default otherwise. */
  lemma EffectiveTimeout(c: Client, op: Op)
    ensures var r := RequestFor(c, op);
            Http.Prepare(r.url, Http.OptionsOf(r)).timeoutMs == if op.Suggest? then 30000 else 20000
  {
  }

  /** `listSessions` without a limit asks for 20. */
  lemma ListSessionsDefaultLimit(c: Client, tenantId: string, userId: string)
    ensures RequestFor(c, ListSessions(tenantId, userId, None)) == RequestFor(c, ListSessions(tenantId, userId, Some(20)))
  {
  }

  /** The URL of a request is the base URL followed by the operation's path. */
  lemma RequestUrl(c: Client, op: Op)
    ensures RequestFor(c, op).url == c.baseUrl + Path(op)
  {
  }

  /** Only `listSessions` has a query: every other path is its segments after a `/`. */
  lemma PathNoQuery(op: Op)
    requires !op.ListSessions?
    ensures Path(op) == ['/'] + Text.Join(Segments(op), '/')
  {
  }

  /** Below the base URL, a path without a query splits into exactly the operation's segments. */
  lemma UrlSegments(c: Client, op: Op)
    requires !op.ListSessions?
    ensures Text.Split(RequestFor(c, op).url, '/') == Text.Split(c.baseUrl, '/') + Segments(op)
  {
    RequestUrl(c, op);
    PathNoQuery(op);
    Text.SplitUnder(c.baseUrl, Segments(op), '/');
  }

  /** Session-scoped operations embed the encoded id as exactly one path segment. */
  lemma SessionUrlSegments(c: Client, id: string, body: J.Json)
    ensures Text.Split(RequestFor(c, GetSession(id)).url, '/') == Text.Split(c.baseUrl, '/') + ["v1", "sessions", Uri.EncodeComponent(id)]
    ensures Text.Split(RequestFor(c, DeleteSession(id)).url, '/') == Text.Split(c.baseUrl, '/') + ["v1", "sessions", Uri.EncodeComponent(id)]
    ensures Text.Split(RequestFor(c, AddEvents(id, body)).url, '/') == Text.Split(c.baseUrl, '/') + ["v1", "sessions", Uri.EncodeComponent(id), "events"]
    ensures Text.Split(RequestFor(c, Suggest(id, body)).url, '/') == Text.Split(c.baseUrl, '/') + ["v1", "sessions", Uri.EncodeComponent(id), "suggest"]
  {
    UrlSegments(c, GetSession(id));
    UrlSegments(c, DeleteSession(id));
    UrlSegments(c, AddEvents(id, body));
    UrlSegments(c, Suggest(id, body));
  }

  /** A rendered number holds no query delimiter. */
  lemma IntTextHasNoDelimiter(n: int)
    ensures '&' !in Text.IntToString(n) && '?' !in Text.IntToString(n)
  {
    var s := if n >= 0 then Text.NatToString(n) else Text.NatToString(-n);
    assert forall i :: 0 <= i < |s| ==> Text.IsDigit(s[i]);
  }

  /** The `listSessions` query has exactly three parameters, tenant, user and limit, in that order. */
  lemma ListQueryParts(tenantId: string, userId: string, limit: int)
    ensures Text.Split(ListQuery(tenantId, userId, limit), '&')
            == [Param("tenant_id", Uri.EncodeComponent(tenantId)), Param("user_id", Uri.EncodeComponent(userId)),
                Param("limit", Text.IntToString(limit))]
  {
    Text.SplitJoin(QueryParts(tenantId, userId, limit), '&');
  }

  /** The path of the sessions collection is `/v1/sessions`. */
  lemma SessionsText()
    ensures ['/'] + Text.Join(["v1", "sessions"], '/') == "/v1/sessions"
  {
    assert ["v1", "sessions"][1..] == ["sessions"];
  }

  /** The `listSessions` query holds no `?`. */
  lemma ListQueryAvoidsQuestion(tenantId: string, userId: string, limit: int)
    ensures '?' !in ListQuery(tenantId, userId, limit)
  {
    Text.JoinAvoids(QueryParts(tenantId, userId, limit), '&', '?');
  }

  /** The `listSessions` URL is the collection URL, a `?` and the query. */
  lemma ListUrlShape(c: Client, tenantId: string, userId: string, limit: Option<int>)
    ensures RequestFor(c, ListSessions(tenantId, userId, limit)).url
            == (c.baseUrl + "/v1/sessions") + ['?'] + ListQuery(tenantId, userId, limit.GetOr(DefaultListLimit))
  {
    var op := ListSessions(tenantId, userId, limit);
    var q := ListQuery(tenantId, userId, limit.GetOr(DefaultListLimit));
    RequestUrl(c, op);
    ListPath(tenantId, userId, limit);
    assert c.baseUrl + ("/v1/sessions" + ['?'] + q) == (c.baseUrl + "/v1/sessions") + ['?'] + q;
  }

  /** The path of `listSessions` is `/v1/sessions`, a `?` and the query. */
  lemma ListPath(tenantId: string, userId: string, limit: Option<int>)
    ensures Path(ListSessions(tenantId, userId, limit)) == "/v1/sessions" + ['?'] + ListQuery(tenantId, userId, limit.GetOr(DefaultListLimit))
  {
    SessionsText();
  }

  /** The `listSessions` URL is the sessions collection, one `?`, and that query. */
  lemma ListSessionsUrl(c: Client, tenantId: string, userId: string, limit: Option<int>)
    requires '?' !in c.baseUrl
    ensures Text.Split(RequestFor(c, ListSessions(tenantId, userId, limit)).url, '?')
            == [c.baseUrl + "/v1/sessions", ListQuery(tenantId, userId, limit.GetOr(DefaultListLimit))]
  {
    var q := ListQuery(tenantId, userId, limit.GetOr(DefaultListLimit));
    var p := c.baseUrl + "/v1/sessions";
    ListUrlShape(c, tenantId, userId, limit);
    ListQueryAvoidsQuestion(tenantId, userId, limit.GetOr(DefaultListLimit));
    assert '?' !in "/v1/sessions";
    assert '?' !in p;
    Text.SplitNoSep(p, '?');
    Text.SplitNoSep(q, '?');
    Text.SplitAppend(p, q, '?');
  }
}
