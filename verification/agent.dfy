/** The local agent facade of `src/api/agent.ts`: a base URL stripped of
    trailing slashes and four operations, the three POSTs with a long timeout. */
module AgentClient {
  import opened Wrappers
  import Text
  import J = Json
  import Uri
  import Http

  /** The timeout of every agent operation that does work. */
  const AgentTimeoutMs: int := 120000

  /** The object `makeAgentClient` returns; `baseUrl` is the stripped URL. */
  datatype Client = Client(baseUrl: string)

  /** `makeAgentClient(baseUrl)`. */
  function MakeAgentClient(baseUrl: string): (c: Client)
    ensures |c.baseUrl| <= |baseUrl| && c.baseUrl == baseUrl[..|c.baseUrl|]
    ensures c.baseUrl == [] || c.baseUrl[|c.baseUrl| - 1] != '/'
    ensures forall i :: |c.baseUrl| <= i < |baseUrl| ==> baseUrl[i] == '/'
  {
    Client(Uri.StripTrailingSlashes(baseUrl))
  }

  /** A URL that does not end in `/` is exposed as given. */
  lemma MakeAgentClientKeeps(baseUrl: string)
    requires baseUrl == [] || baseUrl[|baseUrl| - 1] != '/'
    ensures MakeAgentClient(baseUrl).baseUrl == baseUrl
  {
    Uri.StripTrailingSlashesNoSlash(baseUrl);
  }

  /** The body of `autoRecon`. */
  datatype AutoReconBody = AutoReconBody(
    sessionId: string,
    baseUrl: string,
    targets: seq<string>,
    enableNmap: bool,
    fullPort: bool,
    once: bool,
    verbose: bool)

  /** The member names of the `autoRecon` body, in the order it lists them. */
  const AutoReconNames: seq<string> := ["session_id", "base_url", "targets", "enable_nmap", "full_port", "once", "verbose"]

  lemma AutoReconNamesDistinct()
    ensures J.Distinct(AutoReconNames)
  {
  }

  /** The body of `autoRecon` as the object that is serialised. */
  function AutoReconJson(b: AutoReconBody): (r: J.Json)
    ensures r.JObj? && J.NamesOnly(r, AutoReconNames)
    ensures J.Get(r, "session_id") == Some(J.JStr(b.sessionId))
    ensures J.Get(r, "base_url") == Some(J.JStr(b.baseUrl))
    ensures J.Get(r, "targets") == Some(J.Strings(b.targets))
    ensures J.Get(r, "enable_nmap") == Some(J.JBool(b.enableNmap))
    ensures J.Get(r, "full_port") == Some(J.JBool(b.fullPort))
    ensures J.Get(r, "once") == Some(J.JBool(b.once))
    ensures J.Get(r, "verbose") == Some(J.JBool(b.verbose))
  {
    var values := [Some(J.JStr(b.sessionId)), Some(J.JStr(b.baseUrl)), Some(J.Strings(b.targets)),
                   Some(J.JBool(b.enableNmap)), Some(J.JBool(b.fullPort)), Some(J.JBool(b.once)), Some(J.JBool(b.verbose))];
    AutoReconNamesDistinct();
    J.MembersLookup(AutoReconNames, values, 0);
    J.MembersLookup(AutoReconNames, values, 1);
    J.MembersLookup(AutoReconNames, values, 2);
    J.MembersLookup(AutoReconNames, values, 3);
    J.MembersLookup(AutoReconNames, values, 4);
    J.MembersLookup(AutoReconNames, values, 5);
    J.MembersLookup(AutoReconNames, values, 6);
    J.MembersNamesOnly(AutoReconNames, values);
    J.JObj(J.Members(AutoReconNames, values))
  }

  /** The body of `ingestHistory`; `history_files` is optional. */
  datatype IngestHistoryBody = IngestHistoryBody(
    sessionId: string,
    baseUrl: string,
    historyFiles: Option<seq<string>>,
    once: bool,
    verbose: bool)

  /** The member names of the `ingestHistory` body, in the order it lists them. */
  const IngestHistoryNames: seq<string> := ["session_id", "base_url", "history_files", "once", "verbose"]

  lemma IngestHistoryNamesDistinct()
    ensures J.Distinct(IngestHistoryNames)
  {
  }

  /** The body of `ingestHistory` as the object that is serialised; a missing list is left out. */
  function IngestHistoryJson(b: IngestHistoryBody): (r: J.Json)
    ensures r.JObj? && J.NamesOnly(r, IngestHistoryNames)
    ensures J.Get(r, "session_id") == Some(J.JStr(b.sessionId))
    ensures J.Get(r, "base_url") == Some(J.JStr(b.baseUrl))
    ensures b.historyFiles.Some? ==> J.Get(r, "history_files") == Some(J.Strings(b.historyFiles.value))
    ensures b.historyFiles.None? ==> J.Get(r, "history_files").None?
    ensures J.Get(r, "once") == Some(J.JBool(b.once))
    ensures J.Get(r, "verbose") == Some(J.JBool(b.verbose))
  {
    var files := if b.historyFiles.Some? then Some(J.Strings(b.historyFiles.value)) else None;
    var values := [Some(J.JStr(b.sessionId)), Some(J.JStr(b.baseUrl)), files, Some(J.JBool(b.once)), Some(J.JBool(b.verbose))];
    IngestHistoryNamesDistinct();
    J.MembersLookup(IngestHistoryNames, values, 0);
    J.MembersLookup(IngestHistoryNames, values, 1);
    J.MembersLookup(IngestHistoryNames, values, 2);
    J.MembersLookup(IngestHistoryNames, values, 3);
    J.MembersLookup(IngestHistoryNames, values, 4);
    J.MembersNamesOnly(IngestHistoryNames, values);
    J.JObj(J.Members(IngestHistoryNames, values))
  }

  /** The body of `run`; `timeout` is optional. */
  datatype RunBody = RunBody(command: string, timeout: Option<int>)

  function RunJson(b: RunBody): (r: J.Json)
    ensures r.JObj? && J.NamesOnly(r, ["command", "timeout"])
    ensures J.Get(r, "command") == Some(J.JStr(b.command))
    ensures b.timeout.Some? ==> J.Get(r, "timeout") == Some(J.JNum(b.timeout.value))
    ensures b.timeout.None? ==> J.Get(r, "timeout").None?
  {
    var values := [Some(J.JStr(b.command)), if b.timeout.Some? then Some(J.JNum(b.timeout.value)) else None];
    assert J.Distinct(["command", "timeout"]);
    J.MembersLookup(["command", "timeout"], values, 0);
    J.MembersLookup(["command", "timeout"], values, 1);
    J.MembersNamesOnly(["command", "timeout"], values);
    J.JObj(J.Members(["command", "timeout"], values))
  }

  /** The operations of the client; each POST takes its body as the caller built it. */
  datatype Op =
    | Health
    | AutoRecon(body: J.Json)
    | IngestHistory(body: J.Json)
    | Run(body: J.Json)

  /** The single path segment of each operation. */
  function Endpoint(op: Op): (s: string)
    ensures s != "" && '/' !in s
    ensures op.Health? ==> s == "health"
    ensures op.AutoRecon? ==> s == "auto-recon"
    ensures op.IngestHistory? ==> s == "ingest-history"
    ensures op.Run? ==> s == "run"
  {
    match op
    case Health => "health"
    case AutoRecon(_) => "auto-recon"
    case IngestHistory(_) => "ingest-history"
    case Run(_) => "run"
  }

  /** The request each operation hands to `httpJson`. */
  function RequestFor(c: Client, op: Op): (r: Http.Request)
    ensures Text.StartsWith(r.url, c.baseUrl + "/")
    ensures r.verb == Http.Get <==> op.Health?
    ensures r.verb == Http.Post <==> !op.Health?
    ensures r.body.Some? <==> !op.Health?
    ensures r.body.Some? ==> r.body.value == op.body
    ensures op.Health? ==> r.timeoutMs.None?
    ensures !op.Health? ==> r.timeoutMs == Some(AgentTimeoutMs)
  {
    var url := c.baseUrl + "/" + Endpoint(op);
    assert url[..|c.baseUrl| + 1] == c.baseUrl + "/";
    match op
    case Health => Http.Request(url, Http.Get, None, None)
    case AutoRecon(body) => Http.Request(url, Http.Post, Some(body), Some(AgentTimeoutMs))
    case IngestHistory(body) => Http.Request(url, Http.Post, Some(body), Some(AgentTimeoutMs))
    case Run(body) => Http.Request(url, Http.Post, Some(body), Some(AgentTimeoutMs))
  }

  /** Every agent URL is the base URL plus exactly one segment naming the operation. */
  lemma AgentUrlSegments(c: Client, op: Op)
    ensures Text.Split(RequestFor(c, op).url, '/') == Text.Split(c.baseUrl, '/') + [Endpoint(op)]
  {
    var e := Endpoint(op);
    Text.SplitNoSep(e, '/');
    assert c.baseUrl + "/" + e == c.baseUrl + ['/'] + e;
    Text.SplitAppend(c.baseUrl, e, '/');
  }

  /** The timeout the gateway applies: the default for `health`, 120000 ms for the rest. */
  lemma AgentEffectiveTimeout(c: Client, op: Op)
    ensures var r := RequestFor(c, op);
            Http.Prepare(r.url, Http.OptionsOf(r)).timeoutMs == if op.Health? then Http.DefaultTimeoutMs else 120000
  {
  }
}
