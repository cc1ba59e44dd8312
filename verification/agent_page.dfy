/** The actions of `src/pages/AgentPage.tsx`: refresh the current session from
    the AI backend and drive the local agent's recon and history ingestion. */
module AgentPage {
  import opened Wrappers
  import Text
  import J = Json
  import Http
  import Store
  import AiClient
  import AgentClient
  import opened Page

  /** A piece of a line split loses the `\r` of a `\r\n` line break. */
  function DropCr(p: string): (r: string)
    ensures Text.Trim(r) == Text.Trim(p)
    ensures r == p || r + ['\r'] == p
    ensures r == p[..|r|]
  {
    if |p| > 0 && p[|p| - 1] == '\r' then
      var q := p[..|p| - 1];
      assert q + ['\r'] == p;
      Text.TrimDropsTrailingCr(q);
      q
    else p
  }

  /** Every piece but the last ends at a line break and so loses its `\r`. */
  function DropCrs(ps: seq<string>): (r: seq<string>)
    ensures |r| == |ps| && forall i :: 0 <= i < |ps| ==> r[i] == DropCr(ps[i])
  {
    seq(|ps|, i requires 0 <= i < |ps| => DropCr(ps[i]))
  }

  /** `text.split(/\r?\n/)`: the pieces between `\n`s, each but the last without the `\r`
      that belongs to its line break. */
  function RegexSplitLines(text: string): (r: seq<string>)
    ensures Text.SepFree(r, '\n')
    ensures Text.TrimAlike(r, Text.Split(text, '\n'))
  {
    var parts := Text.Split(text, '\n');
    var n := |parts|;
    var r := DropCrs(parts[..n - 1]) + [parts[n - 1]];
    forall i | 0 <= i < n
      ensures '\n' !in r[i] && Text.Trim(r[i]) == Text.Trim(parts[i])
    {
      assert '\n' !in parts[i];
      if i < n - 1 {
        assert r[i] == DropCr(parts[i]);
        assert r[i] == parts[i][..|r[i]|];
      }
    }
    r
  }

  /** `splitLines(text)`: the trimmed, non-blank lines. */
  function SplitLines(text: string): (r: seq<string>)
    ensures Text.CleanEntries(r, '\n')
  {
    Text.CleanSepFree(RegexSplitLines(text), '\n');
    Text.Clean(RegexSplitLines(text))
  }

  /** Because every line is trimmed, the `\r` of a `\r\n` changes nothing: the lines are
      the trimmed, non-blank pieces of the text split on `\n` alone. */
  lemma SplitLinesPieces(text: string)
    ensures SplitLines(text) == Text.Pieces(text, '\n')
  {
    Text.CleanTrimAlike(RegexSplitLines(text), Text.Split(text, '\n'));
  }

  /** Windows and Unix line breaks give the same lines. */
  lemma SplitLinesCrlf(a: string, b: string)
    ensures SplitLines(a + "\r\n" + b) == SplitLines(a + "\n" + b)
  {
    SplitLinesPieces(a + "\r\n" + b);
    SplitLinesPieces(a + "\n" + b);
    Text.PiecesCrBeforeSep(a, b, '\n');
  }

  /** Lines keep their order: the lines of `a`, a line break, `b` are those of `a` then those of `b`. */
  lemma SplitLinesAppend(a: string, b: string)
    ensures SplitLines(a + "\n" + b) == SplitLines(a) + SplitLines(b)
  {
    SplitLinesPieces(a + "\n" + b);
    SplitLinesPieces(a);
    SplitLinesPieces(b);
    assert a + "\n" + b == a + ['\n'] + b;
    Text.PiecesAppend(a, b, '\n');
  }

  /** Lines written one per line read back as written. */
  lemma SplitLinesJoin(xs: seq<string>)
    requires Text.CleanEntries(xs, '\n')
    ensures SplitLines(Text.Join(xs, '\n')) == xs
  {
    SplitLinesPieces(Text.Join(xs, '\n'));
    Text.PiecesJoin(xs, '\n');
  }

  /** The controls, the last agent answer, the refreshed session, the error line and the
      agent script's download link. */
  datatype View = View(
    targetsCsv: string,
    enableNmap: bool,
    fullPort: bool,
    verbose: bool,
    once: bool,
    historyFiles: string,
    agentResp: J.Json,
    session: J.Json,
    err: string,
    downloadUrl: string)

  /** The page as it mounts: targets start at the configured CSV, verbose and once are on.
      `downloadUrl` is what the AI client's `kaliAgentDownloadUrl` gives, an abstract operation here. */
  function Open(store: Store.State, downloadUrl: string): (v: View)
    ensures v.targetsCsv == store.config.defaultTargetsCsv
    ensures !v.enableNmap && !v.fullPort && v.verbose && v.once
    ensures v.historyFiles == "" && v.agentResp == J.JNull && v.session == J.JNull && v.err == ""
    ensures v.downloadUrl == downloadUrl
  {
    View(store.config.defaultTargetsCsv, false, false, true, true, "", J.JNull, J.JNull, "", downloadUrl)
  }

  /** The page as written: the client it builds has no `kaliAgentDownloadUrl`, so rendering
      throws before any control exists, whatever the configuration. */
  function OpenAsWritten(store: Store.State): (r: Result<View, Http.Failure>)
    ensures r.Failure? && r.error.Thrown? && r.error.name == "TypeError"
    ensures Http.Describe(r.error) == "ai.kaliAgentDownloadUrl is not a function"
  {
    Failure(NotAFunction("ai.kaliAgentDownloadUrl"))
  }

  /** As written the page never renders; with the download link supplied it opens with
      that link and the page's defaults, and nothing is sent. */
  lemma OpenDiscrepancy(store: Store.State, downloadUrl: string)
    ensures OpenAsWritten(store).Failure?
    ensures var v := Open(store, downloadUrl);
            v.downloadUrl == downloadUrl && v.targetsCsv == store.config.defaultTargetsCsv && v.err == ""
  {
  }

  /** The agent client of the configured local agent URL. */
  function Agent(store: Store.State): AgentClient.Client {
    AgentClient.MakeAgentClient(store.config.localAgentUrl)
  }

  /** `refreshSession`: silent without a session; a failure keeps the last session shown. */
  function RefreshSession(v: View, store: Store.State, outcome: Outcome): (r: Step<View>)
    ensures r.store == store
    ensures store.sessionId == "" ==> r.view == v && r.sent.None?
    ensures store.sessionId != "" ==>
              r.sent == Some(AiClient.RequestFor(AiClient.MakeAiClient(store.config.aiBaseUrl), AiClient.GetSession(store.sessionId)))
    ensures store.sessionId != "" && outcome.Success? ==> r.view == v.(session := outcome.value, err := "")
    ensures store.sessionId != "" && outcome.Failure? ==> r.view == v.(err := Http.Describe(outcome.error))
  {
    if store.sessionId == "" then Step(v, store, None)
    else
      var sent := Some(AiClient.RequestFor(AiClient.MakeAiClient(store.config.aiBaseUrl), AiClient.GetSession(store.sessionId)));
      match outcome
      case Success(s) => Step(v.(session := s, err := ""), store, sent)
      case Failure(e) => Step(v.(err := Http.Describe(e)), store, sent)
  }

  /** The `autoRecon` body: the session, the AI URL for the agent to report to, and the targets parsed from the field. */
  function AutoReconBody(v: View, store: Store.State): AgentClient.AutoReconBody {
    AgentClient.AutoReconBody(store.sessionId, store.config.aiBaseUrl, Store.ParseTargetsCsv(v.targetsCsv),
                              v.enableNmap, v.fullPort, v.once, v.verbose)
  }

  /** The `ingestHistory` body: the history files are always sent, one per non-blank line. */
  function IngestHistoryBody(v: View, store: Store.State): AgentClient.IngestHistoryBody {
    AgentClient.IngestHistoryBody(store.sessionId, store.config.aiBaseUrl, Some(SplitLines(v.historyFiles)), v.once, v.verbose)
  }

  /** How an agent call's answer lands on the page: shown on success, cleared on failure. */
  function Land(v: View, store: Store.State, sent: Http.Request, outcome: Outcome): (r: Step<View>)
    ensures r.store == store && r.sent == Some(sent)
    ensures outcome.Success? ==> r.view == v.(agentResp := outcome.value, err := "")
    ensures outcome.Failure? ==> r.view == v.(agentResp := J.JNull, err := Http.Describe(outcome.error))
  {
    match outcome
    case Success(resp) => Step(v.(agentResp := resp, err := ""), store, Some(sent))
    case Failure(e) => Step(v.(agentResp := J.JNull, err := Http.Describe(e)), store, Some(sent))
  }

  /** `doAutoRecon`. */
  function DoAutoRecon(v: View, store: Store.State, outcome: Outcome): (r: Step<View>)
    ensures r.store == store
    ensures store.sessionId == "" ==> r.view == v.(err := MissingSession) && r.sent.None?
    ensures store.sessionId != "" ==>
              r.sent == Some(AgentClient.RequestFor(Agent(store), AgentClient.AutoRecon(AgentClient.AutoReconJson(AutoReconBody(v, store)))))
    ensures store.sessionId != "" && outcome.Success? ==> r.view == v.(agentResp := outcome.value, err := "")
    ensures store.sessionId != "" && outcome.Failure? ==> r.view == v.(agentResp := J.JNull, err := Http.Describe(outcome.error))
  {
    if store.sessionId == "" then Step(v.(err := MissingSession), store, None)
    else Land(v, store, AgentClient.RequestFor(Agent(store), AgentClient.AutoRecon(AgentClient.AutoReconJson(AutoReconBody(v, store)))), outcome)
  }

  /** `doIngestHistory`. */
  function DoIngestHistory(v: View, store: Store.State, outcome: Outcome): (r: Step<View>)
    ensures r.store == store
    ensures store.sessionId == "" ==> r.view == v.(err := MissingSession) && r.sent.None?
    ensures store.sessionId != "" ==>
              r.sent == Some(AgentClient.RequestFor(Agent(store), AgentClient.IngestHistory(AgentClient.IngestHistoryJson(IngestHistoryBody(v, store)))))
    ensures store.sessionId != "" && outcome.Success? ==> r.view == v.(agentResp := outcome.value, err := "")
    ensures store.sessionId != "" && outcome.Failure? ==> r.view == v.(agentResp := J.JNull, err := Http.Describe(outcome.error))
  {
    if store.sessionId == "" then Step(v.(err := MissingSession), store, None)
    else Land(v, store, AgentClient.RequestFor(Agent(store), AgentClient.IngestHistory(AgentClient.IngestHistoryJson(IngestHistoryBody(v, store)))), outcome)
  }

  /** The recon request reports to the configured AI URL under the current session, scanning the parsed targets. */
  lemma AutoReconSends(v: View, store: Store.State, outcome: Outcome)
    requires store.sessionId != ""
    ensures var body := DoAutoRecon(v, store, outcome).sent.value.body.value;
            && J.Get(body, "session_id") == Some(J.JStr(store.sessionId))
            && J.Get(body, "base_url") == Some(J.JStr(store.config.aiBaseUrl))
            && J.Get(body, "targets") == Some(J.Strings(Store.ParseTargetsCsv(v.targetsCsv)))
  {
  }

  /** The history request lists exactly the non-blank lines of the field, trimmed, whatever the line breaks. */
  lemma IngestHistorySends(v: View, store: Store.State, outcome: Outcome)
    requires store.sessionId != ""
    ensures var body := DoIngestHistory(v, store, outcome).sent.value.body.value;
            J.Get(body, "history_files") == Some(J.Strings(Text.Pieces(v.historyFiles, '\n')))
  {
    SplitLinesPieces(v.historyFiles);
  }
}
