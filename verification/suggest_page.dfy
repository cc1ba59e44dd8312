/** The action of `src/pages/SuggestPage.tsx`: ask the AI backend for the next
    step of the current session, with the controls the page offers. */
module SuggestPage {
  import opened Wrappers
  import Text
  import J = Json
  import Http
  import Store
  import AiClient
  import opened Page

  /** The `memory_mode` choices. */
  datatype MemoryMode = Summary | Window | Full

  function MemoryName(m: MemoryMode): string {
    match m
    case Summary => "summary"
    case Window => "window"
    case Full => "full"
  }

  /** The `rag_focus` choices. */
  datatype RagFocus = Auto | Recon | Report

  function FocusName(f: RagFocus): string {
    match f
    case Auto => "auto"
    case Recon => "recon"
    case Report => "report"
  }

  /** The controls, the last answer and the error line. */
  datatype View = View(
    userMessage: string,
    memoryMode: MemoryMode,
    historyWindow: int,
    phaseOverride: string,
    persistOverride: bool,
    ragFocus: RagFocus,
    resp: J.Json,
    err: string)

  /** The page as it mounts. */
  function Initial(): (v: View)
    ensures v.memoryMode == Window && v.historyWindow == 12 && v.ragFocus == Auto
    ensures v.userMessage == "" && v.phaseOverride == "" && !v.persistOverride
    ensures v.resp == J.JNull && v.err == ""
  {
    View("", Window, 12, "", false, Auto, J.JNull, "")
  }

  /** The member names of the `suggest` body in insertion order: the four controls, then the
      message and the phase override, which are added only when set. */
  const SuggestNames: seq<string> :=
    ["memory_mode", "history_window", "persist_phase_override", "rag_focus", "user_message", "phase_override"]

  lemma SuggestNamesDistinct()
    ensures J.Distinct(SuggestNames)
  {
  }

  /** The `suggest` object literal with the controls always present and the last two members only when set. */
  function SuggestObject(memory: J.Json, window: J.Json, persist: J.Json, focus: J.Json,
                         message: Option<J.Json>, phase: Option<J.Json>): (r: J.Json)
    ensures r.JObj?
    ensures J.Get(r, "memory_mode") == Some(memory) && J.Get(r, "history_window") == Some(window)
    ensures J.Get(r, "persist_phase_override") == Some(persist) && J.Get(r, "rag_focus") == Some(focus)
    ensures J.Get(r, "user_message") == message && J.Get(r, "phase_override") == phase
  {
    var values := [Some(memory), Some(window), Some(persist), Some(focus), message, phase];
    SuggestNamesDistinct();
    J.MembersLookup(SuggestNames, values, 0);
    J.MembersLookup(SuggestNames, values, 1);
    J.MembersLookup(SuggestNames, values, 2);
    J.MembersLookup(SuggestNames, values, 3);
    J.MembersLookup(SuggestNames, values, 4);
    J.MembersLookup(SuggestNames, values, 5);
    J.JObj(J.Members(SuggestNames, values))
  }

  /** The `suggest` body: four controls always, the trimmed message when it is not blank,
      the phase override when one is chosen. `focus` overrides the selected focus. */
  function SuggestBody(v: View, focus: Option<RagFocus>): (r: J.Json)
    ensures r.JObj?
    ensures J.Get(r, "memory_mode") == Some(J.JStr(MemoryName(v.memoryMode)))
    ensures J.Get(r, "history_window") == Some(J.JNum(v.historyWindow))
    ensures J.Get(r, "persist_phase_override") == Some(J.JBool(v.persistOverride))
    ensures J.Get(r, "rag_focus") == Some(J.JStr(FocusName(focus.GetOr(v.ragFocus))))
    ensures J.Get(r, "user_message").Some? <==> Text.Trim(v.userMessage) != ""
    ensures J.Get(r, "user_message").Some? ==> J.Get(r, "user_message").value == J.JStr(Text.Trim(v.userMessage))
    ensures J.Get(r, "phase_override").Some? <==> v.phaseOverride != ""
    ensures J.Get(r, "phase_override").Some? ==> J.Get(r, "phase_override").value == J.JStr(v.phaseOverride)
  {
    var msg := Text.Trim(v.userMessage);
    SuggestObject(
      J.JStr(MemoryName(v.memoryMode)),
      J.JNum(v.historyWindow),
      J.JBool(v.persistOverride),
      J.JStr(FocusName(focus.GetOr(v.ragFocus))),
      if msg != "" then Some(J.JStr(msg)) else None,
      if v.phaseOverride != "" then Some(J.JStr(v.phaseOverride)) else None)
  }

  /** `getSuggest(focus)`: refused without a session; otherwise a success shows the answer
      and a failure shows the error and drops the previous answer. The store never changes. */
  function GetSuggest(v: View, store: Store.State, focus: Option<RagFocus>, outcome: Outcome): (r: Step<View>)
    ensures r.store == store
    ensures store.sessionId == "" ==> r.view == v.(err := MissingSession) && r.sent.None?
    ensures store.sessionId != "" ==>
              r.sent == Some(AiClient.RequestFor(AiClient.MakeAiClient(store.config.aiBaseUrl),
                                                 AiClient.Suggest(store.sessionId, SuggestBody(v, focus))))
    ensures store.sessionId != "" && outcome.Success? ==> r.view == v.(resp := outcome.value, err := "")
    ensures store.sessionId != "" && outcome.Failure? ==> r.view == v.(resp := J.JNull, err := Http.Describe(outcome.error))
  {
    if store.sessionId == "" then Step(v.(err := MissingSession), store, None)
    else
      var ai := AiClient.MakeAiClient(store.config.aiBaseUrl);
      var sent := Some(AiClient.RequestFor(ai, AiClient.Suggest(store.sessionId, SuggestBody(v, focus))));
      match outcome
      case Success(out) => Step(v.(resp := out, err := ""), store, sent)
      case Failure(e) => Step(v.(resp := J.JNull, err := Http.Describe(e)), store, sent)
  }

  /** Overriding the focus with `report` builds the body a `report` selection builds. */
  lemma ReportBody(v: View)
    ensures SuggestBody(v, Some(Report)) == SuggestBody(v.(ragFocus := Report), None)
  {
  }

  /** The report button sends what the main button sends with the focus set to `report`,
      and leaves the page as that would, apart from the selected focus. */
  lemma ReportButtonIsReportFocus(v: View, store: Store.State, outcome: Outcome)
    ensures GetSuggest(v, store, Some(Report), outcome).sent == GetSuggest(v.(ragFocus := Report), store, None, outcome).sent
    ensures GetSuggest(v, store, Some(Report), outcome).view == GetSuggest(v.(ragFocus := Report), store, None, outcome).view.(ragFocus := v.ragFocus)
  {
    ReportBody(v);
  }

  /** The message is sent as `trim` leaves it, so messages that trim alike send the same body. */
  lemma MessageTrimmedAlike(v: View, m1: string, m2: string, focus: Option<RagFocus>)
    requires Text.Trim(m1) == Text.Trim(m2)
    ensures SuggestBody(v.(userMessage := m1), focus) == SuggestBody(v.(userMessage := m2), focus)
  {
  }

  /** The body the page sends is accepted by the suggest endpoint's URL shape: the session id is one segment. */
  lemma SuggestUrl(v: View, store: Store.State, focus: Option<RagFocus>, outcome: Outcome)
    requires store.sessionId != ""
    ensures var c := AiClient.MakeAiClient(store.config.aiBaseUrl);
            Text.Split(GetSuggest(v, store, focus, outcome).sent.value.url, '/')
            == Text.Split(c.baseUrl, '/') + ["v1", "sessions", AiClient.Uri.EncodeComponent(store.sessionId), "suggest"]
  {
    var c := AiClient.MakeAiClient(store.config.aiBaseUrl);
    AiClient.SessionUrlSegments(c, store.sessionId, SuggestBody(v, focus));
  }
}
