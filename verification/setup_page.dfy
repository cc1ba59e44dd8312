/** `src/pages/SetupPage.tsx`: a draft of the stored configuration, saved or
    reset through the store, the mixed-content warning, and the two health checks,
    which probe the URLs in the draft rather than the saved ones. */
module SetupPage {
  import opened Wrappers
  import Text
  import J = Json
  import Http
  import Store
  import Config
  import AiClient
  import AgentClient
  import opened Page

  /** The banner states of a health check. */
  datatype Status = Idle | Ok | Error

  /** The draft and the two banners. */
  datatype View = View(draft: Store.StoredConfig, aiStatus: Status, aiMsg: string, agentStatus: Status, agentMsg: string)

  /** The page as it mounts: the draft is the stored configuration, both banners idle. */
  function Open(store: Store.State): (v: View)
    ensures v.draft == store.config
    ensures v.aiStatus == Idle && v.aiMsg == "" && v.agentStatus == Idle && v.agentMsg == ""
  {
    View(store.config, Idle, "", Idle, "")
  }

  /** The page served over HTTPS while the drafted agent URL starts, in any case, with `http://`. */
  function HttpsMixedContent(pageProtocol: string, draft: Store.StoredConfig): (r: bool)
    ensures r <==> pageProtocol == "https:" && |draft.localAgentUrl| >= 7
                   && forall i :: 0 <= i < 7 ==> Text.LowerChar(draft.localAgentUrl[i]) == "http://"[i]
  {
    var l := Text.ToLower(draft.localAgentUrl);
    assert |l| >= 7 ==> (l[..7] == "http://" <==> forall i :: 0 <= i < 7 ==> l[i] == "http://"[i]) by {
      if |l| >= 7 && forall i :: 0 <= i < 7 ==> l[i] == "http://"[i] {
        assert l[..7] == "http://";
      }
    }
    pageProtocol == "https:" && Text.StartsWith(l, "http://")
  }

  /** An agent behind HTTPS is never flagged. */
  lemma HttpsAgentNotFlagged(pageProtocol: string, draft: Store.StoredConfig)
    requires Text.StartsWith(Text.ToLower(draft.localAgentUrl), "https://")
    ensures !HttpsMixedContent(pageProtocol, draft)
  {
    var l := Text.ToLower(draft.localAgentUrl);
    assert l[4] == 's';
  }

  /** A plain `http://` agent is flagged exactly on an HTTPS page, whatever the scheme's case. */
  lemma HttpAgentFlagged(pageProtocol: string, draft: Store.StoredConfig, scheme: string, rest: string)
    requires |scheme| == 7 && Text.ToLower(scheme) == "http://"
    requires draft.localAgentUrl == scheme + rest
    ensures HttpsMixedContent(pageProtocol, draft) <==> pageProtocol == "https:"
  {
    var l := Text.ToLower(draft.localAgentUrl);
    assert l[..7] == Text.ToLower(scheme) by {
      forall i | 0 <= i < 7
        ensures l[..7][i] == Text.ToLower(scheme)[i]
      {
        assert draft.localAgentUrl[i] == scheme[i];
      }
    }
  }

  /** The page's own test agrees with `isLikelyMixedContent` on a URL spelled `http://…`
      (the scheme in any case) whose parsed protocol is `http:`. */
  lemma MixedContentAgrees(pageProtocol: string, draft: Store.StoredConfig, scheme: string, rest: string,
                           protocolOf: string -> Option<string>)
    requires |scheme| == 7 && Text.ToLower(scheme) == "http://"
    requires draft.localAgentUrl == scheme + rest
    requires protocolOf(draft.localAgentUrl) == Some("http:")
    ensures HttpsMixedContent(pageProtocol, draft) == Config.IsLikelyMixedContent(draft.localAgentUrl, pageProtocol, protocolOf)
  {
    HttpAgentFlagged(pageProtocol, draft, scheme, rest);
  }

  /** The two tests differ on a URL such as `http:host`, which the URL parser reads with
      protocol `http:` but which does not start with `http://`: only `isLikelyMixedContent` flags it. */
  lemma MixedContentDiffers(draft: Store.StoredConfig, host: string, protocolOf: string -> Option<string>)
    requires |host| >= 2 && host[0] != '/'
    requires draft.localAgentUrl == "http:" + host
    requires protocolOf(draft.localAgentUrl) == Some("http:")
    ensures !HttpsMixedContent("https:", draft)
    ensures Config.IsLikelyMixedContent(draft.localAgentUrl, "https:", protocolOf)
  {
    var l := Text.ToLower(draft.localAgentUrl);
    assert draft.localAgentUrl[5] == host[0];
    assert l[..7][5] != '/';
  }

  /** Typing into one field of the draft: only that field changes, and nothing is saved. */
  function EditDraft(v: View, k: Store.ConfigKey, value: string): (r: View)
    ensures r.draft.Get(k) == value
    ensures forall l :: l != k ==> r.draft.Get(l) == v.draft.Get(l)
    ensures r == v.(draft := r.draft)
  {
    v.(draft := Store.Merge(v.draft, map[k := value]))
  }

  /** `save`: the whole draft goes to the store, which re-syncs the draft to itself. */
  function Save(v: View, store: Store.State): (r: Step<View>)
    ensures r.store.config == v.draft && r.store.sessionId == store.sessionId
    ensures Store.Mirrors(r.store)
    ensures r.view == v && r.sent.None?
  {
    Store.SetConfigWhole(store, v.draft);
    Step(v, Store.SetConfig(store, Store.Whole(v.draft)), None)
  }

  /** `reset`: the store returns to the runtime defaults and the draft follows it. */
  function Reset(v: View, store: Store.State, runtime: Config.Tier, build: Config.Tier): (r: Step<View>)
    ensures r.store == Store.ResetConfigToRuntimeDefaults(store, runtime, build)
    ensures r.view == v.(draft := Store.FromRuntimeDefaults(runtime, build))
    ensures r.view.draft == r.store.config && r.sent.None?
  {
    var s := Store.ResetConfigToRuntimeDefaults(store, runtime, build);
    Step(v.(draft := s.config), s, None)
  }

  /** The `Clear SESSION_ID` button: the session goes, the draft stays. */
  function ClearSession(v: View, store: Store.State): (r: Step<View>)
    ensures r.store == Store.ClearSessionId(store) && r.view == v && r.sent.None?
  {
    Step(v, Store.ClearSessionId(store), None)
  }

  /** The AI banner after a health answer: its status, and its environment when that is truthy. */
  function AiHealthMessage(res: J.Json): (m: string)
    requires res != J.JNull
    ensures !J.TruthyOpt(J.Get(res, "app_env")) ==> m == "status=" + J.PropText(J.Get(res, "status"))
    ensures J.TruthyOpt(J.Get(res, "app_env")) ==>
              m == "status=" + J.PropText(J.Get(res, "status")) + " · env=" + J.JsString(J.Get(res, "app_env").value)
  {
    var env := J.Get(res, "app_env");
    "status=" + J.PropText(J.Get(res, "status")) + (if J.TruthyOpt(env) then " · env=" + J.JsString(env.value) else "")
  }

  /** The first step of `testAi`: the AI banner goes back to idle with no message while the probe runs. */
  function BeginAiTest(v: View): (r: View)
    ensures r.aiStatus == Idle && r.aiMsg == ""
    ensures r == v.(aiStatus := r.aiStatus, aiMsg := r.aiMsg)
  {
    v.(aiStatus := Idle, aiMsg := "")
  }

  /** The first step of `testAgent`, for the agent banner. */
  function BeginAgentTest(v: View): (r: View)
    ensures r.agentStatus == Idle && r.agentMsg == ""
    ensures r == v.(agentStatus := r.agentStatus, agentMsg := r.agentMsg)
  {
    v.(agentStatus := Idle, agentMsg := "")
  }

  /** `testAi`: probes the drafted AI URL. A `null` answer fails when its status is read. */
  function TestAi(v: View, store: Store.State, outcome: Outcome): (r: Step<View>)
    ensures r.store == store && r.view.draft == v.draft
    ensures r.view.agentStatus == v.agentStatus && r.view.agentMsg == v.agentMsg
    ensures r.sent == Some(AiClient.RequestFor(AiClient.MakeAiClient(v.draft.aiBaseUrl), AiClient.Health))
    ensures r.view.aiStatus == Ok <==> outcome.Success? && outcome.value != J.JNull
    ensures r.view.aiStatus == Ok ==> r.view.aiMsg == AiHealthMessage(outcome.value)
    ensures outcome.Failure? ==> r.view.aiStatus == Error && r.view.aiMsg == Http.Describe(outcome.error)
    ensures outcome == Success(J.JNull) ==> r.view.aiStatus == Error && r.view.aiMsg == Http.Describe(NullRead("status"))
  {
    var sent := Some(AiClient.RequestFor(AiClient.MakeAiClient(v.draft.aiBaseUrl), AiClient.Health));
    match outcome
    case Success(res) =>
      if res == J.JNull then Step(v.(aiStatus := Error, aiMsg := Http.Describe(NullRead("status"))), store, sent)
      else Step(v.(aiStatus := Ok, aiMsg := AiHealthMessage(res)), store, sent)
    case Failure(e) => Step(v.(aiStatus := Error, aiMsg := Http.Describe(e)), store, sent)
  }

  /** `testAgent`: probes the drafted agent URL. */
  function TestAgent(v: View, store: Store.State, outcome: Outcome): (r: Step<View>)
    ensures r.store == store && r.view.draft == v.draft
    ensures r.view.aiStatus == v.aiStatus && r.view.aiMsg == v.aiMsg
    ensures r.sent == Some(AgentClient.RequestFor(AgentClient.MakeAgentClient(v.draft.localAgentUrl), AgentClient.Health))
    ensures r.view.agentStatus == Ok <==> outcome.Success? && outcome.value != J.JNull
    ensures r.view.agentStatus == Ok ==> r.view.agentMsg == "status=" + J.PropText(J.Get(outcome.value, "status"))
    ensures outcome.Failure? ==> r.view.agentStatus == Error && r.view.agentMsg == Http.Describe(outcome.error)
    ensures outcome == Success(J.JNull) ==> r.view.agentStatus == Error && r.view.agentMsg == Http.Describe(NullRead("status"))
  {
    var sent := Some(AgentClient.RequestFor(AgentClient.MakeAgentClient(v.draft.localAgentUrl), AgentClient.Health));
    match outcome
    case Success(res) =>
      if res == J.JNull then Step(v.(agentStatus := Error, agentMsg := Http.Describe(NullRead("status"))), store, sent)
      else Step(v.(agentStatus := Ok, agentMsg := "status=" + J.PropText(J.Get(res, "status"))), store, sent)
    case Failure(e) => Step(v.(agentStatus := Error, agentMsg := Http.Describe(e)), store, sent)
  }

  /** Once a probe settles, the banner no longer depends on what it showed before the test. */
  lemma TestsOverwriteBanner(v: View, store: Store.State, outcome: Outcome)
    ensures TestAi(BeginAiTest(v), store, outcome) == TestAi(v, store, outcome)
    ensures TestAgent(BeginAgentTest(v), store, outcome) == TestAgent(v, store, outcome)
  {
  }

  /** The health checks use the draft: an unsaved URL is probed, and the store plays no part. */
  lemma TestsUseDraft(v: View, s1: Store.State, s2: Store.State, outcome: Outcome)
    ensures TestAi(v, s1, outcome).sent == TestAi(v, s2, outcome).sent
    ensures TestAi(v, s1, outcome).view == TestAi(v, s2, outcome).view
    ensures TestAgent(v, s1, outcome).sent == TestAgent(v, s2, outcome).sent
    ensures TestAgent(v, s1, outcome).view == TestAgent(v, s2, outcome).view
  {
  }

  /** Editing fields and saving stores exactly the edits over the stored values; the session is kept. */
  lemma EditThenSave(store: Store.State, k: Store.ConfigKey, value: string)
    ensures var r := Save(EditDraft(Open(store), k, value), store);
            && r.store.config.Get(k) == value
            && (forall l :: l != k ==> r.store.config.Get(l) == store.config.Get(l))
            && r.store.sessionId == store.sessionId
  {
  }

  /** Saving the draft untouched leaves the stored configuration as it was. */
  lemma SaveUnchangedDraft(store: Store.State)
    ensures Save(Open(store), store).store.config == store.config
    ensures Save(Open(store), store).store.sessionId == store.sessionId
  {
  }

  /** Saved settings survive a reload when storage works. */
  lemma SaveSurvivesReload(v: View, store: Store.State, parse: string -> Option<J.Json>, runtime: Config.Tier, build: Config.Tier)
    requires store.storage.readable && store.storage.writable
    requires Store.ReadsBack(parse, Store.Encode(Store.Saved(v.draft, store.sessionId)))
    ensures Store.Initial(Save(v, store).store.storage, parse, runtime, build).config == v.draft
  {
    Store.ReloadRestores(Save(v, store).store, parse, runtime, build);
  }
}
