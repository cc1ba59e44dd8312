/** The actions of `src/pages/SessionPage.tsx`: create, load, list and delete
    a session against the AI backend, each given how its request settled. */
module SessionPage {
  import opened Wrappers
  import J = Json
  import Http
  import Store
  import AiClient
  import opened Page

  /** The page state: the id field, the loaded record, the listed sessions and the error line. */
  datatype View = View(loadId: string, session: J.Json, sessions: J.Json, err: string)

  /** The page as it mounts: the id field starts at the current session. */
  function Open(store: Store.State): (v: View)
    ensures v.loadId == store.sessionId && v.session == J.JNull && v.sessions == J.JNull && v.err == ""
  {
    View(store.sessionId, J.JNull, J.JNull, "")
  }

  /** The client the page talks to. */
  function Ai(store: Store.State): AiClient.Client {
    AiClient.MakeAiClient(store.config.aiBaseUrl)
  }

  /** The member names of the `createSession` body, in the order the page lists them. */
  const CreateNames: seq<string> := ["tenant_id", "user_id", "agent_id", "objective", "target_scope", "policy_id"]

  lemma CreateNamesDistinct()
    ensures J.Distinct(CreateNames)
  {
  }

  /** The body of `createSession`, taken from the stored configuration. */
  function CreateBody(cfg: Store.StoredConfig): (r: J.Json)
    ensures r.JObj?
    ensures J.Get(r, "tenant_id") == Some(J.JStr(cfg.tenantId))
    ensures J.Get(r, "user_id") == Some(J.JStr(cfg.userId))
    ensures J.Get(r, "agent_id") == Some(J.JStr(cfg.agentId))
    ensures J.Get(r, "objective") == Some(J.JStr(cfg.objective))
    ensures J.Get(r, "target_scope") == Some(J.Strings(Store.ParseTargetsCsv(cfg.defaultTargetsCsv)))
    ensures J.Get(r, "policy_id") == Some(J.JStr(cfg.policyId))
  {
    var values := [Some(J.JStr(cfg.tenantId)), Some(J.JStr(cfg.userId)), Some(J.JStr(cfg.agentId)), Some(J.JStr(cfg.objective)),
                   Some(J.Strings(Store.ParseTargetsCsv(cfg.defaultTargetsCsv))), Some(J.JStr(cfg.policyId))];
    CreateNamesDistinct();
    J.MembersLookup(CreateNames, values, 0);
    J.MembersLookup(CreateNames, values, 1);
    J.MembersLookup(CreateNames, values, 2);
    J.MembersLookup(CreateNames, values, 3);
    J.MembersLookup(CreateNames, values, 4);
    J.MembersLookup(CreateNames, values, 5);
    J.JObj(J.Members(CreateNames, values))
  }

  /** `created.session_id` when it is a string; any other value is taken as no id. */
  function SessionIdOf(created: J.Json): (id: string)
    ensures J.StringProp(created, "session_id").Some? ==> id == J.StringProp(created, "session_id").value
    ensures J.StringProp(created, "session_id").None? ==> id == ""
  {
    J.StringProp(created, "session_id").GetOr("")
  }

  /** `createSession`. A `null` response is shown, then reading its id throws. */
  function CreateSession(v: View, store: Store.State, outcome: Outcome): (r: Step<View>)
    ensures r.sent == Some(AiClient.RequestFor(Ai(store), AiClient.CreateSession(CreateBody(store.config))))
    ensures outcome.Success? && outcome.value != J.JNull ==>
              && r.view.session == outcome.value
              && r.store == Store.SetSessionId(store, SessionIdOf(outcome.value))
              && r.view.loadId == r.store.sessionId
              && r.view.sessions == v.sessions && r.view.err == ""
    ensures outcome.Success? && outcome.value == J.JNull ==>
              r.view == v.(session := J.JNull, err := Http.Describe(NullRead("session_id"))) && r.store == store
    ensures outcome.Failure? ==> r.view == v.(err := Http.Describe(outcome.error)) && r.store == store
  {
    var sent := Some(AiClient.RequestFor(Ai(store), AiClient.CreateSession(CreateBody(store.config))));
    match outcome
    case Success(created) =>
      if created == J.JNull then
        Step(v.(session := J.JNull, err := Http.Describe(NullRead("session_id"))), store, sent)
      else
        var id := SessionIdOf(created);
        Step(v.(session := created, loadId := id, err := ""), Store.SetSessionId(store, id), sent)
    case Failure(e) => Step(v.(err := Http.Describe(e)), store, sent)
  }

  /** `fetchSession(id)`: success selects `id`; failure drops the record and keeps the session. */
  function FetchSession(v: View, store: Store.State, id: string, outcome: Outcome): (r: Step<View>)
    ensures r.sent == Some(AiClient.RequestFor(Ai(store), AiClient.GetSession(id)))
    ensures outcome.Success? ==>
              r.view == v.(session := outcome.value, err := "") && r.store == Store.SetSessionId(store, id)
    ensures outcome.Failure? ==>
              r.view == v.(session := J.JNull, err := Http.Describe(outcome.error)) && r.store == store
  {
    var sent := Some(AiClient.RequestFor(Ai(store), AiClient.GetSession(id)));
    match outcome
    case Success(s) => Step(v.(session := s, err := ""), Store.SetSessionId(store, id), sent)
    case Failure(e) => Step(v.(session := J.JNull, err := Http.Describe(e)), store, sent)
  }

  /** The page size the page asks for. */
  const ListLimit: int := 100

  /** `listSessions`: the configured tenant and user, 100 at most; failure empties the list. */
  function ListSessions(v: View, store: Store.State, outcome: Outcome): (r: Step<View>)
    ensures r.sent == Some(AiClient.RequestFor(Ai(store),
              AiClient.ListSessions(store.config.tenantId, store.config.userId, Some(ListLimit))))
    ensures r.store == store
    ensures outcome.Success? ==> r.view == v.(sessions := outcome.value, err := "")
    ensures outcome.Failure? ==> r.view == v.(sessions := J.JNull, err := Http.Describe(outcome.error))
  {
    var sent := Some(AiClient.RequestFor(Ai(store),
      AiClient.ListSessions(store.config.tenantId, store.config.userId, Some(ListLimit))));
    match outcome
    case Success(items) => Step(v.(sessions := items, err := ""), store, sent)
    case Failure(e) => Step(v.(sessions := J.JNull, err := Http.Describe(e)), store, sent)
  }

  /** `deleteCurrent`: nothing without a session; success clears the record, the session
      and the id field together; failure changes none of them. */
  function DeleteCurrent(v: View, store: Store.State, outcome: Outcome): (r: Step<View>)
    ensures store.sessionId == "" ==> r == Step(v, store, None)
    ensures store.sessionId != "" ==> r.sent == Some(AiClient.RequestFor(Ai(store), AiClient.DeleteSession(store.sessionId)))
    ensures store.sessionId != "" && outcome.Success? ==>
              r.view == v.(session := J.JNull, loadId := "", err := "") && r.store == Store.ClearSessionId(store)
    ensures store.sessionId != "" && outcome.Failure? ==>
              r.view == v.(err := Http.Describe(outcome.error)) && r.store == store
  {
    if store.sessionId == "" then Step(v, store, None)
    else
      var sent := Some(AiClient.RequestFor(Ai(store), AiClient.DeleteSession(store.sessionId)));
      match outcome
      case Success(_) => Step(v.(session := J.JNull, loadId := "", err := ""), Store.ClearSessionId(store), sent)
      case Failure(e) => Step(v.(err := Http.Describe(e)), store, sent)
  }

  /** The target scope sent on create is the configured CSV parsed: trimmed, non-empty, comma-free entries. */
  lemma CreateBodyTargets(cfg: Store.StoredConfig)
    ensures var scope := J.Get(CreateBody(cfg), "target_scope").value;
            && scope.JArr?
            && forall i :: 0 <= i < |scope.items| ==>
                 scope.items[i].JStr? && scope.items[i].s != "" && ',' !in scope.items[i].s
  {
    var xs := Store.ParseTargetsCsv(cfg.defaultTargetsCsv);
    var scope := J.Strings(xs);
    assert forall i :: 0 <= i < |scope.items| ==> scope.items[i] == J.JStr(xs[i]);
  }

  /** A created session is what the next startup restores, when storage works. */
  lemma CreatedSessionSurvivesReload(v: View, store: Store.State, created: J.Json, parse: string -> Option<J.Json>,
                                     runtime: map<string, string>, build: map<string, string>)
    requires created != J.JNull
    requires store.storage.readable && store.storage.writable
    requires Store.ReadsBack(parse, Store.Encode(Store.Saved(store.config, SessionIdOf(created))))
    ensures var s := CreateSession(v, store, Success(created)).store;
            Store.Initial(s.storage, parse, runtime, build).sessionId == SessionIdOf(created)
  {
    var s := CreateSession(v, store, Success(created)).store;
    Store.ReloadRestores(s, parse, runtime, build);
  }

  /** Every session action keeps the persisted mirror of the store. */
  lemma ActionsKeepMirror(v: View, store: Store.State, id: string, outcome: Outcome)
    requires Store.Mirrors(store)
    ensures Store.Mirrors(CreateSession(v, store, outcome).store)
    ensures Store.Mirrors(FetchSession(v, store, id, outcome).store)
    ensures Store.Mirrors(ListSessions(v, store, outcome).store)
    ensures Store.Mirrors(DeleteCurrent(v, store, outcome).store)
  {
    CreateKeepsMirror(v, store, outcome);
    FetchKeepsMirror(v, store, id, outcome);
    ListKeepsMirror(v, store, outcome);
    DeleteKeepsMirror(v, store, outcome);
  }

  lemma CreateKeepsMirror(v: View, store: Store.State, outcome: Outcome)
    requires Store.Mirrors(store)
    ensures Store.Mirrors(CreateSession(v, store, outcome).store)
  {
  }

  lemma FetchKeepsMirror(v: View, store: Store.State, id: string, outcome: Outcome)
    requires Store.Mirrors(store)
    ensures Store.Mirrors(FetchSession(v, store, id, outcome).store)
  {
  }

  lemma ListKeepsMirror(v: View, store: Store.State, outcome: Outcome)
    requires Store.Mirrors(store)
    ensures Store.Mirrors(ListSessions(v, store, outcome).store)
  {
  }

  lemma DeleteKeepsMirror(v: View, store: Store.State, outcome: Outcome)
    requires Store.Mirrors(store)
    ensures Store.Mirrors(DeleteCurrent(v, store, outcome).store)
  {
  }
}
