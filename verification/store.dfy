/** The application store of `src/state/useAppStore.ts`: the editable
    configuration and the current session id, mirrored into browser storage
    after every action and restored from it at startup. Storage is a slot
    passed in and returned; `JSON.parse` is a parameter. */
module Store {
  import opened Wrappers
  import Text
  import J = Json
  import Config

  /** The sentence every fresh configuration carries as its objective. */
  const DefaultObjective: string := "Complete the lab objective safely within allowed scope."

  /** The storage key the record is kept under (documentation only: the model has a single slot). */
  const StorageKey: string := "rtai_webui_v1"

  /** The properties of a stored configuration. */
  datatype ConfigKey =
    | AiBaseUrl
    | LocalAgentUrl
    | DefaultTargetsCsv
    | PolicyId
    | TenantId
    | UserId
    | AgentId
    | Objective

  const AllKeys: set<ConfigKey> :=
    {AiBaseUrl, LocalAgentUrl, DefaultTargetsCsv, PolicyId, TenantId, UserId, AgentId, Objective}

  /** The property name used in the persisted JSON record. */
  function PropName(k: ConfigKey): string {
    match k
    case AiBaseUrl => "aiBaseUrl"
    case LocalAgentUrl => "localAgentUrl"
    case DefaultTargetsCsv => "defaultTargetsCsv"
    case PolicyId => "policyId"
    case TenantId => "tenantId"
    case UserId => "userId"
    case AgentId => "agentId"
    case Objective => "objective"
  }

  /** `StoredConfig`: the user-editable configuration. */
  datatype StoredConfig = StoredConfig(
    aiBaseUrl: string,
    localAgentUrl: string,
    defaultTargetsCsv: string,
    policyId: string,
    tenantId: string,
    userId: string,
    agentId: string,
    objective: string)
  {
    /** The value of one property. */
    function Get(k: ConfigKey): string {
      match k
      case AiBaseUrl => aiBaseUrl
      case LocalAgentUrl => localAgentUrl
      case DefaultTargetsCsv => defaultTargetsCsv
      case PolicyId => policyId
      case TenantId => tenantId
      case UserId => userId
      case AgentId => agentId
      case Objective => objective
    }
  }

  /** Two configurations that agree on every property are equal. */
  lemma ConfigExtensional(a: StoredConfig, b: StoredConfig)
    requires forall k :: a.Get(k) == b.Get(k)
    ensures a == b
  {
    assert a.Get(AiBaseUrl) == b.Get(AiBaseUrl) && a.Get(LocalAgentUrl) == b.Get(LocalAgentUrl);
    assert a.Get(DefaultTargetsCsv) == b.Get(DefaultTargetsCsv) && a.Get(PolicyId) == b.Get(PolicyId);
    assert a.Get(TenantId) == b.Get(TenantId) && a.Get(UserId) == b.Get(UserId);
    assert a.Get(AgentId) == b.Get(AgentId) && a.Get(Objective) == b.Get(Objective);
  }

  /** `Partial<StoredConfig>`: the properties a caller supplies. */
  type Patch = map<ConfigKey, string>

  function Pick(patch: Patch, k: ConfigKey, current: string): string {
    if k in patch then patch[k] else current
  }

  /** `{ ...config, ...patch }`. */
  function Merge(c: StoredConfig, patch: Patch): (r: StoredConfig)
    ensures forall k :: k in patch ==> r.Get(k) == patch[k]
    ensures forall k :: k !in patch ==> r.Get(k) == c.Get(k)
  {
    StoredConfig(
      Pick(patch, AiBaseUrl, c.aiBaseUrl),
      Pick(patch, LocalAgentUrl, c.localAgentUrl),
      Pick(patch, DefaultTargetsCsv, c.defaultTargetsCsv),
      Pick(patch, PolicyId, c.policyId),
      Pick(patch, TenantId, c.tenantId),
      Pick(patch, UserId, c.userId),
      Pick(patch, AgentId, c.agentId),
      Pick(patch, Objective, c.objective))
  }

  /** An empty patch changes nothing. */
  lemma MergeEmpty(c: StoredConfig)
    ensures Merge(c, map[]) == c
  {
    ConfigExtensional(Merge(c, map[]), c);
  }

  /** Two spreads in a row are one spread of the combined patch, the later one winning. */
  lemma MergeCompose(c: StoredConfig, p: Patch, q: Patch)
    ensures Merge(Merge(c, p), q) == Merge(c, p + q)
  {
    ConfigExtensional(Merge(Merge(c, p), q), Merge(c, p + q));
  }

  /** The whole of a configuration, as a patch. */
  function Whole(d: StoredConfig): (p: Patch)
    ensures p.Keys == AllKeys
    ensures forall k :: k in p ==> p[k] == d.Get(k)
  {
    map k | k in AllKeys :: d.Get(k)
  }

  /** A patch holding every property replaces the configuration outright. */
  lemma MergeWhole(c: StoredConfig, d: StoredConfig)
    ensures Merge(c, Whole(d)) == d
  {
    var w := Whole(d);
    forall k
      ensures Merge(c, w).Get(k) == d.Get(k)
    {
      assert k in AllKeys;
    }
    ConfigExtensional(Merge(c, w), d);
  }

  /** `parseTargetsCsv`: trimmed, non-empty, comma-free entries in input order. */
  function ParseTargetsCsv(csv: string): (r: seq<string>)
    ensures Text.CleanEntries(r, ',')
    ensures csv == "" ==> r == []
  {
    Text.Pieces(csv, ',')
  }

  /** Entries keep their order: the entries of `a,b` are those of `a` then those of `b`. */
  lemma ParseTargetsCsvAppend(a: string, b: string)
    ensures ParseTargetsCsv(a + "," + b) == ParseTargetsCsv(a) + ParseTargetsCsv(b)
  {
    assert a + "," + b == a + [','] + b;
    Text.PiecesAppend(a, b, ',');
  }

  /** Clean entries joined with commas parse back to themselves. */
  lemma ParseTargetsCsvJoin(xs: seq<string>)
    requires Text.CleanEntries(xs, ',')
    ensures ParseTargetsCsv(Text.Join(xs, ',')) == xs
  {
    Text.PiecesJoin(xs, ',');
  }

  /** The target list resolved by the configuration loader survives the trip through its CSV text. */
  lemma ParseTargetsCsvSplitCsv(s: string)
    ensures ParseTargetsCsv(Text.Join(Config.SplitCsv(Some(s)), ',')) == Config.SplitCsv(Some(s))
  {
    ParseTargetsCsvJoin(Config.SplitCsv(Some(s)));
  }

  /** `fromRuntimeDefaults`, with both configuration tiers as parameters. */
  function FromRuntimeDefaults(runtime: Config.Tier, build: Config.Tier): (r: StoredConfig)
    ensures r.objective == DefaultObjective
    ensures ParseTargetsCsv(r.defaultTargetsCsv) == Config.LoadConfig(runtime, build).defaultTargets
    ensures Config.Usable(r.aiBaseUrl) && Config.Usable(r.localAgentUrl) && Config.Usable(r.policyId)
    ensures Config.Usable(r.tenantId) && Config.Usable(r.userId) && Config.Usable(r.agentId)
  {
    var c := Config.LoadConfig(runtime, build);
    ParseTargetsCsvJoin(c.defaultTargets);
    StoredConfig(
      c.aiBaseUrl,
      c.localAgentUrl,
      Text.Join(c.defaultTargets, ','),
      c.defaultPolicyId,
      c.defaultTenantId,
      c.defaultUserId,
      c.defaultAgentId,
      DefaultObjective)
  }

  /** The record that is persisted and restored. */
  datatype Saved = Saved(config: StoredConfig, sessionId: string)

  /** The order in which the properties are written. */
  const KeyOrder: seq<ConfigKey> :=
    [AiBaseUrl, LocalAgentUrl, DefaultTargetsCsv, PolicyId, TenantId, UserId, AgentId, Objective]

  /** The position of a property in `KeyOrder`. */
  function KeyIndex(k: ConfigKey): (i: nat)
    ensures i < |KeyOrder| && KeyOrder[i] == k
  {
    match k
    case AiBaseUrl => 0
    case LocalAgentUrl => 1
    case DefaultTargetsCsv => 2
    case PolicyId => 3
    case TenantId => 4
    case UserId => 5
    case AgentId => 6
    case Objective => 7
  }

  /** Distinct properties have distinct names. */
  lemma PropNameInjective(k: ConfigKey, l: ConfigKey)
    requires k != l
    ensures PropName(k) != PropName(l)
  {
    var a := PropName(k);
    var b := PropName(l);
    if |a| == |b| {
      assert a[0] != b[0];
    }
  }

  /** The persisted form of a configuration: one string member per property. */
  function ConfigJson(c: StoredConfig): (v: J.Json)
    ensures v.JObj? && |v.fields| == |KeyOrder|
    ensures forall i :: 0 <= i < |KeyOrder| ==> v.fields[i] == (PropName(KeyOrder[i]), J.JStr(c.Get(KeyOrder[i])))
  {
    J.JObj(seq(|KeyOrder|, i requires 0 <= i < |KeyOrder| => (PropName(KeyOrder[i]), J.JStr(c.Get(KeyOrder[i])))))
  }

  /** `{ config, sessionId }` as a JSON value. */
  function Encode(s: Saved): (v: J.Json)
    ensures v.JObj?
  {
    J.JObj([("config", ConfigJson(s.config)), ("sessionId", J.JStr(s.sessionId))])
  }

  /** Every property is present as a string. */
  predicate HasAllProps(v: J.Json) {
    forall k :: J.StringProp(v, PropName(k)).Some?
  }

  /** Reads a stored configuration back; a record missing a string property is rejected. */
  function DecodeConfig(v: J.Json): (r: Option<StoredConfig>)
    ensures r.Some? <==> HasAllProps(v)
    ensures r.Some? ==> forall k :: J.StringProp(v, PropName(k)) == Some(r.value.Get(k))
  {
    if HasAllProps(v) then
      var c := StoredConfig(
        J.StringProp(v, PropName(AiBaseUrl)).value,
        J.StringProp(v, PropName(LocalAgentUrl)).value,
        J.StringProp(v, PropName(DefaultTargetsCsv)).value,
        J.StringProp(v, PropName(PolicyId)).value,
        J.StringProp(v, PropName(TenantId)).value,
        J.StringProp(v, PropName(UserId)).value,
        J.StringProp(v, PropName(AgentId)).value,
        J.StringProp(v, PropName(Objective)).value);
      assert forall k :: J.StringProp(v, PropName(k)) == Some(c.Get(k)) by {
        forall k
          ensures J.StringProp(v, PropName(k)) == Some(c.Get(k))
        {
          assert J.StringProp(v, PropName(k)).Some?;
        }
      }
      Some(c)
    else None
  }

  /** Each property of an encoded configuration reads back as that property. */
  lemma ConfigJsonProp(c: StoredConfig, k: ConfigKey)
    ensures J.StringProp(ConfigJson(c), PropName(k)) == Some(c.Get(k))
  {
    var fields := ConfigJson(c).fields;
    var i := KeyIndex(k);
    forall j | 0 <= j < |fields| && j != i
      ensures fields[j].0 != fields[i].0
    {
      PropNameInjective(KeyOrder[j], k);
    }
    J.LookupUnique(fields, i);
  }

  /** Decoding an encoded configuration gives it back. */
  lemma DecodeConfigJson(c: StoredConfig)
    ensures DecodeConfig(ConfigJson(c)) == Some(c)
  {
    var v := ConfigJson(c);
    forall k
      ensures J.StringProp(v, PropName(k)) == Some(c.Get(k))
    {
      ConfigJsonProp(c, k);
    }
    ConfigExtensional(DecodeConfig(v).value, c);
  }

  /** The two members of an encoded record. */
  lemma EncodeMembers(s: Saved)
    ensures J.Get(Encode(s), "config") == Some(ConfigJson(s.config))
    ensures J.Get(Encode(s), "sessionId") == Some(J.JStr(s.sessionId))
  {
    var fields := Encode(s).fields;
    J.LookupUnique(fields, 0);
    J.LookupUnique(fields, 1);
  }

  /** The body of `loadFromStorage` after parsing: a falsy or missing `config` gives
      nothing, and a `sessionId` that is not a string becomes "". */
  function Decode(v: J.Json): (r: Option<Saved>)
    ensures !J.TruthyOpt(J.Get(v, "config")) ==> r.None?
    ensures r.Some? <==> J.TruthyOpt(J.Get(v, "config")) && DecodeConfig(J.Get(v, "config").value).Some?
    ensures r.Some? ==> DecodeConfig(J.Get(v, "config").value) == Some(r.value.config)
    ensures r.Some? ==> J.StringProp(v, "sessionId").Some? ==> r.value.sessionId == J.StringProp(v, "sessionId").value
    ensures r.Some? ==> J.StringProp(v, "sessionId").None? ==> r.value.sessionId == ""
  {
    var cfg := J.Get(v, "config");
    if !J.TruthyOpt(cfg) then None
    else
      match DecodeConfig(cfg.value)
      case None => None
      case Some(c) => Some(Saved(c, J.StringProp(v, "sessionId").GetOr("")))
  }

  /** Decoding an encoded record gives it back. */
  lemma DecodeEncode(s: Saved)
    ensures Decode(Encode(s)) == Some(s)
  {
    EncodeMembers(s);
    DecodeConfigJson(s.config);
  }

  /** The storage slot: its content, and whether reading and writing succeed. */
  datatype Storage = Storage(raw: Option<string>, readable: bool, writable: bool)

  /** `persist`: write the serialised record; a failed write is swallowed. */
  function Persist(st: Storage, s: Saved): (r: Storage)
    ensures r.readable == st.readable && r.writable == st.writable
    ensures st.writable ==> r.raw == Some(J.Serialize(Encode(s)))
    ensures !st.writable ==> r == st
  {
    if st.writable then st.(raw := Some(J.Serialize(Encode(s)))) else st
  }

  /** `loadFromStorage`: a read that throws, an absent or empty entry, text that is
      not JSON, or a record without a usable `config` all give nothing. */
  function LoadFromStorage(st: Storage, parse: string -> Option<J.Json>): (r: Option<Saved>)
    ensures !st.readable || st.raw.None? || st.raw == Some("") ==> r.None?
    ensures r.Some? ==> parse(st.raw.value).Some? && r == Decode(parse(st.raw.value).value)
  {
    if !st.readable then None
    else match st.raw
      case None => None
      case Some(raw) =>
        if raw == "" then None
        else match parse(raw)
          case None => None
          case Some(v) => Decode(v)
  }

  /** A parser that reads back what `JSON.stringify` wrote for `v`. */
  predicate ReadsBack(parse: string -> Option<J.Json>, v: J.Json) {
    parse(J.Serialize(v)) == Some(v)
  }

  /** What is persisted is what is restored. */
  lemma PersistLoad(st: Storage, s: Saved, parse: string -> Option<J.Json>)
    requires st.readable && st.writable
    requires ReadsBack(parse, Encode(s))
    ensures LoadFromStorage(Persist(st, s), parse) == Some(s)
  {
    DecodeEncode(s);
  }

  /** The store state. */
  datatype State = State(config: StoredConfig, sessionId: string, storage: Storage)

  /** The persisted slot holds the current `{ config, sessionId }` whenever writes succeed. */
  predicate Mirrors(s: State) {
    s.storage.writable ==> s.storage.raw == Some(J.Serialize(Encode(Saved(s.config, s.sessionId))))
  }

  /** Write the new state through to storage. */
  function Commit(config: StoredConfig, sessionId: string, st: Storage): (r: State)
    ensures Mirrors(r)
    ensures r.config == config && r.sessionId == sessionId
    ensures r.storage.readable == st.readable && r.storage.writable == st.writable
    ensures !st.writable ==> r.storage == st
  {
    State(config, sessionId, Persist(st, Saved(config, sessionId)))
  }

  /** The `initial` choice: the stored record if it loads, otherwise the runtime
      defaults with no session. Startup does not write. */
  function Initial(st: Storage, parse: string -> Option<J.Json>, runtime: Config.Tier, build: Config.Tier): (r: State)
    ensures r.storage == st
    ensures LoadFromStorage(st, parse).Some? ==> Saved(r.config, r.sessionId) == LoadFromStorage(st, parse).value
    ensures LoadFromStorage(st, parse).None? ==> r.config == FromRuntimeDefaults(runtime, build) && r.sessionId == ""
  {
    match LoadFromStorage(st, parse)
    case Some(saved) => State(saved.config, saved.sessionId, st)
    case None => State(FromRuntimeDefaults(runtime, build), "", st)
  }

  /** Startup falls back to the runtime defaults when the entry is missing, empty,
      unreadable, not JSON, or has no truthy `config`. */
  lemma StartupFallback(st: Storage, parse: string -> Option<J.Json>, runtime: Config.Tier, build: Config.Tier)
    requires || !st.readable || st.raw.None? || st.raw == Some("")
             || parse(st.raw.value).None?
             || !J.TruthyOpt(J.Get(parse(st.raw.value).value, "config"))
    ensures Initial(st, parse, runtime, build).config == FromRuntimeDefaults(runtime, build)
    ensures Initial(st, parse, runtime, build).sessionId == ""
  {
  }

  /** A record whose `sessionId` is not a string decodes with no session. */
  lemma DecodeNonStringSession(c: StoredConfig, id: J.Json)
    requires !id.JStr?
    ensures Decode(J.JObj([("config", ConfigJson(c)), ("sessionId", id)])) == Some(Saved(c, ""))
  {
    DecodeConfigJson(c);
    var v := J.JObj([("config", ConfigJson(c)), ("sessionId", id)]);
    J.LookupUnique(v.fields, 0);
    J.LookupUnique(v.fields, 1);
    assert J.StringProp(v, "sessionId").None?;
  }

  /** A stored record with a usable configuration and a `sessionId` that is not a
      string restores that configuration with no session. */
  lemma StartupNonStringSession(st: Storage, parse: string -> Option<J.Json>, runtime: Config.Tier, build: Config.Tier, c: StoredConfig, id: J.Json)
    requires st.readable && st.raw.Some? && st.raw.value != ""
    requires parse(st.raw.value) == Some(J.JObj([("config", ConfigJson(c)), ("sessionId", id)]))
    requires !id.JStr?
    ensures Initial(st, parse, runtime, build).config == c
    ensures Initial(st, parse, runtime, build).sessionId == ""
  {
    DecodeNonStringSession(c, id);
    assert LoadFromStorage(st, parse) == Some(Saved(c, ""));
  }

  /** `setConfig(patch)`: the patched properties change, nothing else does. */
  function SetConfig(s: State, patch: Patch): (r: State)
    ensures Mirrors(r)
    ensures forall k :: k in patch ==> r.config.Get(k) == patch[k]
    ensures forall k :: k !in patch ==> r.config.Get(k) == s.config.Get(k)
    ensures r.sessionId == s.sessionId
    ensures !s.storage.writable ==> r.storage == s.storage
  {
    Commit(Merge(s.config, patch), s.sessionId, s.storage)
  }

  /** `resetConfigToRuntimeDefaults`: the session is kept. */
  function ResetConfigToRuntimeDefaults(s: State, runtime: Config.Tier, build: Config.Tier): (r: State)
    ensures Mirrors(r)
    ensures r.config == FromRuntimeDefaults(runtime, build)
    ensures r.config.objective == DefaultObjective
    ensures r.sessionId == s.sessionId
    ensures !s.storage.writable ==> r.storage == s.storage
  {
    Commit(FromRuntimeDefaults(runtime, build), s.sessionId, s.storage)
  }

  /** `setSessionId(id)`: only the session changes. */
  function SetSessionId(s: State, id: string): (r: State)
    ensures Mirrors(r)
    ensures r.sessionId == id && r.config == s.config
    ensures !s.storage.writable ==> r.storage == s.storage
  {
    Commit(s.config, id, s.storage)
  }

  /** `clearSessionId`: the session becomes "" and nothing else changes. */
  function ClearSessionId(s: State): (r: State)
    ensures Mirrors(r)
    ensures r.sessionId == "" && r.config == s.config
    ensures !s.storage.writable ==> r.storage == s.storage
  {
    Commit(s.config, "", s.storage)
  }

  /** Clearing the session is setting it to "". */
  lemma ClearIsSetEmpty(s: State)
    ensures ClearSessionId(s) == SetSessionId(s, "")
  {
  }

  /** Whatever an action leaves in memory is what the next startup restores,
      provided writes and reads succeed. */
  lemma ReloadRestores(s: State, parse: string -> Option<J.Json>, runtime: Config.Tier, build: Config.Tier)
    requires Mirrors(s) && s.storage.readable && s.storage.writable
    requires ReadsBack(parse, Encode(Saved(s.config, s.sessionId)))
    ensures var r := Initial(s.storage, parse, runtime, build);
            r.config == s.config && r.sessionId == s.sessionId
  {
    DecodeEncode(Saved(s.config, s.sessionId));
  }

  /** `save` on the setup page hands over a full draft: the configuration becomes exactly the draft. */
  lemma SetConfigWhole(s: State, d: StoredConfig)
    ensures SetConfig(s, Whole(d)).config == d
    ensures SetConfig(s, Whole(d)).sessionId == s.sessionId
  {
    MergeWhole(s.config, d);
  }
}
