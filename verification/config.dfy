/** The layered configuration resolver of `src/config.ts`: every field takes
    the first non-blank value among the runtime-injected object
    (`window.__APP_CONFIG__`), the build-time variables (`import.meta.env`,
    prefixed `VITE_`) and a hardcoded default. There is no placeholder
    guard: a literal template token such as `$AI_BASE_URL` is non-blank
    and is adopted as it stands. */
module Config {
  import opened Wrappers
  import Text

  /** The fields of the resolved configuration. */
  datatype Field =
    | AiBaseUrl
    | LocalAgentUrl
    | DefaultTargets
    | DefaultPolicyId
    | DefaultTenantId
    | DefaultUserId
    | DefaultAgentId

  /** The name of the field in the runtime-injected object. */
  function RuntimeKey(f: Field): (k: string)
    ensures k != [] && !Text.IsSpace(k[|k| - 1])
  {
    match f
    case AiBaseUrl => "AI_BASE_URL"
    case LocalAgentUrl => "LOCAL_AGENT_URL"
    case DefaultTargets => "DEFAULT_TARGETS"
    case DefaultPolicyId => "DEFAULT_POLICY_ID"
    case DefaultTenantId => "DEFAULT_TENANT_ID"
    case DefaultUserId => "DEFAULT_USER_ID"
    case DefaultAgentId => "DEFAULT_AGENT_ID"
  }

  /** The name of the field among the build-time variables. */
  function BuildKey(f: Field): string {
    "VITE_" + RuntimeKey(f)
  }

  /** The hardcoded default; the target list defaults to the empty CSV text. */
  function Fallback(f: Field): string {
    match f
    case AiBaseUrl => "http://127.0.0.1:8088"
    case LocalAgentUrl => "http://127.0.0.1:8787"
    case DefaultTargets => ""
    case DefaultPolicyId => "lab-default"
    case DefaultTenantId => "lab"
    case DefaultUserId => "student"
    case DefaultAgentId => "redteam-ai-assist"
  }

  /** One configuration tier: its string-valued entries. A missing runtime
      object is the empty tier, and an entry that is not a string is left
      out, which is how `firstNonEmpty` treats it. */
  type Tier = map<string, string>

  function Lookup(t: Tier, key: string): Option<string> {
    if key in t then Some(t[key]) else None
  }

  /** The resolved configuration (`AppConfig`). */
  datatype AppConfig = AppConfig(
    aiBaseUrl: string,
    localAgentUrl: string,
    defaultTargets: seq<string>,
    defaultPolicyId: string,
    defaultTenantId: string,
    defaultUserId: string,
    defaultAgentId: string)

  /** A candidate counts when it is a string that is non-empty after trimming. */
  predicate NonBlank(v: Option<string>) {
    v.Some? && Text.Trim(v.value) != ""
  }

  /** Candidate `i` is the first non-blank one. */
  predicate FirstNonBlankAt(vals: seq<Option<string>>, i: int) {
    && 0 <= i < |vals|
    && NonBlank(vals[i])
    && forall j :: 0 <= j < i ==> !NonBlank(vals[j])
  }

  lemma FirstNonBlankShift(vals: seq<Option<string>>, i: int)
    requires |vals| > 0 && !NonBlank(vals[0])
    requires FirstNonBlankAt(vals[1..], i)
    ensures FirstNonBlankAt(vals, i + 1)
  {
    forall j | 0 <= j < i + 1
      ensures !NonBlank(vals[j])
    {
      if j > 0 {
        assert vals[j] == vals[1..][j - 1];
      }
    }
  }

  /** `firstNonEmpty`: the trimmed value of the first non-blank candidate, or none. */
  function FirstNonEmpty(vals: seq<Option<string>>): (r: Option<string>)
    ensures r.None? <==> forall i :: 0 <= i < |vals| ==> !NonBlank(vals[i])
    ensures r.Some? ==> exists i :: FirstNonBlankAt(vals, i) && r.value == Text.Trim(vals[i].value)
    ensures r.Some? ==> r.value != "" && Text.IsTrimmed(r.value)
  {
    if |vals| == 0 then None
    else if NonBlank(vals[0]) then
      assert FirstNonBlankAt(vals, 0);
      Some(Text.Trim(vals[0].value))
    else
      var r := FirstNonEmpty(vals[1..]);
      assert forall i :: 1 <= i < |vals| ==> vals[i] == vals[1..][i - 1];
      assert r.Some? ==> exists i :: FirstNonBlankAt(vals, i) && r.value == Text.Trim(vals[i].value) by {
        if r.Some? {
          var i :| FirstNonBlankAt(vals[1..], i) && r.value == Text.Trim(vals[1..][i].value);
          FirstNonBlankShift(vals, i);
        }
      }
      r
  }

  /** `splitCsv`: trimmed, non-blank, comma-free entries; a missing text gives none. */
  function SplitCsv(s: Option<string>): (r: seq<string>)
    ensures Text.CleanEntries(r, ',')
    ensures s.None? ==> r == []
  {
    Text.Pieces(s.GetOr(""), ',')
  }

  /** A resolved scalar: non-empty and trimmed. */
  predicate Usable(v: string) {
    v != "" && Text.IsTrimmed(v)
  }

  /** The value of one field: runtime tier, then build-time tier, then the default. */
  function Resolve(f: Field, runtime: Tier, build: Tier): (r: string)
    ensures f != DefaultTargets ==> Usable(r)
  {
    var v := FirstNonEmpty([Lookup(runtime, RuntimeKey(f)), Lookup(build, BuildKey(f))]);
    if v.Some? then v.value else Fallback(f)
  }

  /** Distinct fields have distinct runtime names. */
  lemma RuntimeKeysDistinct(f: Field, g: Field)
    requires f != g
    ensures RuntimeKey(f) != RuntimeKey(g)
  {
    var a := RuntimeKey(f);
    var b := RuntimeKey(g);
    if |a| == |b| {
      assert a[0] != b[0] || a[8] != b[8];
    }
  }

  /** `loadConfig` with both tiers as parameters. */
  function LoadConfig(runtime: Tier, build: Tier): (c: AppConfig)
    ensures Usable(c.aiBaseUrl) && Usable(c.localAgentUrl) && Usable(c.defaultPolicyId)
    ensures Usable(c.defaultTenantId) && Usable(c.defaultUserId) && Usable(c.defaultAgentId)
    ensures forall i :: 0 <= i < |c.defaultTargets| ==>
              c.defaultTargets[i] != "" && Text.IsTrimmed(c.defaultTargets[i]) && ',' !in c.defaultTargets[i]
  {
    AppConfig(
      Resolve(AiBaseUrl, runtime, build),
      Resolve(LocalAgentUrl, runtime, build),
      SplitCsv(Some(Resolve(DefaultTargets, runtime, build))),
      Resolve(DefaultPolicyId, runtime, build),
      Resolve(DefaultTenantId, runtime, build),
      Resolve(DefaultUserId, runtime, build),
      Resolve(DefaultAgentId, runtime, build))
  }

  /** The value of a scalar field of a configuration; the target list has none. */
  function Scalar(c: AppConfig, f: Field): string {
    match f
    case AiBaseUrl => c.aiBaseUrl
    case LocalAgentUrl => c.localAgentUrl
    case DefaultTargets => ""
    case DefaultPolicyId => c.defaultPolicyId
    case DefaultTenantId => c.defaultTenantId
    case DefaultUserId => c.defaultUserId
    case DefaultAgentId => c.defaultAgentId
  }

  /** Tier precedence, field by field: a non-blank runtime value wins, else a
      non-blank build-time value, else the hardcoded default. */
  lemma ResolvePrecedence(f: Field, runtime: Tier, build: Tier)
    ensures var rv := Lookup(runtime, RuntimeKey(f));
            var bv := Lookup(build, BuildKey(f));
            && (NonBlank(rv) ==> Resolve(f, runtime, build) == Text.Trim(rv.value))
            && (!NonBlank(rv) && NonBlank(bv) ==> Resolve(f, runtime, build) == Text.Trim(bv.value))
            && (!NonBlank(rv) && !NonBlank(bv) ==> Resolve(f, runtime, build) == Fallback(f))
  {
    var rv := Lookup(runtime, RuntimeKey(f));
    var bv := Lookup(build, BuildKey(f));
    var r := FirstNonEmpty([rv, bv]);
    if !NonBlank(rv) && NonBlank(bv) {
      assert r == FirstNonEmpty([bv]);
    }
  }

  /** Each scalar field of the loaded configuration is the resolved value of that field. */
  lemma LoadConfigScalar(runtime: Tier, build: Tier, f: Field)
    requires f != DefaultTargets
    ensures Scalar(LoadConfig(runtime, build), f) == Resolve(f, runtime, build)
  {
  }

  /** One field resolves the same whether its runtime entry is blank or missing. */
  lemma ResolveIgnoresBlank(g: Field, runtime: Tier, build: Tier, f: Field, blank: string)
    requires Text.AllSpace(blank)
    ensures Resolve(g, runtime[RuntimeKey(f) := blank], build) == Resolve(g, runtime - {RuntimeKey(f)}, build)
  {
    if g == f {
      BlankEntrySkipped(runtime, build, f, blank);
    } else {
      OtherEntryIgnored(g, runtime, build, f, blank);
    }
  }

  /** A blank runtime entry is passed over in favour of the build-time value, as a missing one is. */
  lemma BlankEntrySkipped(runtime: Tier, build: Tier, f: Field, blank: string)
    requires Text.AllSpace(blank)
    ensures Resolve(f, runtime[RuntimeKey(f) := blank], build) == Resolve(f, runtime - {RuntimeKey(f)}, build)
  {
    var bv := Lookup(build, BuildKey(f));
    Text.TrimBlank(blank);
    assert !NonBlank(Some(blank));
    assert FirstNonEmpty([Some(blank), bv]) == FirstNonEmpty([bv]);
    assert FirstNonEmpty([None, bv]) == FirstNonEmpty([bv]);
  }

  /** Changing one field's runtime entry leaves every other field alone. */
  lemma OtherEntryIgnored(g: Field, runtime: Tier, build: Tier, f: Field, blank: string)
    requires g != f
    ensures Resolve(g, runtime[RuntimeKey(f) := blank], build) == Resolve(g, runtime - {RuntimeKey(f)}, build)
  {
    RuntimeKeysDistinct(f, g);
    assert Lookup(runtime[RuntimeKey(f) := blank], RuntimeKey(g)) == Lookup(runtime - {RuntimeKey(f)}, RuntimeKey(g));
  }

  /** A runtime value that is only white space resolves exactly as if the field were absent. */
  lemma BlankRuntimeIsAbsent(runtime: Tier, build: Tier, f: Field, blank: string)
    requires Text.AllSpace(blank)
    ensures LoadConfig(runtime[RuntimeKey(f) := blank], build) == LoadConfig(runtime - {RuntimeKey(f)}, build)
  {
    ResolveIgnoresBlank(AiBaseUrl, runtime, build, f, blank);
    ResolveIgnoresBlank(LocalAgentUrl, runtime, build, f, blank);
    ResolveIgnoresBlank(DefaultTargets, runtime, build, f, blank);
    ResolveIgnoresBlank(DefaultPolicyId, runtime, build, f, blank);
    ResolveIgnoresBlank(DefaultTenantId, runtime, build, f, blank);
    ResolveIgnoresBlank(DefaultUserId, runtime, build, f, blank);
    ResolveIgnoresBlank(DefaultAgentId, runtime, build, f, blank);
  }

  /** The runtime object of the deployment template before substitution:
      every entry is its own name behind a `$`. */
  const TemplateRuntime: Tier := map k | k in RuntimeKeys :: "$" + k

  /** The names the runtime object may define. */
  const RuntimeKeys: set<string> := set f: Field :: RuntimeKey(f)

  /** A placeholder token is already trimmed and not blank. */
  lemma PlaceholderUsable(f: Field)
    ensures Usable("$" + RuntimeKey(f))
  {
    var k := RuntimeKey(f);
    var v := "$" + k;
    assert v[0] == '$' && v[|v| - 1] == k[|k| - 1];
  }

  /** Under the unsubstituted template, each field resolves to its placeholder token. */
  lemma TemplateResolvesToPlaceholder(f: Field, build: Tier)
    ensures Resolve(f, TemplateRuntime, build) == "$" + RuntimeKey(f)
  {
    var k := RuntimeKey(f);
    var v := "$" + k;
    assert k in RuntimeKeys;
    assert Lookup(TemplateRuntime, k) == Some(v);
    PlaceholderUsable(f);
    Text.TrimTrimmed(v);
  }

  /** A single placeholder token is one CSV entry. */
  lemma PlaceholderTargets()
    ensures SplitCsv(Some("$DEFAULT_TARGETS")) == ["$DEFAULT_TARGETS"]
  {
    var t := "$DEFAULT_TARGETS";
    assert !Text.IsSpace(t[0]) && !Text.IsSpace(t[|t| - 1]);
    Text.SplitNoSep(t, ',');
    Text.CleanClean([t]);
  }

  /** No placeholder guard: an unsubstituted template is adopted literally,
      whatever the build-time tier holds. */
  lemma TemplateScalarAdopted(build: Tier, f: Field)
    requires f != DefaultTargets
    ensures Scalar(LoadConfig(TemplateRuntime, build), f) == "$" + RuntimeKey(f)
  {
    TemplateResolvesToPlaceholder(f, build);
    LoadConfigScalar(TemplateRuntime, build, f);
  }

  /** The unsubstituted target list is one literal entry. */
  lemma TemplateTargetsAdopted(build: Tier)
    ensures LoadConfig(TemplateRuntime, build).defaultTargets == ["$DEFAULT_TARGETS"]
  {
    TemplateResolvesToPlaceholder(DefaultTargets, build);
    PlaceholderTargets();
  }

  /** `isLikelyMixedContent`, with the page protocol and the URL parser as parameters:
      `protocolOf(u)` is `new URL(u).protocol`, or `None` when the constructor throws. */
  function IsLikelyMixedContent(agentUrl: string, pageProtocol: string, protocolOf: string -> Option<string>): (r: bool)
    ensures r <==> pageProtocol == "https:" && protocolOf(agentUrl) == Some("http:")
    ensures protocolOf(agentUrl).None? ==> !r
  {
    match protocolOf(agentUrl)
    case None => false
    case Some(p) => pageProtocol == "https:" && p == "http:"
  }
}
