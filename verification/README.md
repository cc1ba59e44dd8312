# Redteam AI assist web client — a verified model

This project models the logic of a small web console for supervised red-team
labs. The console talks to two HTTP backends:

- an AI advisory server, which keeps sessions, their events and suggestions;
- a local execution agent, which runs recon and ingests shell history on the
  operator's machine.

The model covers six areas, one group of Dafny modules each:

- **Configuration.** The layered resolver (`Config`) takes the runtime-injected
  object first, then the build-time variables, then the hardcoded defaults.
- **Application store** (`Store`). It holds the editable configuration and the
  current session id, and writes both through to browser storage under the key
  `rtai_webui_v1`.
- **Request gateway** (`Http`). It covers the JSON header, the timeout, the
  non-ok check, the 204 case and how an error message is chosen.
- **Backend facades** (`AiClient`, `AgentClient`). They give the URL, verb, body
  and timeout of every operation, after trailing slashes are stripped from the
  base URL.
- **The five pages** (`SessionPage`, `SuggestPage`, `AgentPage`,
  `EvidencePage`, `SetupPage`). Each action is a state transition. It takes the
  page state, the store and the outcome of the awaited call. It returns the new
  page state, the new store and the request it sent (`Page.Step`).
- **Shared text and data helpers** (`Text`, `Json`, `Uri`). These model the
  JavaScript built-ins the client relies on: `trim`, `split`, `join`, property
  access, truthiness, `String(v)`, `JSON.stringify` and `encodeURIComponent`.

Several things are parameters of the model rather than definitions:

- the network outcome (`Page.Outcome`, a value or the failure thrown);
- `JSON.parse`;
- `new URL(...).protocol`;
- the page protocol;
- the timestamp parser;
- the two configuration tiers;
- the storage slot, whose reads and writes may fail.

## Model

| member | source | states |
|---|---|---|
| Config.FirstNonEmpty | src/config.ts:24-29 | Returns none exactly when every candidate is missing or blank. Otherwise it returns the trimmed value of the first non-blank candidate, which is non-empty and trimmed. |
| Config.SplitCsv | src/config.ts:17-22 | Every entry is non-empty, trimmed and comma-free; a missing text gives no entries. |
| Config.Resolve | src/config.ts:40-58 | Every scalar field resolves to a non-empty trimmed value, whatever the tiers hold. |
| Config.ResolvePrecedence | src/config.ts:40-58 | A non-blank runtime value wins; failing that, a non-blank build-time value; failing that, the default. |
| Config.LoadConfig | src/config.ts:37-69 | The six scalar fields are usable, and the default targets are clean CSV entries. |
| Config.BlankRuntimeIsAbsent | src/config.ts:24-29 | A runtime value that is only white space loads the same configuration as a missing entry. |
| Config.ResolveIgnoresBlank | src/config.ts:24-29 | Setting any runtime entry to white space resolves every field as if the entry were missing. |
| Config.TemplateResolvesToPlaceholder | public/env.template.js:5-13 | Under the unsubstituted deployment template, every field resolves to its own `$NAME` placeholder. |
| Config.TemplateScalarAdopted | src/config.ts:40-58 | No placeholder guard exists: an unsubstituted template yields the literal `$NAME` in every scalar field. |
| Config.TemplateTargetsAdopted | src/config.ts:46 | An unsubstituted template yields the one literal target `$DEFAULT_TARGETS`. |
| Config.PlaceholderTargets | src/config.ts:17-22 | The placeholder `$DEFAULT_TARGETS` splits into the one entry `$DEFAULT_TARGETS`. |
| Config.IsLikelyMixedContent | src/config.ts:75-82 | True exactly when the page is `https:` and the agent URL parses with protocol `http:`; a URL that does not parse is never flagged. |
| Store.Merge | src/state/useAppStore.ts:83 | Patched properties take the patch's values; every other property keeps its value. |
| Store.MergeCompose | src/state/useAppStore.ts:82-86 | Two successive patches act as one combined patch, with the later one winning. |
| Store.MergeWhole | src/state/useAppStore.ts:83 | A patch holding every property replaces the configuration outright. |
| Store.MergeEmpty | src/state/useAppStore.ts:83 | An empty patch changes nothing. |
| Store.ParseTargetsCsv | src/state/useAppStore.ts:65-70 | Entries are non-empty, trimmed and comma-free; the empty text gives none. |
| Store.ParseTargetsCsvAppend | src/state/useAppStore.ts:65-70 | Entries keep input order: the text `a,b` parses to the entries of `a` followed by those of `b`. |
| Store.ParseTargetsCsvJoin | src/state/useAppStore.ts:65-70 | Clean entries joined with commas parse back to themselves. |
| Store.ParseTargetsCsvSplitCsv | src/state/useAppStore.ts:33 | The resolved target list, joined into the stored CSV, parses back to the same list. |
| Store.FromRuntimeDefaults | src/state/useAppStore.ts:28-40 | Every scalar property is usable. The objective is the fixed sentence. The stored CSV parses back to the loaded target list. |
| Store.DecodeConfig | src/state/useAppStore.ts:49 | Accepts a record exactly when it has every property as a string, and reads each property back. |
| Store.ConfigJsonProp | src/state/useAppStore.ts:59 | Every property of the persisted `config` object reads back as the configuration's value. |
| Store.DecodeConfigJson | src/state/useAppStore.ts:47-59 | The persisted `config` object decodes to the configuration it was made from. |
| Store.Decode | src/state/useAppStore.ts:47-51 | A record is adopted exactly when its `config` is truthy and decodes. A string `sessionId` is kept; any other value reads as "". |
| Store.DecodeEncode | src/state/useAppStore.ts:42-63 | Decoding what is persisted gives back the same configuration and session. |
| Store.DecodeNonStringSession | src/state/useAppStore.ts:50 | A stored `sessionId` that is not a string decodes as no session. |
| Store.Persist | src/state/useAppStore.ts:57-63 | A writable slot ends up holding the serialised record; a failed write leaves the slot unchanged. |
| Store.LoadFromStorage | src/state/useAppStore.ts:42-55 | A read that throws, or an absent or empty entry, gives nothing. Any record returned is the decoding of the parsed text. |
| Store.PersistLoad | src/state/useAppStore.ts:42-63 | With working storage and a parser that inverts `JSON.stringify`, what is persisted is what is loaded. |
| Store.Commit | src/state/useAppStore.ts:82-102 | Every action writes its new state through to storage, or leaves an unwritable slot untouched. |
| Store.Initial | src/state/useAppStore.ts:72-76 | Startup adopts the stored record when it loads. Otherwise it takes the runtime defaults with no session. |
| Store.StartupFallback | src/state/useAppStore.ts:42-76 | A missing, empty, unreadable or unparsable entry starts from the runtime defaults with no session. |
| Store.StartupNonStringSession | src/state/useAppStore.ts:50 | A stored record with a non-string `sessionId` restores its configuration with no session. |
| Store.SetConfig | src/state/useAppStore.ts:82-86 | Only the patched properties change, the session is kept, and storage mirrors the result. |
| Store.ResetConfigToRuntimeDefaults | src/state/useAppStore.ts:88-92 | The configuration becomes the runtime defaults, the session is kept, and storage mirrors the result. |
| Store.SetSessionId | src/state/useAppStore.ts:94-97 | Only the session changes, and storage mirrors the result. |
| Store.ClearSessionId | src/state/useAppStore.ts:99-102 | The session becomes "", nothing else changes, and storage mirrors the result. |
| Store.ClearIsSetEmpty | src/state/useAppStore.ts:94-102 | Clearing the session is the same transition as setting it to "". |
| Store.ReloadRestores | src/state/useAppStore.ts:72-103 | After any action, when storage works, the next startup restores exactly the in-memory configuration and session. |
| Store.SetConfigWhole | src/state/useAppStore.ts:82-86 | Handing over a whole configuration replaces it exactly and keeps the session. |
| Json.Lookup | src/state/useAppStore.ts:47-50 | A member is found exactly when an object member has that name, and the value found is one of that name's members. |
| Json.MembersLookup | src/pages/SuggestPage.tsx:37-44 | In an object literal with distinct names and members added only when set, each name reads back its value, or nothing when it was not added. |
| Json.MembersNamesOnly | src/api/agent.ts:11-19 | An object literal has no member beyond the names it lists. |
| Json.Serialize | src/state/useAppStore.ts:59 | The first character of the text tells objects, arrays and strings apart. |
| Json.JsString | src/api/http.ts:29 | `String(v)`: strings are kept, `null` reads "null", objects read "[object Object]", and truthy non-arrays give non-empty text. |
| Text.Trim | src/config.ts:26 | The result has no white space at either end and is no longer than the input. |
| Text.TrimIdempotent | src/config.ts:26 | Trimming twice is trimming once. |
| Text.TrimBlank | src/config.ts:26 | Trimming gives the empty text exactly when the input is all white space. |
| Text.TrimKeeps | src/config.ts:17-22 | Trimming adds no character: a character absent from the input is absent from the result. |
| Text.TrimTrimmed | src/config.ts:26 | Text with no white space at either end is left as it is. |
| Text.SplitJoin | src/state/useAppStore.ts:65-67 | Splitting a join of separator-free pieces gives back the pieces. |
| Text.JoinSplit | src/state/useAppStore.ts:33 | Joining the pieces of a split gives back the text. |
| Text.SplitAppend | src/config.ts:19 | Splitting `a`, a separator, `b` gives the pieces of `a` followed by those of `b`. |
| Text.CleanAppend | src/config.ts:20-21 | Trimming and dropping blanks distributes over concatenation. |
| Text.PiecesAppend | src/config.ts:17-22 | The clean entries of `a`, a separator, `b` are those of `a` followed by those of `b`. |
| Text.PiecesJoin | src/config.ts:17-22 | Clean entries joined with the separator read back as themselves. |
| Text.PiecesCrBeforeSep | src/pages/AgentPage.tsx:8-13 | A `\r` just before a separator does not change the clean entries. |
| Text.PiecesRoundTrip | src/state/useAppStore.ts:33 | Re-joining clean entries and parsing again is stable. |
| Uri.StripTrailingSlashes | src/api/ai.ts:5 | The result is the longest prefix not ending in `/`, and only slashes are removed. |
| Uri.StripTrailingSlashesUnique | src/api/ai.ts:5 | Those three guarantees determine the result uniquely. |
| Uri.StripTrailingSlashesIdempotent | src/api/agent.ts:4 | Stripping twice is stripping once. |
| Uri.StripTrailingSlashesNoSlash | src/api/agent.ts:4 | A URL that does not end in `/` is kept as it is. |
| Uri.EncodeComponent | src/api/ai.ts:16 | Encoding only uses encoded-component characters and leaves unreserved text as it is. |
| Uri.EncodedHasNoDelimiter | src/api/ai.ts:20 | An encoded component contains no `/`, `?`, `#`, `&` or `=`. |
| Http.OptionsOf | src/api/ai.ts:24-28 | A client passes its verb and timeout unchanged, with its body serialised and no headers of its own. |
| Http.Headers | src/api/http.ts:41-43 | `Content-Type: application/json` is added exactly when there is a non-empty body; caller headers override it. |
| Http.Prepare | src/api/http.ts:36-45 | The timeout defaults to 20000 ms, and the headers follow the body. |
| Http.JsonBodyHeader | src/api/http.ts:42 | A request from a backend client carries the JSON content type exactly when it has a body. |
| Http.Describe | src/pages/SessionPage.tsx:39 | A page shows the failure's message when it is non-empty, and otherwise its error name. |
| Http.ParseJsonOrText | src/api/http.ts:14-21 | Empty text gives `null`, JSON text gives its value, and any other text is kept as text. |
| Http.ParseJsonOrTextKeepsText | src/api/http.ts:18-19 | Text that does not parse reads back unchanged. |
| Http.ParseJsonOrTextSerialized | src/api/http.ts:16-17 | A serialised value parses back to itself. |
| Http.StatusLine | src/api/http.ts:28 | The fallback message is the decimal status, a space, then the status text. |
| Http.StatusLineValue | src/api/http.ts:28 | The text before the space reads back as the status code. |
| Http.ErrorMessage | src/api/http.ts:26-28 | A truthy `detail` wins, then a truthy `message`, then the status line. |
| Http.ErrorMessageNonObject | src/api/http.ts:27 | Only an object body can supply the message. |
| Http.ErrorMessageDetailExample | src/api/http.ts:27 | `{"detail":"x not found"}` gives "x not found". |
| Http.BodyText | src/api/http.ts:24 | An unreadable body counts as "". |
| Http.ReadErrorMessage | src/api/http.ts:23-30 | The error carries the status, the URL, the raw body text and the chosen message. |
| Http.EmptyBodyStatusLine | src/api/http.ts:24-28 | An empty or unreadable error body gives the status line. |
| Http.HttpJson | src/api/http.ts:32-58 | A fetch rejection is rethrown and a non-ok response raises its error. An ok 204 gives `null`. Success implies an ok response. |
| Http.HttpJsonBody | src/api/http.ts:52-54 | An ok response other than 204 gives its parsed body. |
| Http.NoContentIgnoresBody | src/api/http.ts:49-50 | A 204 response's body is never read. |
| Http.HttpVoid | src/api/http.ts:60-79 | Succeeds exactly on an ok response; otherwise it raises what `httpJson` would. |
| Http.NonOkAlwaysRaises | src/api/http.ts:47-74 | A non-ok response raises the same HTTP error in both gateways. |
| Http.HttpVoidAgrees | src/api/http.ts:32-79 | Whenever `httpJson` succeeds, `httpVoid` does too. |
| AiClient.MakeAiClient | src/api/ai.ts:4-8 | The exposed base URL is the given one with its trailing slashes removed. |
| AiClient.MakeAiClientIdempotent | src/api/ai.ts:5 | Building a client from a client's own base URL changes nothing. |
| AiClient.RequestFor | src/api/ai.ts:10-38 | Each operation's URL is under the base URL. GET is used for reads, POST for create, events and suggest, and DELETE for delete. POST bodies are exactly the caller's. Only suggest has its own timeout, 30000 ms. |
| AiClient.EffectiveTimeout | src/api/ai.ts:30-35 | The gateway aborts `suggest` after 30000 ms and everything else after 20000 ms. |
| AiClient.ListSessionsDefaultLimit | src/api/ai.ts:18 | Listing without a limit asks for 20. |
| AiClient.Segments | src/api/ai.ts:10-38 | `health` goes to `health`, create and list to `v1/sessions`, and the session-scoped operations to `v1`, `sessions`, the encoded id and their suffix. No segment holds `/`. |
| AiClient.UrlSegments | src/api/ai.ts:10-38 | For every operation but the list, the URL splits into the base URL's segments followed by the path's segments. |
| AiClient.QueryParts | src/api/ai.ts:20 | The list query has three parameters, and none of them holds `&` or `?`. |
| AiClient.ListQueryAvoidsQuestion | src/api/ai.ts:20 | The query holds no `?`, so the first `?` of the list URL begins it. |
| AiClient.ListUrlShape | src/api/ai.ts:18-22 | The list URL is the base URL, `/v1/sessions`, `?` and the query. |
| AiClient.SessionUrlSegments | src/api/ai.ts:15-38 | Session-scoped URLs are the base URL's segments, then `v1`, `sessions`, the encoded id as one segment and the operation's suffix. |
| AiClient.ListQueryParts | src/api/ai.ts:20 | The list query is exactly three parameters: tenant, user and limit, in that order. |
| AiClient.ListSessionsUrl | src/api/ai.ts:18-22 | The list URL is the sessions collection, one `?`, and that query. |
| AgentClient.MakeAgentClient | src/api/agent.ts:3-7 | The exposed base URL is the given one with its trailing slashes removed. |
| AgentClient.MakeAgentClientKeeps | src/api/agent.ts:4 | A URL without a trailing slash is exposed as given. |
| AgentClient.AutoReconJson | src/api/agent.ts:11-19 | The recon body carries the seven fields as given and no other member. |
| AgentClient.IngestHistoryJson | src/api/agent.ts:26-32 | The history body carries its fields and no other member; `history_files` is absent exactly when no list is given. |
| AgentClient.RunJson | src/api/agent.ts:39 | The run body carries the command, and `timeout` only when given, and no other member. |
| AgentClient.Endpoint | src/api/agent.ts:9-40 | The operations go to the single segments `health`, `auto-recon`, `ingest-history` and `run`. |
| AgentClient.RequestFor | src/api/agent.ts:9-44 | `health` is a GET without body or timeout. Every other operation is a POST of the caller's body with a 120000 ms timeout. |
| AgentClient.AgentUrlSegments | src/api/agent.ts:9-40 | Every agent URL is the base URL plus exactly one segment naming the operation. |
| AgentClient.AgentEffectiveTimeout | src/api/agent.ts:20-43 | The gateway aborts `health` after 20000 ms and the rest after 120000 ms. |
| SessionPage.Open | src/pages/SessionPage.tsx:16-21 | The id field starts at the current session; no record, list or error is shown. |
| SessionPage.CreateBody | src/pages/SessionPage.tsx:27-34 | The create body carries the stored tenant, user, agent, objective and policy, with the target scope parsed from the CSV. |
| SessionPage.CreateBodyTargets | src/pages/SessionPage.tsx:32 | Every target scope entry is non-empty, trimmed and comma-free. |
| SessionPage.SessionIdOf | src/pages/SessionPage.tsx:36 | The created record's string `session_id`. |
| SessionPage.CreateSession | src/pages/SessionPage.tsx:23-43 | A created record is shown and its id is selected, stored and loaded into the field. A `null` answer is shown and fails when its id is read. A failure only shows the error. |
| SessionPage.CreatedSessionSurvivesReload | src/pages/SessionPage.tsx:35-37 | With working storage, a created session is what the next startup restores. |
| SessionPage.FetchSession | src/pages/SessionPage.tsx:45-58 | Success shows the record and selects the id; failure shows the error, drops the record and keeps the session. |
| SessionPage.ListSessions | src/pages/SessionPage.tsx:60-72 | Asks for the configured tenant and user with limit 100. Failure empties the list. The store never changes. |
| SessionPage.DeleteCurrent | src/pages/SessionPage.tsx:74-88 | Without a session nothing happens. Success clears the record, the session and the field. Failure only shows the error. |
| SessionPage.ActionsKeepMirror | src/pages/SessionPage.tsx:23-88 | Every session action leaves storage mirroring the store. |
| SuggestPage.Initial | src/pages/SuggestPage.tsx:18-27 | The page starts with memory mode `window`, history window 12 and focus `auto`. |
| SuggestPage.SuggestObject | src/pages/SuggestPage.tsx:37-44 | The four controls are always members of the body, and the message and phase override are members exactly when given. |
| SuggestPage.SuggestBody | src/pages/SuggestPage.tsx:37-44 | The four controls are always present. The trimmed message is present exactly when it is not blank. The phase override is present exactly when one is chosen. A focus argument overrides the selected focus. |
| SuggestPage.GetSuggest | src/pages/SuggestPage.tsx:29-53 | Without a session the page only shows the missing-session error. Otherwise it posts to the session's suggest URL. Success shows the answer; failure drops it. The store never changes. |
| SuggestPage.ReportBody | src/pages/SuggestPage.tsx:41 | The report focus argument builds the body that selecting `report` builds. |
| SuggestPage.ReportButtonIsReportFocus | src/pages/SuggestPage.tsx:126-131 | The report button sends and shows what the main button would with `report` selected. |
| SuggestPage.MessageTrimmedAlike | src/pages/SuggestPage.tsx:43 | Messages that trim alike send the same body. |
| SuggestPage.SuggestUrl | src/pages/SuggestPage.tsx:45 | The session id is exactly one path segment of the suggest URL. |
| AgentPage.DropCr | src/pages/AgentPage.tsx:10 | Removing the `\r` of a `\r\n` break does not change what the line trims to. |
| AgentPage.RegexSplitLines | src/pages/AgentPage.tsx:10 | The pieces are newline-free and trim alike with the pieces of a split on `\n`. |
| AgentPage.SplitLines | src/pages/AgentPage.tsx:8-13 | Every line is non-empty, trimmed and free of `\n`. |
| AgentPage.SplitLinesPieces | src/pages/AgentPage.tsx:8-13 | The lines are the trimmed, non-blank pieces of the text split on `\n` alone. |
| AgentPage.SplitLinesCrlf | src/pages/AgentPage.tsx:10 | Windows and Unix line breaks give the same lines. |
| AgentPage.SplitLinesAppend | src/pages/AgentPage.tsx:8-13 | Lines keep their order across a line break. |
| AgentPage.SplitLinesJoin | src/pages/AgentPage.tsx:8-13 | Clean lines written one per line read back as written. |
| AgentPage.Open | src/pages/AgentPage.tsx:22-35 | Targets start at the configured CSV, and verbose and once start on. The download link is the one supplied. |
| AgentPage.OpenAsWritten | src/pages/AgentPage.tsx:35 | As written, rendering throws a `TypeError`, because the AI client has no `kaliAgentDownloadUrl`. |
| AgentPage.OpenDiscrepancy | src/pages/AgentPage.tsx:35 | The page as written never opens; with the link supplied it opens with its defaults. |
| AgentPage.RefreshSession | src/pages/AgentPage.tsx:37-49 | Without a session nothing happens. Success shows the record; failure keeps the last record shown. |
| AgentPage.Land | src/pages/AgentPage.tsx:68-74 | Success shows the agent's answer; failure shows the error and drops the answer. |
| AgentPage.DoAutoRecon | src/pages/AgentPage.tsx:51-75 | Without a session only the missing-session error is shown. Otherwise the recon body goes to the agent's `auto-recon`. |
| AgentPage.DoIngestHistory | src/pages/AgentPage.tsx:77-99 | Without a session only the missing-session error is shown. Otherwise the history body goes to the agent's `ingest-history`. |
| AgentPage.AutoReconSends | src/pages/AgentPage.tsx:59-67 | The recon request reports to the configured AI URL under the current session and scans the parsed targets. |
| AgentPage.IngestHistorySends | src/pages/AgentPage.tsx:85-91 | The history request always lists the non-blank lines of the field, trimmed, whatever the line breaks. |
| EvidencePage.EventTitle | src/pages/EvidencePage.tsx:15-20 | A command is titled by the stored command itself, whatever its type. A request is titled `<method or GET> <url>`. A note is titled by `String` of its note, or failing that its text. Anything else gets "". |
| EvidencePage.Rendered | src/pages/EvidencePage.tsx:206-208 | A title is rendered as React renders a child: strings as they are, numbers in decimal, nothing for booleans and `null`, and arrays with their children run together. An object throws. |
| EvidencePage.TitleShown | src/pages/EvidencePage.tsx:206-208 | A card shows no title line for a falsy title, and otherwise the rendering of the title. |
| EvidencePage.StringTitleShown | src/pages/EvidencePage.tsx:17-18 | Request and note titles are strings, so their cards show the text of the title. |
| EvidencePage.CommandTitleShown | src/pages/EvidencePage.tsx:16 | A `true` command shows no title, a list of two strings shows them run together, and an object command makes the page throw. |
| EvidencePage.EventsOf | src/pages/EvidencePage.tsx:103 | The session's `events` array, or nothing when `events` is falsy. |
| EvidencePage.EventKey | src/pages/EvidencePage.tsx:104-105 | The timestamp's time when the event has a truthy timestamp, otherwise 0. |
| EvidencePage.InsertPerm | src/pages/EvidencePage.tsx:103-107 | Inserting adds exactly the one event to the list. |
| EvidencePage.InsertSorted | src/pages/EvidencePage.tsx:103-107 | Inserting into a newest-first list keeps it newest first. |
| EvidencePage.SortEvents | src/pages/EvidencePage.tsx:103-107 | Sorting returns the same events, each as often as before, newest first. |
| EvidencePage.FilterMember | src/pages/EvidencePage.tsx:109 | An event passes exactly when the filter is `all` or names its type. |
| EvidencePage.FilterEvents | src/pages/EvidencePage.tsx:109 | `all` keeps the list as it is. Otherwise every kept event comes from the list, and none is kept more often than it occurs. |
| EvidencePage.FilterCount | src/pages/EvidencePage.tsx:109 | Each event of the chosen type is kept as often as it occurs, and no other event is kept. |
| EvidencePage.FilterAppend | src/pages/EvidencePage.tsx:109 | Filtering keeps order: it distributes over concatenation. |
| EvidencePage.FilterSorted | src/pages/EvidencePage.tsx:109 | Filtering a newest-first list leaves it newest first. |
| EvidencePage.Displayed | src/pages/EvidencePage.tsx:103-109 | The shown list is newest first. It holds each of the session's events of the chosen type as often as the session does, and no other event. |
| EvidencePage.Open | src/pages/EvidencePage.tsx:28-35 | The page starts with an empty note, no session, filter `all` and no report. |
| EvidencePage.Refresh | src/pages/EvidencePage.tsx:37-53 | Without a session only the missing-session error is shown. Success shows the record; failure drops it. |
| EvidencePage.NoteEvent | src/pages/EvidencePage.tsx:66-74 | The recorded event is a `note` whose payload holds the note and the source `webui`. |
| EvidencePage.NoteTitle | src/pages/EvidencePage.tsx:18 | A recorded note is titled by its text, and its card shows that text. |
| EvidencePage.AddNoteAsWritten | src/pages/EvidencePage.tsx:55-83 | As written, a non-blank note with a session is never sent; the `TypeError` of the missing `ingestEvents` is shown. |
| EvidencePage.AddNoteVia | src/pages/EvidencePage.tsx:55-83 | With `ingestEvents` abstract: no session shows the error and a blank note does nothing. Otherwise the trimmed note event is sent. Success shows the record and clears the note. |
| EvidencePage.AddNote | src/pages/EvidencePage.tsx:55-83 | As above, with the events posted to the session's `events` collection. |
| EvidencePage.AddNoteDiscrepancy | src/pages/EvidencePage.tsx:65 | The page as written sends nothing, where the corrected page POSTs to `…/v1/sessions/<id>/events`. |
| EvidencePage.AddNoteSendsNote | src/pages/EvidencePage.tsx:66-74 | The posted event is the typed note, trimmed, and is titled by it. |
| EvidencePage.ReportBody | src/pages/EvidencePage.tsx:93 | The report request's body is the `report` focus alone. |
| EvidencePage.FetchReportTemplate | src/pages/EvidencePage.tsx:85-101 | Without a session only the missing-session error is shown. Otherwise it asks for a `report`-focused suggestion; failure drops the last report. |
| SetupPage.Open | src/pages/SetupPage.tsx:13-25 | The draft starts as the stored configuration, with both banners idle. |
| SetupPage.HttpsMixedContent | src/pages/SetupPage.tsx:27-28 | The warning shows exactly when the page is `https:` and the first seven characters of the agent URL, lowercased, are `http://`. |
| SetupPage.HttpsAgentNotFlagged | src/pages/SetupPage.tsx:27-28 | An agent URL starting with `https://` is never flagged. |
| SetupPage.HttpAgentFlagged | src/pages/SetupPage.tsx:27-28 | An `http://` agent URL, in any letter case, is flagged exactly on an HTTPS page. |
| SetupPage.MixedContentAgrees | src/pages/SetupPage.tsx:27-28 | On a URL spelled `http://…` that parses with protocol `http:`, the page test and `isLikelyMixedContent` agree. |
| SetupPage.MixedContentDiffers | src/config.ts:75-82 | On a URL such as `http:host`, which parses with protocol `http:` but has no `//`, only `isLikelyMixedContent` warns. |
| SetupPage.EditDraft | src/pages/SetupPage.tsx:87-147 | Editing a field changes only that field of the draft and saves nothing. |
| SetupPage.Save | src/pages/SetupPage.tsx:56-58 | The stored configuration becomes exactly the draft, the session is kept, and storage mirrors the store. |
| SetupPage.Reset | src/pages/SetupPage.tsx:60-62 | The store goes back to the runtime defaults, and the draft follows it. |
| SetupPage.ClearSession | src/pages/SetupPage.tsx:158 | The session is cleared, and the draft stays. |
| SetupPage.AiHealthMessage | src/pages/SetupPage.tsx:36 | The banner shows the status, and the environment when it is truthy. |
| SetupPage.BeginAiTest | src/pages/SetupPage.tsx:31-32 | A test first sets the AI banner back to idle with no message. |
| SetupPage.BeginAgentTest | src/pages/SetupPage.tsx:44-45 | A test first sets the agent banner back to idle with no message. |
| SetupPage.TestAi | src/pages/SetupPage.tsx:30-41 | Probes the drafted AI URL. The banner is `ok` exactly when a non-null answer arrives; otherwise it shows the error. |
| SetupPage.TestAgent | src/pages/SetupPage.tsx:43-54 | Probes the drafted agent URL. The banner is `ok` exactly when a non-null answer arrives; otherwise it shows the error. |
| SetupPage.TestsOverwriteBanner | src/pages/SetupPage.tsx:30-54 | Once a probe settles, the banner does not depend on what it showed before. |
| SetupPage.TestsUseDraft | src/pages/SetupPage.tsx:18-19 | The probes depend on the draft, not on the saved configuration. |
| SetupPage.EditThenSave | src/pages/SetupPage.tsx:56-58 | Editing one field and saving stores that edit over the stored values and keeps the session. |
| SetupPage.SaveUnchangedDraft | src/pages/SetupPage.tsx:13-58 | Saving an untouched draft leaves the stored configuration as it was. |
| SetupPage.SaveSurvivesReload | src/pages/SetupPage.tsx:56-58 | With working storage, the saved draft is what the next startup restores. |

## Left out

- I/O and timing are not modelled: `fetch`, `AbortController`, the timers and the abort race. The network is an outcome parameter, and the timeout is kept only as a number on the request.
- Foreign library calls are parameters and not definitions: `JSON.parse`, `new URL`, and `new Date(ts).getTime()`. `toLocaleString` and `formatTs` are display formatting and are left out.
- The environment is passed in as parameters: `localStorage`, `window.__APP_CONFIG__`, `import.meta.env` and `window.location`.
- UI plumbing is left out because it has no behaviour beyond what is modelled: React hooks, busy flags, JSX, routing and the presentational components.
- The Agent page's download button and CLI quickstart are display text; the model only keeps the download link.
- Floating-point display of confidence and scores on the Suggest page is left out.
- JSON numbers are integers. The client sends only integral numbers, but it receives fractional ones too, such as a suggestion's `score` and `phase_confidence`. A fractional value turned into text is therefore not modelled: `String(...)` of an error body's `detail` or `message` in `Http.ErrorMessage` (through `Json.JsString`), and a numeric command title in `EvidencePage.Rendered`.
- Json.Serialize: its contract only fixes the kind of value the text starts with. That `JSON.parse` reads the text back is a property asked of the parser parameter (`Store.ReadsBack`). `undefined` members, which `JSON.stringify` drops, are not modelled.
- Header names are compared exactly; HTTP's case-insensitive header names are not modelled.
- Only the settled state of an action is modelled; the intermediate `setErr("")` before the await and the busy flag are not.
- `AgentClient.RunJson` is modelled, but no page calls `run`.
- `Config.IsLikelyMixedContent` is modelled, but no page calls it; the Setup page has its own test (`SetupPage.HttpsMixedContent`).
- Store.DecodeConfig: the source adopts any truthy `config` without checking it. The model accepts only a record with all eight properties as strings, and treats anything else as no saved record.
- Store.Decode: the same restriction as `Store.DecodeConfig` applies to the saved `config`.
- Store.LoadFromStorage: the same restriction as `Store.DecodeConfig` applies to the saved `config`.
- SessionPage.SessionIdOf: the source stores a non-string `session_id` as it is (usually `undefined`); the model stores "".
- SessionPage.CreateSession: it uses `SessionPage.SessionIdOf`, so the same non-string `session_id` restriction applies.
- EvidencePage.SortEvents: stability among equal keys holds by construction, but no lemma states it.
- EvidencePage.EventKey: an invalid date (`NaN`) is not modelled; the timestamp parser returns an integer.
- EvidencePage.EventsOf: a truthy `events` value that is not an array would throw in the source; the model gives no events.
- EvidencePage.EventTitle: a `null` event throws in the source when its `event_type` is read; the model titles it "". Any other non-object event has no `event_type` and gets "" in both.
- EvidencePage.EventKey: a `null` event also throws in the sort comparator, where the model gives it key 0.
- EvidencePage.FilterEvents: a `null` event throws in the type filter, where the model treats it as not of the chosen type.
- SuggestPage.SuggestBody: the history window is an integer. An empty field gives 12, which the model covers. A non-empty value that `parseInt` cannot read gives `NaN`, which is not modelled.
- SetupPage.HttpsAgentNotFlagged: `toLowerCase` is modelled for ASCII letters only.
- SetupPage.HttpAgentFlagged: `toLowerCase` is modelled for ASCII letters only.
- SetupPage.AiHealthMessage: requires a non-null answer, because the source throws on `null` before the message is built (`SetupPage.TestAi` models that throw).
- `src/api/types.ts` has no behaviour; its unions appear as the datatypes `SuggestPage.MemoryMode` and `SuggestPage.RagFocus`.

## Findings

| source | as written | input that shows it | evidently intended | confidence | as-written member | corrected member |
|---|---|---|---|---|---|---|
| src/pages/EvidencePage.tsx:65 | `addNote` calls `ai.ingestEvents`, which the AI client does not define, so every note fails with a `TypeError` and nothing is sent | any selected session and a non-blank note | post the note event to the session's events (`addEvents`, `POST /v1/sessions/<id>/events`), as the button label at line 124 says | high; not executed | EvidencePage.AddNoteAsWritten | EvidencePage.AddNote |
| src/pages/AgentPage.tsx:35 | rendering calls `ai.kaliAgentDownloadUrl()`, which the AI client does not define, so the page throws before it renders | any configuration | show the agent script's download link from the AI server | high; not executed | AgentPage.OpenAsWritten | AgentPage.Open |
