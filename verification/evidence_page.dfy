/** `src/pages/EvidencePage.tsx`: the session's events, newest first and
    filtered by type, with their titles; adding a note; and the report template. */
module EvidencePage {
  import opened Wrappers
  import Text
  import J = Json
  import Http
  import Store
  import AiClient
  import opened Page

  /** `o?.[key]` for a value that may itself be missing. */
  function Prop(o: Option<J.Json>, key: string): (r: Option<J.Json>)
    ensures o.None? ==> r.None?
    ensures o.Some? ==> r == J.Get(o.value, key)
  {
    if o.Some? then J.Get(o.value, key) else None
  }

  /** `e.event_type === t`. */
  predicate IsType(e: J.Json, t: string) {
    J.Get(e, "event_type") == Some(J.JStr(t))
  }

  /** `eventTitle(e)`: the command of a command event as it is stored, whatever its type;
      `<method or GET> <url>` of a request; the note (or text) of a note, as a string;
      the empty string for anything else. */
  function EventTitle(e: J.Json): (r: J.Json)
    ensures !IsType(e, "command") && !IsType(e, "http") && !IsType(e, "note") ==> r == J.JStr("")
    ensures IsType(e, "command") && J.TruthyOpt(Prop(J.Get(e, "payload"), "command")) ==>
              r == Prop(J.Get(e, "payload"), "command").value
    ensures IsType(e, "http") && J.TruthyOpt(Prop(J.Get(e, "payload"), "url")) && !J.TruthyOpt(Prop(J.Get(e, "payload"), "method")) ==>
              r == J.JStr("GET " + J.JsString(Prop(J.Get(e, "payload"), "url").value))
    ensures IsType(e, "http") && J.TruthyOpt(Prop(J.Get(e, "payload"), "url")) && J.TruthyOpt(Prop(J.Get(e, "payload"), "method")) ==>
              r == J.JStr(J.JsString(Prop(J.Get(e, "payload"), "method").value) + " " + J.JsString(Prop(J.Get(e, "payload"), "url").value))
    ensures IsType(e, "note") && J.TruthyOpt(Prop(J.Get(e, "payload"), "note")) ==>
              r == J.JStr(J.JsString(Prop(J.Get(e, "payload"), "note").value))
    ensures IsType(e, "note") && !J.TruthyOpt(Prop(J.Get(e, "payload"), "note")) && J.TruthyOpt(Prop(J.Get(e, "payload"), "text")) ==>
              r == J.JStr(J.JsString(Prop(J.Get(e, "payload"), "text").value))
    ensures IsType(e, "note") && !J.TruthyOpt(Prop(J.Get(e, "payload"), "note")) && !J.TruthyOpt(Prop(J.Get(e, "payload"), "text")) ==>
              r == J.JStr("")
    ensures !IsType(e, "command") || !J.TruthyOpt(Prop(J.Get(e, "payload"), "command")) ==> r.JStr?
  {
    var payload := J.Get(e, "payload");
    if IsType(e, "command") && J.TruthyOpt(Prop(payload, "command")) then
      Prop(payload, "command").value
    else if IsType(e, "http") && J.TruthyOpt(Prop(payload, "url")) then
      var m := Prop(payload, "method");
      var url := J.JsString(Prop(payload, "url").value);
      J.JStr(if J.TruthyOpt(m) then J.JsString(m.value) + " " + url else "GET " + url)
    else if IsType(e, "note") && (J.TruthyOpt(Prop(payload, "note")) || J.TruthyOpt(Prop(payload, "text"))) then
      var n := Prop(payload, "note");
      J.JStr(J.JsString(if J.TruthyOpt(n) then n.value else Prop(payload, "text").value))
    else J.JStr("")
  }

  /** The text React renders for a value placed as a child: strings as they are, numbers
      in decimal, nothing for booleans and `null`, the children of an array one after the
      other with no separator. An object cannot be a child, and rendering it throws (`None`). */
  function Rendered(v: J.Json): (r: Option<string>)
    ensures v.JStr? ==> r == Some(v.s)
    ensures v.JNum? ==> r == Some(Text.IntToString(v.n))
    ensures v.JBool? || v.JNull? ==> r == Some("")
    ensures v.JObj? ==> r.None?
    decreases v, 1
  {
    match v
    case JNull => Some("")
    case JBool(_) => Some("")
    case JNum(n) => Some(Text.IntToString(n))
    case JStr(s) => Some(s)
    case JArr(_) => RenderedFrom(v, 0)
    case JObj(_) => None
  }

  /** The children of the array `v` from index `i` on, rendered and concatenated; any child
      that throws makes the whole throw. */
  function RenderedFrom(v: J.Json, i: nat): (r: Option<string>)
    requires v.JArr? && i <= |v.items|
    ensures i == |v.items| ==> r == Some("")
    ensures i < |v.items| ==> (r.Some? <==> Rendered(v.items[i]).Some? && RenderedFrom(v, i + 1).Some?)
    ensures r.Some? && i < |v.items| ==> r.value == Rendered(v.items[i]).value + RenderedFrom(v, i + 1).value
    decreases v, 0, |v.items| - i
  {
    if i == |v.items| then Some("")
    else
      match Rendered(v.items[i])
      case None => None
      case Some(h) =>
        match RenderedFrom(v, i + 1)
        case None => None
        case Some(t) => Some(h + t)
  }

  /** The title line of an event card: `{eventTitle(e) && <b>{eventTitle(e)}</b>}`. A falsy title
      shows no line (`Some("")`); a truthy one shows its rendering, and `None` means the page throws. */
  function TitleShown(e: J.Json): (r: Option<string>)
    ensures !J.Truthy(EventTitle(e)) ==> r == Some("")
    ensures J.Truthy(EventTitle(e)) ==> r == Rendered(EventTitle(e))
  {
    var t := EventTitle(e);
    if J.Truthy(t) then Rendered(t) else Some("")
  }

  /** A string title is shown as it is, so request and note cards show the text of their title. */
  lemma StringTitleShown(e: J.Json)
    requires EventTitle(e).JStr?
    ensures TitleShown(e) == Some(EventTitle(e).s)
  {
  }

  /** A command is shown as React renders it, not as `String(command)` would read: `true` shows
      nothing, a list of strings shows them run together, and an object makes the page throw. */
  lemma CommandTitleShown(e: J.Json, a: string, b: string)
    requires IsType(e, "command")
    ensures Prop(J.Get(e, "payload"), "command") == Some(J.JBool(true)) ==> TitleShown(e) == Some("")
    ensures Prop(J.Get(e, "payload"), "command") == Some(J.JArr([J.JStr(a), J.JStr(b)])) ==> TitleShown(e) == Some(a + b)
    ensures Prop(J.Get(e, "payload"), "command").Some? && Prop(J.Get(e, "payload"), "command").value.JObj? ==> TitleShown(e).None?
  {
    var c := Prop(J.Get(e, "payload"), "command");
    if c == Some(J.JArr([J.JStr(a), J.JStr(b)])) {
      var v := c.value;
      assert |v.items| == 2 && v.items[0] == J.JStr(a) && v.items[1] == J.JStr(b);
      assert RenderedFrom(v, 2) == Some("");
      assert b + "" == b;
      assert RenderedFrom(v, 1) == Some(b);
      assert Rendered(v) == RenderedFrom(v, 0) == Some(a + b);
    }
  }

  /** The events of a session record: its `events` array, or none. */
  function EventsOf(session: J.Json): (r: seq<J.Json>)
    ensures J.Get(session, "events").Some? && J.Get(session, "events").value.JArr? ==> r == J.Get(session, "events").value.items
    ensures !J.TruthyOpt(J.Get(session, "events")) ==> r == []
  {
    var ev := J.Get(session, "events");
    if ev.Some? && ev.value.JArr? then ev.value.items else []
  }

  /** The sort key: the timestamp's time when the event has a truthy timestamp, otherwise 0.
      `millis` stands for `new Date(ts).getTime()`. */
  function EventKey(millis: J.Json -> int, e: J.Json): (k: int)
    ensures !J.TruthyOpt(J.Get(e, "timestamp")) ==> k == 0
    ensures J.TruthyOpt(J.Get(e, "timestamp")) ==> k == millis(J.Get(e, "timestamp").value)
  {
    var ts := J.Get(e, "timestamp");
    if J.TruthyOpt(ts) then millis(ts.value) else 0
  }

  /** Newest first: keys never increase along the list. */
  predicate Sorted(key: J.Json -> int, s: seq<J.Json>) {
    forall i, j :: 0 <= i < j < |s| ==> key(s[i]) >= key(s[j])
  }

  /** Places `x` before the first element whose key is not greater, so among equal keys
      an element inserted later ends up first. */
  function Insert(key: J.Json -> int, x: J.Json, s: seq<J.Json>): (r: seq<J.Json>)
    ensures |r| == |s| + 1
  {
    if |s| == 0 then [x]
    else if key(s[0]) <= key(x) then [x] + s
    else [s[0]] + Insert(key, x, s[1..])
  }

  /** A stable sort, newest first (`slice().sort((a, b) => tb - ta)`): the result holds
      the same events, each as often, with keys never increasing. */
  function SortEvents(key: J.Json -> int, es: seq<J.Json>): (r: seq<J.Json>)
    ensures |r| == |es|
    ensures multiset(r) == multiset(es)
    ensures Sorted(key, r)
  {
    if |es| == 0 then []
    else
      var rest := SortEvents(key, es[1..]);
      InsertPerm(key, es[0], rest);
      InsertSorted(key, es[0], rest);
      assert es == [es[0]] + es[1..];
      Insert(key, es[0], rest)
  }

  lemma {:induction false} InsertPerm(key: J.Json -> int, x: J.Json, s: seq<J.Json>)
    ensures multiset(Insert(key, x, s)) == multiset(s) + multiset{x}
  {
    if |s| > 0 && key(s[0]) > key(x) {
      InsertPerm(key, x, s[1..]);
      assert s == [s[0]] + s[1..];
    }
  }

  lemma {:induction false} InsertSorted(key: J.Json -> int, x: J.Json, s: seq<J.Json>)
    requires Sorted(key, s)
    ensures Sorted(key, Insert(key, x, s))
  {
    if |s| > 0 && key(s[0]) > key(x) {
      var tail := Insert(key, x, s[1..]);
      InsertSorted(key, x, s[1..]);
      InsertPerm(key, x, s[1..]);
      forall j | 0 <= j < |tail|
        ensures key(s[0]) >= key(tail[j])
      {
        assert tail[j] in multiset(tail);
        if tail[j] != x {
          assert tail[j] in multiset(s[1..]);
          var k :| 1 <= k < |s| && s[k] == tail[j];
        }
      }
    }
  }

  /** The type filter (`filter === "all" ? sorted : sorted.filter(e => e.event_type === filter)`):
      `all` keeps everything, and otherwise the result is drawn from the events. */
  function FilterEvents(filter: string, es: seq<J.Json>): (r: seq<J.Json>)
    ensures |r| <= |es|
    ensures filter == "all" ==> r == es
    ensures multiset(r) <= multiset(es)
  {
    if filter == "all" || |es| == 0 then es
    else
      var rest := FilterEvents(filter, es[1..]);
      assert es == [es[0]] + es[1..];
      if IsType(es[0], filter) then [es[0]] + rest else rest
  }

  /** Every event of the chosen type is kept as often as it occurs, and no other is kept. */
  lemma {:induction false} FilterCount(filter: string, es: seq<J.Json>, e: J.Json)
    ensures multiset(FilterEvents(filter, es))[e] == if filter == "all" || IsType(e, filter) then multiset(es)[e] else 0
  {
    if filter != "all" && |es| > 0 {
      var rest := FilterEvents(filter, es[1..]);
      FilterCount(filter, es[1..], e);
      assert es == [es[0]] + es[1..];
      assert multiset(es) == multiset{es[0]} + multiset(es[1..]);
      if IsType(es[0], filter) {
        assert multiset([es[0]] + rest) == multiset{es[0]} + multiset(rest);
      }
    }
  }

  /** An event is shown exactly when it is one of the events and has the chosen type. */
  lemma {:induction false} FilterMember(filter: string, es: seq<J.Json>, e: J.Json)
    ensures e in FilterEvents(filter, es) <==> e in es && (filter == "all" || IsType(e, filter))
  {
    if filter != "all" && |es| > 0 {
      FilterMember(filter, es[1..], e);
      assert es == [es[0]] + es[1..];
    }
  }

  /** Filtering keeps the order: it distributes over concatenation. */
  lemma {:induction false} FilterAppend(filter: string, a: seq<J.Json>, b: seq<J.Json>)
    ensures FilterEvents(filter, a + b) == FilterEvents(filter, a) + FilterEvents(filter, b)
  {
    if filter != "all" {
      if |a| == 0 {
        assert a + b == b;
      } else {
        assert (a + b)[1..] == a[1..] + b;
        FilterAppend(filter, a[1..], b);
      }
    }
  }

  /** Filtering a newest-first list leaves it newest first. */
  lemma {:induction false} FilterSorted(key: J.Json -> int, filter: string, es: seq<J.Json>)
    requires Sorted(key, es)
    ensures Sorted(key, FilterEvents(filter, es))
  {
    if filter != "all" && |es| > 0 {
      var rest := FilterEvents(filter, es[1..]);
      FilterSorted(key, filter, es[1..]);
      forall j | 0 <= j < |rest|
        ensures key(es[0]) >= key(rest[j])
      {
        assert rest[j] in rest;
        FilterMember(filter, es[1..], rest[j]);
        var k :| 0 <= k < |es[1..]| && es[1..][k] == rest[j];
        assert es[k + 1] == rest[j];
      }
    }
  }

  /** `r` holds each event of the chosen type as often as `events` does, and no other event. */
  ghost predicate ShowsEach(r: seq<J.Json>, events: seq<J.Json>, filter: string) {
    forall e :: multiset(r)[e] == if filter == "all" || IsType(e, filter) then multiset(events)[e] else 0
  }

  /** The list the page shows: the session's events, newest first, of the chosen type. */
  function Displayed(millis: J.Json -> int, session: J.Json, filter: string): (r: seq<J.Json>)
    ensures Sorted(e => EventKey(millis, e), r)
    ensures forall e :: e in r <==> e in EventsOf(session) && (filter == "all" || IsType(e, filter))
    ensures ShowsEach(r, EventsOf(session), filter)
  {
    var key := e => EventKey(millis, e);
    var sorted := SortEvents(key, EventsOf(session));
    FilterSorted(key, filter, sorted);
    forall e
      ensures multiset(FilterEvents(filter, sorted))[e]
              == if filter == "all" || IsType(e, filter) then multiset(EventsOf(session))[e] else 0
    {
      FilterCount(filter, sorted, e);
    }
    assert forall e :: e in sorted <==> e in EventsOf(session) by {
      forall e
        ensures e in sorted <==> e in EventsOf(session)
      {
        assert e in sorted <==> e in multiset(sorted);
        assert e in EventsOf(session) <==> e in multiset(EventsOf(session));
      }
    }
    forall e
      ensures e in FilterEvents(filter, sorted) <==> e in sorted && (filter == "all" || IsType(e, filter))
    {
      FilterMember(filter, sorted, e);
    }
    FilterEvents(filter, sorted)
  }

  /** The page state: the note being written, the loaded session, the filter, the report and the error line. */
  datatype View = View(note: string, session: J.Json, filter: string, reportResp: J.Json, err: string)

  function Open(): (v: View)
    ensures v.note == "" && v.session == J.JNull && v.filter == "all" && v.reportResp == J.JNull && v.err == ""
  {
    View("", J.JNull, "all", J.JNull, "")
  }

  function Ai(store: Store.State): AiClient.Client {
    AiClient.MakeAiClient(store.config.aiBaseUrl)
  }

  /** `refresh`: refused without a session; a failure drops the loaded session. */
  function Refresh(v: View, store: Store.State, outcome: Outcome): (r: Step<View>)
    ensures r.store == store
    ensures store.sessionId == "" ==> r.view == v.(err := MissingSession) && r.sent.None?
    ensures store.sessionId != "" ==> r.sent == Some(AiClient.RequestFor(Ai(store), AiClient.GetSession(store.sessionId)))
    ensures store.sessionId != "" && outcome.Success? ==> r.view == v.(session := outcome.value, err := "")
    ensures store.sessionId != "" && outcome.Failure? ==> r.view == v.(session := J.JNull, err := Http.Describe(outcome.error))
  {
    if store.sessionId == "" then Step(v.(err := MissingSession), store, None)
    else
      var sent := Some(AiClient.RequestFor(Ai(store), AiClient.GetSession(store.sessionId)));
      match outcome
      case Success(s) => Step(v.(session := s, err := ""), store, sent)
      case Failure(e) => Step(v.(session := J.JNull, err := Http.Describe(e)), store, sent)
  }

  /** The note event the page records. */
  function NoteEvent(text: string): (e: J.Json)
    ensures IsType(e, "note")
    ensures Prop(J.Get(e, "payload"), "note") == Some(J.JStr(text))
    ensures Prop(J.Get(e, "payload"), "source") == Some(J.JStr("webui"))
  {
    var payload := [Some(J.JStr(text)), Some(J.JStr("webui"))];
    assert J.Distinct(["note", "source"]);
    J.MembersLookup(["note", "source"], payload, 0);
    J.MembersLookup(["note", "source"], payload, 1);
    var values := [Some(J.JStr("note")), Some(J.JObj(J.Members(["note", "source"], payload)))];
    assert J.Distinct(["event_type", "payload"]);
    J.MembersLookup(["event_type", "payload"], values, 0);
    J.MembersLookup(["event_type", "payload"], values, 1);
    J.JObj(J.Members(["event_type", "payload"], values))
  }

  /** The body of the note request: one note event. */
  function NoteEvents(text: string): (b: J.Json)
    ensures J.Get(b, "events") == Some(J.JArr([NoteEvent(text)]))
  {
    J.JObj([("events", J.JArr([NoteEvent(text)]))])
  }

  /** The message calling a missing client method shows. */
  const MissingIngest: string := "ai.ingestEvents" + " is not a function"

  /** `addNote` as written: it calls `ai.ingestEvents`, which the client does not have,
      so a note is never sent and the call's `TypeError` is shown. */
  function AddNoteAsWritten(v: View, store: Store.State): (r: Step<View>)
    ensures r.store == store && r.sent.None?
    ensures store.sessionId == "" ==> r.view == v.(err := MissingSession)
    ensures store.sessionId != "" && Text.Trim(v.note) == "" ==> r.view == v
    ensures store.sessionId != "" && Text.Trim(v.note) != "" ==> r.view == v.(err := MissingIngest)
  {
    if store.sessionId == "" then Step(v.(err := MissingSession), store, None)
    else if Text.Trim(v.note) == "" then Step(v, store, None)
    else Step(v.(err := Http.Describe(NotAFunction("ai.ingestEvents"))), store, None)
  }

  /** `addNote` with the client's `ingestEvents` as an abstract operation: `ingest(id, body)` is
      the request it sends for the session and the events. A blank note sends nothing;
      success shows the updated session and clears the note. */
  function AddNoteVia(v: View, store: Store.State, ingest: (string, J.Json) -> Http.Request, outcome: Outcome): (r: Step<View>)
    ensures r.store == store
    ensures store.sessionId == "" ==> r.view == v.(err := MissingSession) && r.sent.None?
    ensures store.sessionId != "" && Text.Trim(v.note) == "" ==> r.view == v && r.sent.None?
    ensures store.sessionId != "" && Text.Trim(v.note) != "" ==>
              r.sent == Some(ingest(store.sessionId, NoteEvents(Text.Trim(v.note))))
    ensures store.sessionId != "" && Text.Trim(v.note) != "" && outcome.Success? ==>
              r.view == v.(session := outcome.value, note := "", err := "")
    ensures store.sessionId != "" && Text.Trim(v.note) != "" && outcome.Failure? ==>
              r.view == v.(err := Http.Describe(outcome.error))
  {
    if store.sessionId == "" then Step(v.(err := MissingSession), store, None)
    else if Text.Trim(v.note) == "" then Step(v, store, None)
    else
      var sent := Some(ingest(store.sessionId, NoteEvents(Text.Trim(v.note))));
      match outcome
      case Success(updated) => Step(v.(session := updated, note := "", err := ""), store, sent)
      case Failure(e) => Step(v.(err := Http.Describe(e)), store, sent)
  }

  /** The client's `addEvents` request for a session: `POST /v1/sessions/<id>/events`. */
  function AddEventsRequest(store: Store.State): (string, J.Json) -> Http.Request {
    (id: string, body: J.Json) => AiClient.RequestFor(Ai(store), AiClient.AddEvents(id, body))
  }

  /** `addNote` as its button promises (`POST /events`): the events go through the client's
      `addEvents`, so the trimmed note is posted to the session's events. */
  function AddNote(v: View, store: Store.State, outcome: Outcome): (r: Step<View>)
    ensures r.store == store
    ensures store.sessionId == "" ==> r.view == v.(err := MissingSession) && r.sent.None?
    ensures store.sessionId != "" && Text.Trim(v.note) == "" ==> r.view == v && r.sent.None?
    ensures store.sessionId != "" && Text.Trim(v.note) != "" ==>
              r.sent == Some(AiClient.RequestFor(Ai(store), AiClient.AddEvents(store.sessionId, NoteEvents(Text.Trim(v.note)))))
    ensures store.sessionId != "" && Text.Trim(v.note) != "" && outcome.Success? ==>
              r.view == v.(session := outcome.value, note := "", err := "")
    ensures store.sessionId != "" && Text.Trim(v.note) != "" && outcome.Failure? ==>
              r.view == v.(err := Http.Describe(outcome.error))
  {
    AddNoteVia(v, store, AddEventsRequest(store), outcome)
  }

  /** The report body: only the focus. */
  function ReportBody(): (b: J.Json)
    ensures J.Get(b, "rag_focus") == Some(J.JStr("report"))
    ensures b == J.JObj([("rag_focus", J.JStr("report"))])
  {
    J.JObj([("rag_focus", J.JStr("report"))])
  }

  /** `fetchReportTemplate`: a `report`-focused suggestion for the session. */
  function FetchReportTemplate(v: View, store: Store.State, outcome: Outcome): (r: Step<View>)
    ensures r.store == store
    ensures store.sessionId == "" ==> r.view == v.(err := MissingSession) && r.sent.None?
    ensures store.sessionId != "" ==> r.sent == Some(AiClient.RequestFor(Ai(store), AiClient.Suggest(store.sessionId, ReportBody())))
    ensures store.sessionId != "" && outcome.Success? ==> r.view == v.(reportResp := outcome.value, err := "")
    ensures store.sessionId != "" && outcome.Failure? ==> r.view == v.(reportResp := J.JNull, err := Http.Describe(outcome.error))
  {
    if store.sessionId == "" then Step(v.(err := MissingSession), store, None)
    else
      var sent := Some(AiClient.RequestFor(Ai(store), AiClient.Suggest(store.sessionId, ReportBody())));
      match outcome
      case Success(rr) => Step(v.(reportResp := rr, err := ""), store, sent)
      case Failure(e) => Step(v.(reportResp := J.JNull, err := Http.Describe(e)), store, sent)
  }

  /** A recorded note is titled by its text. */
  lemma NoteTitle(text: string)
    requires text != ""
    ensures EventTitle(NoteEvent(text)) == J.JStr(text)
    ensures TitleShown(NoteEvent(text)) == Some(text)
  {
    var e := NoteEvent(text);
    assert !IsType(e, "command") && !IsType(e, "http");
  }

  /** With a session and a non-blank note, the page as written never posts the note,
      while the corrected page posts it to the session's `events` collection. */
  lemma AddNoteDiscrepancy(v: View, store: Store.State, outcome: Outcome)
    requires store.sessionId != "" && Text.Trim(v.note) != ""
    ensures AddNoteAsWritten(v, store).sent.None?
    ensures AddNoteAsWritten(v, store).view.err == MissingIngest
    ensures var sent := AddNote(v, store, outcome).sent.value;
            && sent.verb == Http.Post
            && Text.Split(sent.url, '/') == Text.Split(Ai(store).baseUrl, '/') + ["v1", "sessions", AiClient.Uri.EncodeComponent(store.sessionId), "events"]
  {
    AiClient.SessionUrlSegments(Ai(store), store.sessionId, NoteEvents(Text.Trim(v.note)));
  }

  /** The note the corrected page posts is the typed note, trimmed, and is titled by it once loaded. */
  lemma AddNoteSendsNote(v: View, store: Store.State, outcome: Outcome)
    requires store.sessionId != "" && Text.Trim(v.note) != ""
    ensures var body := AddNote(v, store, outcome).sent.value.body.value;
            && J.Get(body, "events") == Some(J.JArr([NoteEvent(Text.Trim(v.note))]))
            && EventTitle(J.Get(body, "events").value.items[0]) == J.JStr(Text.Trim(v.note))
  {
    NoteTitle(Text.Trim(v.note));
  }
}
