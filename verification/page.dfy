/** What the five pages share: the missing-session message, the shape of an
    action's effect, and the `TypeError` a property read on `null` throws. */
module Page {
  import opened Wrappers
  import J = Json
  import Http
  import Store

  /** The error every session-scoped action shows when no session is selected. */
  const MissingSession: string := "Missing SESSION_ID. Go to Session page → Create/Load session first."

  /** How an awaited gateway call settled: its value, or what it threw. */
  type Outcome = Result<J.Json, Http.Failure>

  /** The effect of one page action: the page's own state, the store, and the request it sent, if any. */
  datatype Step<V> = Step(view: V, store: Store.State, sent: Option<Http.Request>)

  /** What reading `prop` of `null` throws. */
  function NullRead(prop: string): (f: Http.Failure)
    ensures f.Thrown? && f.name == "TypeError"
    ensures Http.Describe(f) == "Cannot read properties of null (reading '" + prop + "')"
  {
    Http.Thrown("TypeError", "Cannot read properties of null (reading '" + prop + "')")
  }

  /** What calling a property that is not a function throws. */
  function NotAFunction(callee: string): (f: Http.Failure)
    ensures f.Thrown? && f.name == "TypeError"
    ensures Http.Describe(f) == callee + " is not a function"
  {
    Http.Thrown("TypeError", callee + " is not a function")
  }
}
