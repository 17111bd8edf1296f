/**
 * The SQL query page: the editor text, the last results or error, the
 * loading flag, the timeout option and the copy of the query kept in the
 * browser's `localStorage`.
 *
 * React state is modelled as the fields of one object. Each handler is a
 * method; `handleRunQuery` is split at its `await` into `BeginRun` (before)
 * and `CompleteRun` (after), and `HandleRunQuery` runs both. The effects that
 * run after a commit are written out in the order React runs them. `Number`
 * (the string-to-number conversion) and the network are parameters.
 */
module QueryPage {
  import opened Options
  import opened Strings
  import opened Numbers
  import opened Pinot

  /** The `localStorage` key holding the editor text. */
  const QueryStorageKey: string := "pakora-query"

  datatype TimeoutUnit = Milliseconds | Seconds

  /**
   * The timeout sent with a run: none when the text is blank or `Number(text)`
   * is `NaN` or not above zero; otherwise that number, times 1000 for seconds.
   */
  function TimeoutFor(text: string, toNumber: string -> JsNumber, unit: TimeoutUnit): (t: Option<JsNumber>)
    ensures t.Some? <==> !IsBlank(text) && IsPositive(toNumber(text))
    ensures t.Some? ==> IsPositive(t.value)
    ensures t.Some? && unit == Milliseconds ==> t.value == toNumber(text)
    ensures t.Some? && unit == Seconds ==> t.value == Scale(toNumber(text), 1000.0)
  {
    TrimEmptyIffBlank(text);
    if |Trim(text)| > 0 then
      var parsed := toNumber(text);
      if !parsed.NaN? && IsPositive(parsed) then
        Some(if unit == Seconds then Scale(parsed, 1000.0) else parsed)
      else None
    else None
  }

  /**
   * The timeout reaches the request exactly when the text is not blank and
   * converts to a finite positive number; it is then sent floored, after the
   * conversion from seconds. An infinite timeout passes the page's check but
   * is dropped by the request builder.
   */
  lemma TimeoutReachesRequest(sql: string, text: string, toNumber: string -> JsNumber, unit: TimeoutUnit)
    ensures var r := QueryRequestFor(sql, TimeoutFor(text, toNumber, unit));
      && (r.queryOptions.Some? <==> !IsBlank(text) && toNumber(text).Finite? && toNumber(text).value > 0.0)
      && (r.queryOptions.Some? ==>
            var sent := ParseInt(Records.Get(r.queryOptions.value, "timeoutMs").value);
            sent == (if unit == Seconds then toNumber(text).value * 1000.0 else toNumber(text).value).Floor)
  {
  }

  /** The timeout field "Infinity" (or any text converting to +Infinity) sends no timeout. */
  lemma InfiniteTimeoutDropped(sql: string, text: string, toNumber: string -> JsNumber, unit: TimeoutUnit)
    requires !IsBlank(text) && toNumber(text) == Infinity
    ensures TimeoutFor(text, toNumber, unit) == Some(Infinity)
    ensures QueryRequestFor(sql, TimeoutFor(text, toNumber, unit)).queryOptions.None?
  {
  }

  /** The run button is enabled: not loading and the query has a non-blank character. */
  predicate RunButtonEnabled(loading: bool, query: string) {
    !(loading || |Trim(query)| == 0)
  }

  /** Cmd+Enter or Ctrl+Enter runs the query when not loading and the query is not blank. */
  predicate ShortcutFires(key: string, metaKey: bool, ctrlKey: bool, loading: bool, query: string) {
    key == "Enter" && (metaKey || ctrlKey) && !loading && |Trim(query)| > 0
  }

  /** The shortcut fires exactly when the button could be clicked. */
  lemma ShortcutMatchesButton(key: string, metaKey: bool, ctrlKey: bool, loading: bool, query: string)
    ensures RunButtonEnabled(loading, query) <==> !loading && !IsBlank(query)
    ensures ShortcutFires(key, metaKey, ctrlKey, loading, query) <==>
      key == "Enter" && (metaKey || ctrlKey) && !loading && !IsBlank(query)
  {
    TrimEmptyIffBlank(query);
  }

  /** How a settled `executePinotQuery` call reaches the page. */
  datatype Settled = Fulfilled(wrapper: ResponseWrapper<QueryResponse>) | Rejected(reason: Thrown)

  /**
   * The error the page's own `catch` builds: a fresh error with no status and
   * no exceptions, whose message is `Failed to execute query: ` followed by
   * the thrown error's own message (a `PinotQueryError` is an `Error` too), or
   * by "Unknown error" for anything else.
   */
  function RunFailure(t: Thrown): (e: PinotQueryError)
    ensures e.statusCode.None? && e.exceptions.None?
    ensures var prefix := "Failed to execute query: ";
      |prefix| <= |e.message| && e.message[..|prefix|] == prefix
      && e.message[|prefix|..] == (match t
                                   case ThrownQueryError(q) => q.message
                                   case ThrownError(m) => m
                                   case ThrownOther => "Unknown error")
  {
    FailureMessageDetail("query", match t
                                  case ThrownQueryError(q) => q.message
                                  case ThrownError(m) => m
                                  case ThrownOther => "Unknown error");
    match t
    case ThrownQueryError(q) => PinotQueryError(FailureMessage("query", q.message), None, None)
    case ThrownError(m) => PinotQueryError(FailureMessage("query", m), None, None)
    case ThrownOther => PinotQueryError(FailureMessage("query", "Unknown error"), None, None)
  }

  /** `localStorage.getItem(key)`, `null` being `None`. */
  function GetItem(storage: map<string, string>, key: string): Option<string> {
    if key in storage then Some(storage[key]) else None
  }

  /** The query a page load restores: the stored text when it is non-empty, else "". */
  function RestoredQuery(storage: map<string, string>): string {
    if QueryStorageKey in storage && storage[QueryStorageKey] != "" then storage[QueryStorageKey] else ""
  }

  /**
   * Whatever text was saved last is what a reload restores: a saved empty
   * text restores "" as well, so saving "" loses the query stored before.
   */
  lemma SaveThenRestore(storage: map<string, string>, q: string, key: string, v: string)
    requires key != QueryStorageKey
    ensures RestoredQuery(storage[QueryStorageKey := q]) == q
    ensures RestoredQuery(storage[key := v]) == RestoredQuery(storage)
  {
  }

  class QueryConsole {
    var query: string
    var results: Option<QueryResponse>
    var error: Option<PinotQueryError>
    var loading: bool
    var initialMount: bool
    var timeoutValue: string
    var timeoutUnit: TimeoutUnit
    /** The browser's `localStorage`. */
    var storage: map<string, string>
    /** Every value passed to `localStorage.setItem` for the query key, in order. */
    var setItemLog: seq<string>

    /** While a run is in flight nothing is shown; results and error are never shown together. */
    ghost predicate Valid()
      reads this
    {
      (loading ==> results.None? && error.None?) && (results.None? || error.None?)
    }

    /** Reloading the page would restore the current editor text. */
    ghost predicate Persisted()
      reads this
    {
      RestoredQuery(storage) == query
    }

    /** The first render, over the browser's current `localStorage`. */
    constructor (savedStorage: map<string, string>)
      ensures query == "" && results.None? && error.None? && !loading && initialMount
      ensures timeoutValue == "" && timeoutUnit == Milliseconds
      ensures storage == savedStorage && setItemLog == []
      ensures Valid()
    {
      query := "";
      results := None;
      error := None;
      loading := false;
      initialMount := true;
      timeoutValue := "";
      timeoutUnit := Milliseconds;
      storage := savedStorage;
      setItemLog := [];
    }

    /** `localStorage.setItem(QUERY_STORAGE_KEY, value)`. */
    method SaveQuery(value: string)
      modifies this
      ensures storage == old(storage)[QueryStorageKey := value]
      ensures setItemLog == old(setItemLog) + [value]
      ensures query == old(query) && results == old(results) && error == old(error)
      ensures loading == old(loading) && initialMount == old(initialMount)
      ensures timeoutValue == old(timeoutValue) && timeoutUnit == old(timeoutUnit)
    {
      storage := storage[QueryStorageKey := value];
      setItemLog := setItemLog + [value];
    }

    /**
     * The mount as written: after the first commit the load effect restores
     * the saved query and clears the initial-mount flag, and the save effect,
     * which runs next in the same commit with the first render's empty query,
     * already sees the flag cleared and stores "". A restored query then
     * re-renders and is stored again.
     */
    method MountAsWritten()
      requires initialMount && query == ""
      modifies this
      ensures query == RestoredQuery(old(storage)) && !initialMount
      ensures storage == old(storage)[QueryStorageKey := query]
      ensures setItemLog == old(setItemLog) + [""] + (if query != "" then [query] else [])
      ensures Persisted()
      ensures results == old(results) && error == old(error) && loading == old(loading)
      ensures timeoutValue == old(timeoutValue) && timeoutUnit == old(timeoutUnit)
    {
      var rendered := query;
      // load effect
      var saved := GetItem(storage, QueryStorageKey);
      var next := query;
      if Truthy(saved) {
        next := saved.value;
      }
      initialMount := false;
      // save effect of the same commit
      if !initialMount {
        SaveQuery(rendered);
      }
      // the re-render caused by the load effect, and its save effect
      if next != query {
        query := next;
        SaveQuery(query);
      }
    }

    /**
     * The mount as the save effect's comment intends: the save effect skips
     * the first commit (it consumes the initial-mount flag itself), so the
     * stored query is never replaced by the empty first render.
     */
    method Mount()
      requires initialMount && query == ""
      modifies this
      ensures query == RestoredQuery(old(storage)) && !initialMount
      ensures storage == old(storage)
      ensures setItemLog == old(setItemLog) + (if query != "" then [query] else [])
      ensures Persisted()
      ensures results == old(results) && error == old(error) && loading == old(loading)
      ensures timeoutValue == old(timeoutValue) && timeoutUnit == old(timeoutUnit)
    {
      // load effect
      var saved := GetItem(storage, QueryStorageKey);
      var next := query;
      if Truthy(saved) {
        next := saved.value;
      }
      // save effect of the same commit: the flag is still set, so it is
      // cleared instead of saving
      initialMount := false;
      // the re-render caused by the load effect, and its save effect
      if next != query {
        query := next;
        SaveQuery(query);
      }
    }

    /** The editor's `onChange`: a new text re-renders, and after mount it is saved. */
    method SetQuery(q: string)
      modifies this
      ensures query == q
      ensures storage == if q != old(query) && !initialMount then old(storage)[QueryStorageKey := q] else old(storage)
      ensures setItemLog == if q != old(query) && !initialMount then old(setItemLog) + [q] else old(setItemLog)
      ensures old(!initialMount && Persisted()) ==> Persisted()
      ensures results == old(results) && error == old(error) && loading == old(loading)
      ensures initialMount == old(initialMount)
      ensures timeoutValue == old(timeoutValue) && timeoutUnit == old(timeoutUnit)
    {
      if q != query {
        query := q;
        if !initialMount {
          SaveQuery(q);
        }
      }
    }

    /** The timeout field's `onChange`. */
    method SetTimeoutValue(v: string)
      modifies this
      ensures timeoutValue == v
      ensures query == old(query) && results == old(results) && error == old(error) && loading == old(loading)
      ensures storage == old(storage) && initialMount == old(initialMount) && timeoutUnit == old(timeoutUnit)
      ensures setItemLog == old(setItemLog)
    {
      timeoutValue := v;
    }

    /** The unit selector's `onValueChange`. */
    method SetTimeoutUnit(u: TimeoutUnit)
      modifies this
      ensures timeoutUnit == u
      ensures query == old(query) && results == old(results) && error == old(error) && loading == old(loading)
      ensures storage == old(storage) && initialMount == old(initialMount) && timeoutValue == old(timeoutValue)
      ensures setItemLog == old(setItemLog)
    {
      timeoutUnit := u;
    }

    /** The timeout derived from the option fields when a run starts. */
    method DeriveTimeout(toNumber: string -> JsNumber) returns (timeoutMs: Option<JsNumber>)
      ensures timeoutMs == TimeoutFor(timeoutValue, toNumber, timeoutUnit)
    {
      timeoutMs := None;
      if |Trim(timeoutValue)| > 0 {
        var parsed := toNumber(timeoutValue);
        if !parsed.NaN? && IsPositive(parsed) {
          timeoutMs := Some(if timeoutUnit == Seconds then Scale(parsed, 1000.0) else parsed);
        }
      }
    }

    /** `handleRunQuery` up to its `await`: a blank query does nothing; otherwise the old outcome is cleared. */
    method BeginRun() returns (started: bool)
      requires Valid()
      modifies this
      ensures started <==> !IsBlank(old(query))
      ensures started ==> loading && results.None? && error.None?
      ensures !started ==> loading == old(loading) && results == old(results) && error == old(error)
      ensures query == old(query) && storage == old(storage) && setItemLog == old(setItemLog)
      ensures initialMount == old(initialMount)
      ensures timeoutValue == old(timeoutValue) && timeoutUnit == old(timeoutUnit)
      ensures Valid()
    {
      started := |Trim(query)| > 0;
      TrimEmptyIffBlank(query);
      if started {
        loading := true;
        error := None;
        results := None;
      }
    }

    /** `handleRunQuery` after its `await`: show what came back, then stop loading. */
    method CompleteRun(settled: Settled)
      modifies this
      ensures settled.Fulfilled? ==>
        && error == (if settled.wrapper.error.Some? then settled.wrapper.error else old(error))
        && results == (if settled.wrapper.response.Some? then settled.wrapper.response else old(results))
      ensures settled.Rejected? ==> error == Some(RunFailure(settled.reason)) && results == old(results)
      ensures !loading
      ensures query == old(query) && storage == old(storage) && setItemLog == old(setItemLog)
      ensures initialMount == old(initialMount)
      ensures timeoutValue == old(timeoutValue) && timeoutUnit == old(timeoutUnit)
    {
      match settled {
        case Fulfilled(w) =>
          if w.error.Some? {
            error := w.error;
          }
          if w.response.Some? {
            results := w.response;
          }
        case Rejected(t) =>
          error := Some(RunFailure(t));
      }
      loading := false;
    }

    /**
     * `handleRunQuery`: for a non-blank query, the page ends up showing
     * exactly the wrapper `executePinotQuery` returns for the query and the
     * derived timeout, and is no longer loading. `executePinotQuery` never
     * rejects, so the page's own `catch` is not reached.
     */
    method HandleRunQuery(toNumber: string -> JsNumber, server: FetchCall -> HttpOutcome<QueryResponse>)
      requires Valid()
      modifies this
      ensures IsBlank(old(query)) ==>
        loading == old(loading) && results == old(results) && error == old(error)
      ensures !IsBlank(old(query)) ==>
        var w := ClassifyQueryOutcome(server(SqlCall(QueryRequestFor(old(query), TimeoutFor(old(timeoutValue), toNumber, old(timeoutUnit))))));
        results == w.response && error == w.error && !loading
      ensures query == old(query) && storage == old(storage) && setItemLog == old(setItemLog)
      ensures initialMount == old(initialMount)
      ensures timeoutValue == old(timeoutValue) && timeoutUnit == old(timeoutUnit)
      ensures Valid()
    {
      var started := BeginRun();
      if started {
        var timeoutMs := DeriveTimeout(toNumber);
        var w := ExecutePinotQuery(query, timeoutMs, server);
        CompleteRun(Fulfilled(w));
      }
    }

    /** The window `keydown` listener. */
    method HandleKeyDown(
      key: string, metaKey: bool, ctrlKey: bool,
      toNumber: string -> JsNumber, server: FetchCall -> HttpOutcome<QueryResponse>)
      returns (defaultPrevented: bool)
      requires Valid()
      modifies this
      ensures defaultPrevented <==> ShortcutFires(key, metaKey, ctrlKey, old(loading), old(query))
      ensures !defaultPrevented ==>
        loading == old(loading) && results == old(results) && error == old(error)
      ensures defaultPrevented ==>
        var w := ClassifyQueryOutcome(server(SqlCall(QueryRequestFor(old(query), TimeoutFor(old(timeoutValue), toNumber, old(timeoutUnit))))));
        results == w.response && error == w.error && !loading
      ensures query == old(query) && storage == old(storage) && setItemLog == old(setItemLog)
      ensures initialMount == old(initialMount)
      ensures timeoutValue == old(timeoutValue) && timeoutUnit == old(timeoutUnit)
      ensures Valid()
    {
      defaultPrevented := false;
      if key == "Enter" && (metaKey || ctrlKey) && !loading && |Trim(query)| > 0 {
        defaultPrevented := true;
        TrimEmptyIffBlank(query);
        HandleRunQuery(toNumber, server);
      }
    }
  }

  /** With nothing saved, the mount as written creates the key holding "". */
  method MountAsWrittenCreatesEmptyEntry() returns (stored: Option<string>)
    ensures stored == Some("")
  {
    var page := new QueryConsole(map[]);
    page.MountAsWritten();
    stored := GetItem(page.storage, QueryStorageKey);
  }

  /** With a saved query, the mount as written first overwrites it with "" and then writes it back. */
  method MountAsWrittenOverwritesSavedQuery() returns (log: seq<string>)
    ensures log == ["", "SELECT 1"]
  {
    var page := new QueryConsole(map[QueryStorageKey := "SELECT 1"]);
    page.MountAsWritten();
    log := page.setItemLog;
  }

  /** With nothing saved, the intended mount leaves the storage without the key. */
  method MountLeavesStorageAlone() returns (stored: Option<string>)
    ensures stored == None
  {
    var page := new QueryConsole(map[]);
    page.Mount();
    stored := GetItem(page.storage, QueryStorageKey);
  }
}
