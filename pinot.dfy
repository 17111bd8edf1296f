/**
 * The client side of the two Pinot broker calls: the SQL endpoint and the
 * time-series (range query) endpoint. Each builds a request, hands it to the
 * network and turns whatever comes back into a wrapper holding either the
 * response or a `PinotQueryError`; neither call rejects.
 *
 * The network is a parameter: a function from the request to the outcome of
 * `fetch` (a rejection, or a status line with a body that `response.json()`
 * reads as a syntax error, as `null`, or as an object).
 */
module Pinot {
  import opened Options
  import opened Strings
  import opened Records
  import opened Numbers
  import ResultTable

  // ---------------------------------------------------------------------
  // Data model

  /** One entry of a broker response's `exceptions` array. */
  datatype PinotException = PinotException(errorCode: Option<int>, message: Option<string>)

  /**
   * The fields of a SQL endpoint body that the client reads: `exceptions`
   * (absent or `null` is `None`), `message` (read from error bodies) and the
   * result table shown by the page.
   */
  datatype QueryResponse = QueryResponse(
    exceptions: Option<seq<PinotException>>,
    message: Option<string>,
    resultTable: Option<ResultTable.ResultTable>)

  /** `PinotQueryError`: an `Error` with an optional HTTP status and broker exceptions. */
  datatype PinotQueryError = PinotQueryError(
    message: string,
    statusCode: Option<int>,
    exceptions: Option<seq<PinotException>>)

  /** `{ response, error }`, `null` being `None`. */
  datatype ResponseWrapper<T> = ResponseWrapper(response: Option<T>, error: Option<PinotQueryError>)

  function Succeeded<T>(data: T): ResponseWrapper<T> {
    ResponseWrapper(Some(data), None)
  }

  function Failed<T>(e: PinotQueryError): ResponseWrapper<T> {
    ResponseWrapper(None, Some(e))
  }

  /** The JSON request body: `sql` and, when set, `queryOptions`. */
  datatype QueryRequest = QueryRequest(sql: string, queryOptions: Option<Record<string>>)

  /** The broker endpoints the client calls. */
  const SqlUrl: string := "http://127.0.0.1:9000/sql"
  const TimeSeriesUrl: string := "http://127.0.0.1:9000/timeseries/api/v1/query_range"

  /** Both calls send this single header. */
  const JsonHeaders: Record<string> := [("Content-Type", "application/json")]

  /** The arguments of one `fetch` call: the URL split into base and query parameters, and the init. */
  datatype FetchCall = FetchCall(
    url: string,
    searchParams: Record<string>,
    httpMethod: string,
    headers: Record<string>,
    body: Option<QueryRequest>)

  /** The SQL call: a POST of the request body. */
  function SqlCall(request: QueryRequest): FetchCall {
    FetchCall(SqlUrl, [], "POST", JsonHeaders, Some(request))
  }

  /** The time-series call: a GET with the parameters in the query string. */
  function TimeSeriesCall(params: Record<string>): FetchCall {
    FetchCall(TimeSeriesUrl, params, "GET", JsonHeaders, None)
  }

  /**
   * What `await response.json()` produces: a `SyntaxError` with its message,
   * the value `null`, or a parsed body. For `null`, `readError` is the message
   * of the `TypeError` the JavaScript engine throws when the client then reads
   * a field of it; its wording is the engine's (V8 says
   * `Cannot read properties of null (reading 'status')`).
   */
  datatype Body<T> = Malformed(syntaxError: string) | JsonNull(readError: string) | Parsed(value: T)

  /**
   * The outcome of `fetch`: a rejection (a `TypeError` or an `AbortError`,
   * both `Error`s, with their message) or a response.
   */
  datatype HttpOutcome<T> =
    | FetchRejected(message: string)
    | Responded(status: int, statusText: string, body: Body<T>)

  /** `response.ok`: the status is in the range 200 to 299 (Fetch Standard, "ok status"). */
  predicate Ok(status: int) {
    200 <= status <= 299
  }

  /** What a `catch` clause receives. */
  datatype Thrown =
    | ThrownQueryError(error: PinotQueryError)
    | ThrownError(message: string)
    | ThrownOther

  // ---------------------------------------------------------------------
  // Messages

  /** `Failed to execute <operation>: <detail>`. */
  function FailureMessage(operation: string, detail: string): string {
    "Failed to execute " + operation + ": " + detail
  }

  /** The prefix `Failed to execute <operation>: ` is followed by the detail itself. */
  lemma FailureMessageDetail(operation: string, detail: string)
    ensures var prefix := "Failed to execute " + operation + ": ";
      var m := FailureMessage(operation, detail);
      |prefix| <= |m| && m[..|prefix|] == prefix && m[|prefix|..] == detail
  {
  }

  /**
   * The error a `catch` turns a thrown value into, for the named operation:
   * a `PinotQueryError` passes through; any other value becomes an error with
   * no status and no exceptions whose message is the operation's prefix
   * followed by the thrown message (or "Unknown error").
   */
  function CatchFailure(operation: string, t: Thrown): (e: PinotQueryError)
    ensures t.ThrownQueryError? ==> e == t.error
    ensures !t.ThrownQueryError? ==> e.statusCode.None? && e.exceptions.None?
    ensures !t.ThrownQueryError? ==>
      var prefix := "Failed to execute " + operation + ": ";
      |prefix| <= |e.message| && e.message[..|prefix|] == prefix
      && e.message[|prefix|..] == (if t.ThrownError? then t.message else "Unknown error")
  {
    FailureMessageDetail(operation, if t.ThrownError? then t.message else "Unknown error");
    match t
    case ThrownQueryError(e) => e
    case ThrownError(m) => PinotQueryError(FailureMessage(operation, m), None, None)
    case ThrownOther => PinotQueryError(FailureMessage(operation, "Unknown error"), None, None)
  }

  /** The default message for a non-ok response: `HTTP <status>: <statusText>`. */
  function HttpStatusMessage(status: int, statusText: string): (m: string)
    ensures |m| > 5 && m[..5] == "HTTP "
  {
    "HTTP " + IntToDecimal(status) + ": " + statusText
  }

  /** The characters of a decimal integer are digits and possibly a leading '-'. */
  lemma IntToDecimalChars(i: int)
    ensures forall k :: 0 <= k < |IntToDecimal(i)| ==> IsDigit(IntToDecimal(i)[k]) || IntToDecimal(i)[k] == '-'
  {
    if i < 0 {
      var d := NatToDecimal(-i);
      assert forall k :: 1 <= k < |IntToDecimal(i)| ==> IntToDecimal(i)[k] == d[k - 1];
    }
  }

  /** The text before the first ": " of `head + ": " + tail` is `head` when `head` has no ':'. */
  lemma SplitHeadBeforeColon(head: string, tail: string)
    requires forall k :: 0 <= k < |head| ==> head[k] != ':'
    ensures Split(head + ": " + tail, ": ")[0] == head
  {
    var rest := ": " + tail;
    SplitNoSeparator(head, ": ", rest);
    assert rest[..2] == ": ";
    assert Split(rest, ": ")[0] == "";
    assert head + ": " + tail == head + rest;
  }

  /** `"HTTP "` followed by a decimal integer holds no ':'. */
  lemma StatusHeadHasNoColon(status: int)
    ensures var x := "HTTP " + IntToDecimal(status); forall k :: 0 <= k < |x| ==> x[k] != ':'
  {
    var digits := IntToDecimal(status);
    var x := "HTTP " + digits;
    IntToDecimalChars(status);
    forall k | 0 <= k < |x| ensures x[k] != ':' {
      if k >= 5 {
        assert x[k] == digits[k - 5];
      }
    }
  }

  /**
   * The status can be read back from the default message: the text before
   * the first ": " is "HTTP " followed by the status in decimal.
   */
  lemma HttpStatusMessageStatus(status: int, statusText: string)
    ensures var head := Split(HttpStatusMessage(status, statusText), ": ")[0];
      |head| >= 5 && head[..5] == "HTTP " && IsIntLiteral(head[5..]) && ParseInt(head[5..]) == status
  {
    var digits := IntToDecimal(status);
    var x := "HTTP " + digits;
    StatusHeadHasNoColon(status);
    SplitHeadBeforeColon(x, statusText);
    assert HttpStatusMessage(status, statusText) == x + ": " + statusText;
    assert x[5..] == digits;
    IntToDecimalRoundTrip(status);
  }

  /**
   * `ex.message || "Unknown error"` for every exception, in order: one
   * message per exception, never empty, and the exception's own message
   * whenever it has a non-empty one.
   */
  function ExceptionMessages(exs: seq<PinotException>): (ms: seq<string>)
    ensures |ms| == |exs|
    ensures forall i :: 0 <= i < |exs| ==> ms[i] != ""
    ensures forall i :: 0 <= i < |exs| && Truthy(exs[i].message) ==> ms[i] == exs[i].message.value
    ensures forall i :: 0 <= i < |exs| && !Truthy(exs[i].message) ==> ms[i] == "Unknown error"
  {
    seq(|exs|, i requires 0 <= i < |exs| => OrElse(exs[i].message, "Unknown error"))
  }

  /** The exception messages joined with "; ": never empty when there is an exception. */
  function ExceptionsText(exs: seq<PinotException>): (t: string)
    ensures |exs| >= 1 ==> t != ""
  {
    var ms := ExceptionMessages(exs);
    if |exs| >= 1 then
      JoinEndsWithLast(ms, "; ");
      Join(ms, "; ")
    else Join(ms, "; ")
  }

  /**
   * When no exception message contains ';', splitting the joined text at
   * "; " gives back one message per exception, in order.
   */
  lemma ExceptionsTextSplit(exs: seq<PinotException>)
    requires |exs| >= 1
    requires forall i, k :: 0 <= i < |exs| && exs[i].message.Some? && 0 <= k < |exs[i].message.value| ==>
      exs[i].message.value[k] != ';'
    ensures Split(ExceptionsText(exs), "; ") == ExceptionMessages(exs)
    ensures |Split(ExceptionsText(exs), "; ")| == |exs|
  {
    var ms := ExceptionMessages(exs);
    forall p, k | p in ms && 0 <= k < |p| ensures p[k] != "; "[0] {
      var i :| 0 <= i < |ms| && ms[i] == p;
      if !Truthy(exs[i].message) {
        assert p == "Unknown error";
      }
    }
    SplitJoin(ms, "; ");
  }

  // ---------------------------------------------------------------------
  // executePinotQuery

  /** `typeof t === "number" && Number.isFinite(t) && t > 0`. */
  predicate UsableTimeout(timeoutMs: Option<JsNumber>) {
    timeoutMs.Some? && timeoutMs.value.Finite? && timeoutMs.value.value > 0.0
  }

  /**
   * The request body: the SQL text, and a `timeoutMs` query option holding
   * the floored timeout exactly when the timeout is a finite positive number.
   */
  function QueryRequestFor(sql: string, timeoutMs: Option<JsNumber>): (r: QueryRequest)
    ensures r.sql == sql
    ensures r.queryOptions.Some? <==> UsableTimeout(timeoutMs)
    ensures r.queryOptions.Some? ==>
      && Keys(r.queryOptions.value) == ["timeoutMs"]
      && var t := Get(r.queryOptions.value, "timeoutMs");
      && t.Some? && IsIntLiteral(t.value)
      && ParseInt(t.value) == timeoutMs.value.value.Floor
      && ParseInt(t.value) >= 0
  {
    if UsableTimeout(timeoutMs) then
      var options := Set([], "timeoutMs", FlooredString(timeoutMs.value));
      QueryRequest(sql, Some(options))
    else
      QueryRequest(sql, None)
  }

  /** Builds the request body step by step, as the client does. */
  method BuildQueryRequest(sql: string, timeoutMs: Option<JsNumber>) returns (body: QueryRequest)
    ensures body == QueryRequestFor(sql, timeoutMs)
  {
    body := QueryRequest(sql, None);
    if timeoutMs.Some? && timeoutMs.value.Finite? && timeoutMs.value.value > 0.0 {
      var options := body.queryOptions.GetOr([]);
      body := body.(queryOptions := Some(Set(options, "timeoutMs", FlooredString(timeoutMs.value))));
    }
  }

  /** `data.exceptions && data.exceptions.length > 0`. */
  predicate HasExceptions(data: QueryResponse) {
    data.exceptions.Some? && |data.exceptions.value| > 0
  }

  /** The message of a non-ok SQL response: the body's `message` when truthy, else the status line. */
  function QueryHttpErrorMessage(status: int, statusText: string, body: Body<QueryResponse>): (m: string)
    ensures m != ""
    ensures body.Parsed? && Truthy(body.value.message) ==> m == body.value.message.value
    ensures !(body.Parsed? && Truthy(body.value.message)) ==> m == HttpStatusMessage(status, statusText)
  {
    if body.Parsed? && Truthy(body.value.message) then body.value.message.value
    else HttpStatusMessage(status, statusText)
  }

  /** How `executePinotQuery` turns the fetch outcome into its wrapper. */
  function ClassifyQueryOutcome(outcome: HttpOutcome<QueryResponse>): (w: ResponseWrapper<QueryResponse>)
    ensures w.response.Some? != w.error.Some?
    ensures w.response.Some? <==>
      outcome.Responded? && Ok(outcome.status) && outcome.body.Parsed? && !HasExceptions(outcome.body.value)
    ensures w.response.Some? ==> w.response.value == outcome.body.value
    ensures w.error.Some? ==>
      (w.error.value.statusCode.Some? <==> outcome.Responded? && !Ok(outcome.status))
    ensures w.error.Some? && w.error.value.statusCode.Some? ==>
      && w.error.value.statusCode.value == outcome.status
      && w.error.value.message == QueryHttpErrorMessage(outcome.status, outcome.statusText, outcome.body)
    ensures w.error.Some? ==>
      (w.error.value.exceptions.Some? <==>
       outcome.Responded? && Ok(outcome.status) && outcome.body.Parsed? && HasExceptions(outcome.body.value))
    ensures w.error.Some? && w.error.value.exceptions.Some? ==>
      && w.error.value.exceptions == outcome.body.value.exceptions
      && w.error.value.message == "Pinot query failed: " + ExceptionsText(outcome.body.value.exceptions.value)
    ensures outcome.FetchRejected? ==>
      w.error == Some(PinotQueryError(FailureMessage("Pinot query", outcome.message), None, None))
    ensures outcome.Responded? && Ok(outcome.status) && outcome.body.Malformed? ==>
      w.error == Some(PinotQueryError(FailureMessage("Pinot query", outcome.body.syntaxError), None, None))
    ensures outcome.Responded? && Ok(outcome.status) && outcome.body.JsonNull? ==>
      w.error == Some(PinotQueryError(FailureMessage("Pinot query", outcome.body.readError), None, None))
  {
    match outcome
    case FetchRejected(m) => Failed(CatchFailure("Pinot query", ThrownError(m)))
    case Responded(status, statusText, body) =>
      if !Ok(status) then
        Failed(PinotQueryError(QueryHttpErrorMessage(status, statusText, body), Some(status), None))
      else
        match body
        case Malformed(m) => Failed(CatchFailure("Pinot query", ThrownError(m)))
        case JsonNull(m) => Failed(CatchFailure("Pinot query", ThrownError(m)))
        case Parsed(data) =>
          if HasExceptions(data) then
            Failed(PinotQueryError("Pinot query failed: " + ExceptionsText(data.exceptions.value), None, data.exceptions))
          else
            Succeeded(data)
  }

  /** `executePinotQuery(sql, timeoutMs)` against the given network. */
  method ExecutePinotQuery(sql: string, timeoutMs: Option<JsNumber>, server: FetchCall -> HttpOutcome<QueryResponse>)
    returns (w: ResponseWrapper<QueryResponse>)
    ensures w == ClassifyQueryOutcome(server(SqlCall(QueryRequestFor(sql, timeoutMs))))
    ensures w.response.Some? != w.error.Some?
  {
    var request := BuildQueryRequest(sql, timeoutMs);
    var outcome := server(SqlCall(request));
    w := ClassifyQueryOutcome(outcome);
  }

  /** A fractional timeout below one millisecond is sent as "0". */
  lemma SubMillisecondTimeoutSentAsZero(sql: string)
    ensures QueryRequestFor(sql, Some(Finite(0.5))).queryOptions == Some([("timeoutMs", "0")])
  {
    assert (0.5).Floor == 0;
    assert NatToDecimal(0) == "0";
    assert FlooredString(Finite(0.5)) == "0";
    assert Set([], "timeoutMs", "0") == [("timeoutMs", "0")];
  }

  // ---------------------------------------------------------------------
  // executeTimeSeriesQuery

  /** One series: its label set and its `[timestamp, value]` samples. */
  datatype TimeSeriesResult = TimeSeriesResult(metric: Record<string>, values: seq<(real, string)>)

  datatype TimeSeriesData = TimeSeriesData(resultType: string, result: seq<TimeSeriesResult>)

  /** The fields of a time-series body the client passes on or reads. */
  datatype TimeSeriesResponse = TimeSeriesResponse(
    status: string,
    data: Option<TimeSeriesData>,
    errorType: Option<string>,
    error: Option<string>,
    message: Option<string>)

  /**
   * The query-string parameters, in order: query, start, end and step (the
   * three numbers floored), then timeout when it is a non-empty string.
   */
  function TimeSeriesParamsFor(query: string, start: JsNumber, end: JsNumber, step: JsNumber, timeout: Option<string>)
    : (p: Record<string>)
    ensures Keys(p) == ["query", "start", "end", "step"] + (if Truthy(timeout) then ["timeout"] else [])
    ensures Get(p, "query") == Some(query)
    ensures Get(p, "start") == Some(FlooredString(start))
    ensures Get(p, "end") == Some(FlooredString(end))
    ensures Get(p, "step") == Some(FlooredString(step))
    ensures Get(p, "timeout") == if Truthy(timeout) then timeout else None
  {
    SearchParams(query, FlooredString(start), FlooredString(end), FlooredString(step), timeout)
  }

  /** The parameters, given the texts of the three numbers. */
  function SearchParams(query: string, start: string, end: string, step: string, timeout: Option<string>)
    : (p: Record<string>)
    ensures Keys(p) == ["query", "start", "end", "step"] + (if Truthy(timeout) then ["timeout"] else [])
    ensures Get(p, "query") == Some(query)
    ensures Get(p, "start") == Some(start)
    ensures Get(p, "end") == Some(end)
    ensures Get(p, "step") == Some(step)
    ensures Get(p, "timeout") == if Truthy(timeout) then timeout else None
  {
    ParamNamesDistinct();
    if Truthy(timeout) then
      FivePairs(("query", query), ("start", start), ("end", end), ("step", step), ("timeout", timeout.value));
      [("query", query), ("start", start), ("end", end), ("step", step), ("timeout", timeout.value)]
    else
      FourPairs(("query", query), ("start", start), ("end", end), ("step", step), "timeout");
      [("query", query), ("start", start), ("end", end), ("step", step)]
  }

  /** The five parameter names are distinct. */
  lemma ParamNamesDistinct()
    ensures "query" != "start" && "query" != "end" && "query" != "step" && "query" != "timeout"
    ensures "start" != "end" && "start" != "step" && "start" != "timeout"
    ensures "end" != "step" && "end" != "timeout" && "step" != "timeout"
  {
    assert "query"[0] == 'q' && "start"[0] == 's' && "end"[0] == 'e' && "timeout"[0] == 't';
    assert "start"[2] == 'a' && "step"[2] == 'e' && "step"[0] == 's';
  }

  /** Sets the parameters one by one, as the client does on `url.searchParams`. */
  method BuildTimeSeriesParams(query: string, start: JsNumber, end: JsNumber, step: JsNumber, timeout: Option<string>)
    returns (params: Record<string>)
    ensures params == TimeSeriesParamsFor(query, start, end, step, timeout)
  {
    var startText, endText, stepText := FlooredString(start), FlooredString(end), FlooredString(step);
    params := [];
    params := Set(params, "query", query);
    params := Set(params, "start", startText);
    params := Set(params, "end", endText);
    params := Set(params, "step", stepText);
    ParamNamesDistinct();
    SetFourFresh("query", "start", "end", "step", query, startText, endText, stepText);
    if Truthy(timeout) {
      SetFiveFresh("query", "start", "end", "step", "timeout", query, startText, endText, stepText, timeout.value);
      params := Set(params, "timeout", timeout.value);
    }
  }

  /** A finite start, end or step is sent as its floor. */
  lemma TimeSeriesBoundsFloored(query: string, start: JsNumber, end: JsNumber, step: JsNumber, timeout: Option<string>)
    requires start.Finite? && end.Finite? && step.Finite?
    ensures var p := TimeSeriesParamsFor(query, start, end, step, timeout);
      && ParseInt(Get(p, "start").value) == start.value.Floor
      && ParseInt(Get(p, "end").value) == end.value.Floor
      && ParseInt(Get(p, "step").value) == step.value.Floor
  {
  }

  /**
   * The message of a non-ok time-series response: the body's `error` when
   * truthy, else its `message` when truthy, else the status line.
   */
  function TimeSeriesHttpErrorMessage(status: int, statusText: string, body: Body<TimeSeriesResponse>): (m: string)
    ensures m != ""
    ensures body.Parsed? && Truthy(body.value.error) ==> m == body.value.error.value
    ensures body.Parsed? && !Truthy(body.value.error) && Truthy(body.value.message) ==> m == body.value.message.value
    ensures !(body.Parsed? && (Truthy(body.value.error) || Truthy(body.value.message))) ==>
      m == HttpStatusMessage(status, statusText)
  {
    if body.Parsed? && Truthy(body.value.error) then body.value.error.value
    else if body.Parsed? && Truthy(body.value.message) then body.value.message.value
    else HttpStatusMessage(status, statusText)
  }

  /** How `executeTimeSeriesQuery` turns the fetch outcome into its wrapper. */
  function ClassifyTimeSeriesOutcome(outcome: HttpOutcome<TimeSeriesResponse>): (w: ResponseWrapper<TimeSeriesResponse>)
    ensures w.response.Some? != w.error.Some?
    ensures w.response.Some? <==>
      outcome.Responded? && Ok(outcome.status) && outcome.body.Parsed? && outcome.body.value.status != "error"
    ensures w.response.Some? ==> w.response.value == outcome.body.value
    ensures w.error.Some? ==> w.error.value.exceptions.None?
    ensures w.error.Some? ==>
      (w.error.value.statusCode.Some? <==> outcome.Responded? && !Ok(outcome.status))
    ensures w.error.Some? && w.error.value.statusCode.Some? ==>
      && w.error.value.statusCode.value == outcome.status
      && w.error.value.message == TimeSeriesHttpErrorMessage(outcome.status, outcome.statusText, outcome.body)
    ensures outcome.Responded? && Ok(outcome.status) && outcome.body.Parsed? && outcome.body.value.status == "error" ==>
      var data := outcome.body.value;
      w.error.value.message == "Time series query failed: " + OrElse(data.error, OrElse(data.errorType, "Unknown error"))
    ensures outcome.FetchRejected? ==>
      w.error.value.message == FailureMessage("time series query", outcome.message)
    ensures outcome.Responded? && Ok(outcome.status) && outcome.body.Malformed? ==>
      w.error.value.message == FailureMessage("time series query", outcome.body.syntaxError)
    ensures outcome.Responded? && Ok(outcome.status) && outcome.body.JsonNull? ==>
      w.error.value.message == FailureMessage("time series query", outcome.body.readError)
  {
    match outcome
    case FetchRejected(m) => Failed(CatchFailure("time series query", ThrownError(m)))
    case Responded(status, statusText, body) =>
      if !Ok(status) then
        Failed(PinotQueryError(TimeSeriesHttpErrorMessage(status, statusText, body), Some(status), None))
      else
        match body
        case Malformed(m) => Failed(CatchFailure("time series query", ThrownError(m)))
        case JsonNull(m) => Failed(CatchFailure("time series query", ThrownError(m)))
        case Parsed(data) =>
          if data.status == "error" then
            var detail := OrElse(data.error, OrElse(data.errorType, "Unknown error"));
            Failed(PinotQueryError("Time series query failed: " + detail, None, None))
          else
            Succeeded(data)
  }

  /** `executeTimeSeriesQuery(query, start, end, step, timeout)` against the given network. */
  method ExecuteTimeSeriesQuery(
    query: string, start: JsNumber, end: JsNumber, step: JsNumber, timeout: Option<string>,
    server: FetchCall -> HttpOutcome<TimeSeriesResponse>)
    returns (w: ResponseWrapper<TimeSeriesResponse>)
    ensures w == ClassifyTimeSeriesOutcome(server(TimeSeriesCall(TimeSeriesParamsFor(query, start, end, step, timeout))))
    ensures w.response.Some? != w.error.Some?
  {
    var params := BuildTimeSeriesParams(query, start, end, step, timeout);
    var outcome := server(TimeSeriesCall(params));
    w := ClassifyTimeSeriesOutcome(outcome);
  }
}
