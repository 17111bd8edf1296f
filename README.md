# pineslop dashboard core, modelled in Dafny

This project models the logic at the core of the pineslop Apache Pinot dashboard:

- **Configuration registries** (`lib/datasources.ts`, `lib/clusters.ts`). Each registry reads a JSON file once and caches it. It lists the configured ids, looks up one entry, and resolves `${NAME}` placeholders in header values from the environment.
- **Result-table helpers** (`app/models/result.tsx`). These are the CSV export (`escapeCSV`, `convertToCSV`) and the size/latency colour badge (`getStatusColor`).
- **Broker client** (`app/utils/pinot.ts`). It builds the SQL request body and the time-series query parameters. It then turns the outcome of `fetch` into a `{ response, error }` wrapper that carries a `PinotQueryError` on failure.
- **SQL query page** (`app/query/page.tsx`). This covers running a query, deriving the timeout, the Cmd/Ctrl+Enter shortcut, and keeping the editor text in `localStorage`.

## How the model is built

- A JavaScript object used as a dictionary (`Records.Record`) is a sequence of (key, value) pairs with distinct keys, in the order `Object.keys` enumerates them. Assigning a property and `URLSearchParams.set` are both `Records.Set`. A new key goes last; this is the enumeration order of `URLSearchParams` and of object keys that are not integer-like, such as `timeoutMs`.
- A body that `response.json()` reads as `null` (`Pinot.Body.JsonNull`) carries the text of the `TypeError` the engine throws when the code reads a field of it; the text is engine-specific, so it is an input.
- `localStorage.getItem` is `QueryPage.GetItem`, a lookup in a map from keys to stored strings.
- A JavaScript number (`Numbers.JsNumber`) is a finite value kept exactly as a real, `NaN`, or one of the two infinities.
- The module-level caches are classes whose only field is the cache. A ghost counter records how many times the file has been read. The file contents and `process.env` are parameters.
- The network is a parameter: a function from the `fetch` arguments (`Pinot.FetchCall`) to the outcome (`Pinot.HttpOutcome`). `Number(text)` in the page is a parameter too.
- The page's React state is the set of fields of `QueryPage.QueryConsole`. `handleRunQuery` is split at its `await` into `BeginRun` and `CompleteRun`. The effects that follow a commit are written out in the order React runs them.

Files:

| file | module |
|---|---|
| `options.dfy` | `Options`: optional values, JavaScript truthiness of strings and `\|\|` |
| `strings.dfy` | `Strings`: `trim`, decimal rendering and parsing of integers, `join`, `split` |
| `records.dfy` | `Records`: objects as ordered key/value sequences |
| `numbers.dfy` | `Numbers`: JavaScript numbers, `String(Math.floor(x))` |
| `placeholders.dfy` | `Placeholders`: `${NAME}` substitution and the header loop |
| `datasources.dfy` | `Datasources` |
| `clusters.dfy` | `Clusters` |
| `result_table.dfy` | `ResultTable`: CSV export, its reader and round trip, status colour |
| `pinot.dfy` | `Pinot`: `executePinotQuery`, `executeTimeSeriesQuery` |
| `query_page.dfy` | `QueryPage`: the query page |

## Model

| member | source | states |
|---|---|---|
| Datasources.DatasourceRegistry.constructor | lib/datasources.ts:23 | the cache starts empty and the file has not been read |
| Datasources.DatasourceRegistry.GetDatasourcesConfig | lib/datasources.ts:29-39 | the first call reads the file and caches it; every later call returns the cached value without reading the file again |
| Datasources.DatasourceRegistry.GetDatasourceIds | lib/datasources.ts:44-47 | returns the ids of the configuration in effect: the cache, else the file |
| Datasources.DatasourceRegistry.GetDatasourcesInfo | lib/datasources.ts:53-60 | returns the info list of the configuration in effect |
| Datasources.DatasourceRegistry.GetDatasourceConfig | lib/datasources.ts:65-68 | returns the lookup in the configuration in effect |
| Datasources.DatasourceRegistry.GetResolvedDatasourceConfig | lib/datasources.ts:73-91 | returns the resolved entry built by the header loop; the cache keeps its unresolved headers |
| Datasources.CacheIgnoresLaterFileContents | lib/datasources.ts:29-39 | after a first load, a later call over changed file contents still answers from the first contents |
| Datasources.DatasourceIds | lib/datasources.ts:44-47 | one id per configured entry, no id twice, and an id is listed exactly when looking it up finds an entry |
| Datasources.DatasourcesInfo | lib/datasources.ts:53-60 | one entry per id, in the order of the id list; each carries the id and copies type and icon (the type has no url or headers) |
| Datasources.DatasourceConfigFor | lib/datasources.ts:65-68 | an entry is returned exactly when the id is configured, and it is the entry stored under that id; otherwise null |
| Datasources.ResolvedDatasource | lib/datasources.ts:73-91 | null exactly when the id is not configured; otherwise type, url and icon are unchanged, the header keys are the same in the same order, and each header value is substituted |
| Clusters.ClusterRegistry.constructor | lib/clusters.ts:13 | the cache starts empty and the file has not been read |
| Clusters.ClusterRegistry.GetClustersConfig | lib/clusters.ts:19-29 | the first call reads the file and caches it; every later call returns the cache without reading again |
| Clusters.ClusterRegistry.GetClusterIds | lib/clusters.ts:34-37 | returns the ids of the configuration in effect |
| Clusters.ClusterRegistry.GetClusterConfig | lib/clusters.ts:42-45 | returns the lookup in the configuration in effect |
| Clusters.ClusterRegistry.GetResolvedClusterConfig | lib/clusters.ts:50-68 | returns the resolved entry built by the header loop; the cache is unchanged |
| Clusters.CacheIgnoresLaterFileContents | lib/clusters.ts:19-29 | two id listings over different file contents both answer from the first contents |
| Clusters.ClusterIds | lib/clusters.ts:34-37 | exactly the configured keys, each once |
| Clusters.ClusterConfigFor | lib/clusters.ts:42-45 | the stored entry exactly when the id is configured, else null |
| Clusters.ResolvedCluster | lib/clusters.ts:50-68 | null exactly when the id is absent; otherwise same url, same header keys in the same order, each value substituted |
| Placeholders.WordRun | lib/datasources.ts:82 | the length of the longest run of `\w` characters at the start of the text |
| Placeholders.MatchAt | lib/datasources.ts:82 | a match is a name of one or more word characters inside `${` and `}` at the start of the text |
| Placeholders.MatchAtComplete | lib/datasources.ts:82 | every `${NAME}` with a non-empty word-character name is matched, with exactly that name |
| Placeholders.Names | lib/datasources.ts:82 | every placeholder found by the left-to-right scan has a valid name |
| Placeholders.EnvValue | lib/datasources.ts:83 | `process.env[name] \|\| ''`; specified by `UnsetAndEmptyAgree` and `ResolvePlaceholderFirst`: a set, non-empty variable gives its value, an unset or empty one gives "" |
| Placeholders.Resolve | lib/datasources.ts:82-84 | the global `replace` with its callback; specified by `ResolveCopiesText`, `ResolveReadsOnlyNames` and `NoReexpansion`: text outside placeholders kept, each placeholder replaced where it stands, substituted text not rescanned |
| Placeholders.ResolvePlaceholderFirst | lib/datasources.ts:82-84 | a leading `${NAME}` becomes the environment value (or "" when unset or empty), and the scan continues after it |
| Placeholders.ResolveLiteralFirst | lib/datasources.ts:82 | a leading character other than `$` is copied and the scan continues with the next one |
| Placeholders.ResolveLiteralPrefix | lib/datasources.ts:82 | any text without `$` is copied verbatim |
| Placeholders.ResolveWithoutPlaceholders | lib/datasources.ts:82 | a value containing no placeholder is returned unchanged |
| Placeholders.ResolveCopiesText | lib/datasources.ts:82-84 | everything outside the placeholders is kept verbatim and each placeholder is replaced where it stands |
| Placeholders.ResolveReadsOnlyNames | lib/datasources.ts:82-84 | the result depends only on the environment values of the matched names |
| Placeholders.NoReexpansion | lib/datasources.ts:82-84 | example: substituted text is not scanned again: `${A}` with A set to `${B}` gives `${B}` |
| Placeholders.UnsetAndEmptyAgree | lib/datasources.ts:83 | an unset variable and an empty variable both substitute "" |
| Placeholders.EmptyNameKept | lib/datasources.ts:82 | `${}` is copied verbatim |
| Placeholders.UnterminatedKept | lib/datasources.ts:82 | an unterminated `${X` is copied verbatim |
| Placeholders.ResolveLiteralThenPlaceholder | lib/datasources.ts:82-84 | a value of literal text followed by one placeholder, such as `Bearer ${TOKEN}`, becomes that text followed by the variable's value |
| Placeholders.ResolvedHeaders | lib/datasources.ts:79-85 | the resolved header record; specified by `ResolvedHeadersSpec`: same keys in the same order, each value substituted |
| Placeholders.ResolvedHeadersSpec | lib/datasources.ts:79-85 | the resolved headers have the same keys in the same order, and each lookup is the substituted original value |
| Placeholders.ResolvedHeadersSpecEvery | lib/clusters.ts:56-62 | the same, for every key at once |
| Placeholders.ResolveHeaders | lib/datasources.ts:79-85 | the loop over `Object.entries` builds exactly the resolved header record, one key at a time |
| ResultTable.EscapeCsv | app/models/result.tsx:80-90 | the field is empty exactly for a missing or empty cell; `UnescapeEscape` and `EscapeInjective` state that the cell's text is recovered from it |
| ResultTable.CsvRow | app/models/result.tsx:96-98 | the cells escaped and joined with commas; specified by `RowCommas` and `RowRoundTrip`: n − 1 commas outside quotes, and splitting there gives back the cell texts |
| ResultTable.ConvertToCsv | app/models/result.tsx:93-101 | the header row then the data rows, joined with line feeds; specified by `CsvRoundTrip`, `RecordSeparators` and `LineCount` |
| ResultTable.CollapseDoubled | app/models/result.tsx:87 | collapsing `""` pairs undoes the doubling of quotes |
| ResultTable.UnescapeEscape | app/models/result.tsx:80-90 | stripping the enclosing quotes and collapsing `""` recovers the cell's text; a missing cell gives "" |
| ResultTable.EscapeInjective | app/models/result.tsx:86-89 | two strings that escape to the same field are equal |
| ResultTable.CarriageReturnNotQuoted | app/models/result.tsx:86 | example: a lone carriage return does not cause quoting |
| ResultTable.CsvRecords | app/models/result.tsx:93-101 | one record for the header, then one per data row |
| ResultTable.RowCommas | app/models/result.tsx:96-98 | a row of n ≥ 1 cells has exactly n − 1 commas outside quoted fields |
| ResultTable.RecordSeparators | app/models/result.tsx:101 | the export has exactly one line feed outside quotes per data row |
| ResultTable.NoTrailingLineFeed | app/models/result.tsx:101 | the export does not end with a line feed when its last record is non-empty |
| ResultTable.RowRoundTrip | app/models/result.tsx:96-98 | splitting a row at commas outside quotes and unescaping gives back its cell texts |
| ResultTable.CsvRoundTrip | app/models/result.tsx:80-101 | reading the export back gives the column names and then every cell's text, row by row |
| ResultTable.LineCount | app/models/result.tsx:93-101 | when no name or cell contains a line feed, the export has exactly rows + 1 lines |
| ResultTable.StatusColorFor | app/models/result.tsx:37-50 | green exactly when size < 1 MiB and latency < 1 s; yellow exactly when not green and size < 32 MiB and latency < 10 s; red exactly when size ≥ 32 MiB or latency ≥ 10 s |
| ResultTable.ClassName | app/models/result.tsx:43-49 | the class string for each colour; specified by `ClassNameInjective`: the three strings differ |
| ResultTable.StatusColorMonotonic | app/models/result.tsx:43-49 | a larger size or latency never gives a better colour |
| ResultTable.ClassNameInjective | app/models/result.tsx:44-49 | example: the three class strings differ, so the class determines the colour |
| Strings.TrimEmptyIffBlank | app/query/page.tsx:126 | `s.trim()` is empty exactly when every character is JavaScript whitespace |
| Strings.IntToDecimalRoundTrip | app/utils/pinot.ts:98 | the decimal text of an integer parses back to that integer |
| Records.Set | app/utils/pinot.ts:96-99 | a new key goes last, with the record otherwise unchanged; an existing key keeps its place (the order of `URLSearchParams` and of non-integer-like keys such as `timeoutMs`) |
| Records.GetSet | app/utils/pinot.ts:96-99 | after setting a key, it maps to the new value and every other key maps to what it mapped to before |
| Numbers.Scale | app/query/page.tsx:136 | multiplying by 1000 keeps finite, NaN and infinite values in their class and keeps the sign of a positive value |
| Numbers.FlooredString | app/utils/pinot.ts:98 | `String(Math.floor(x))` is an integer literal exactly when x is finite, and then it parses back to the floor of x |
| Pinot.CatchFailure | app/utils/pinot.ts:152-175 | a `PinotQueryError` is passed through unchanged; for anything else the message starts with `Failed to execute <op>: ` and what follows it reads back as the `Error`'s own message, or `Unknown error` for a non-`Error`, with no status code and no exceptions |
| Pinot.FailureMessageDetail | app/utils/pinot.ts:162-173 | the detail after the `Failed to execute <op>: ` prefix can be read back from the message |
| Pinot.HttpStatusMessageStatus | app/utils/pinot.ts:113 | the status can be read back from the default message `HTTP <status>: <statusText>` |
| Pinot.ExceptionMessages | app/utils/pinot.ts:135-136 | one message per exception, in order, none of them empty: an exception's own non-empty message is kept, and a missing or empty one becomes `Unknown error` |
| Pinot.ExceptionsText | app/utils/pinot.ts:135-137 | the `"; "`-joined text of at least one exception is never empty |
| Pinot.HttpStatusMessage | app/utils/pinot.ts:113 | the default message always starts with `HTTP ` and continues past it |
| Pinot.ExceptionsTextSplit | app/utils/pinot.ts:135-137 | when no message contains `;`, splitting the joined text at `"; "` gives back one message per exception |
| Pinot.QueryRequestFor | app/utils/pinot.ts:93-100 | the body always carries the SQL; `queryOptions` is present exactly when the timeout is a finite number above 0; it then holds only `timeoutMs`, the decimal text of the floored timeout, which is non-negative |
| Pinot.BuildQueryRequest | app/utils/pinot.ts:93-100 | the step-by-step construction builds exactly that body |
| Pinot.SubMillisecondTimeoutSentAsZero | app/utils/pinot.ts:98 | example: a timeout of 0.5 is sent as `"0"` |
| Pinot.QueryHttpErrorMessage | app/utils/pinot.ts:113-123 | the error message for a non-ok status is never empty: the body's `message` when it parses and is non-empty, else `HTTP <status>: <statusText>` |
| Pinot.ClassifyQueryOutcome | app/utils/pinot.ts:112-175 | exactly one of response and error is set. A response is returned, unchanged, exactly when the status is ok, the body parses to an object and there are no exceptions. `statusCode` is set exactly for a non-ok status and equals it. Exceptions are attached exactly for a non-empty exception list, with the message `Pinot query failed: ` and the joined messages. A rejected fetch becomes the `Failed to execute Pinot query: ` error; so does an unparsable or null body, but only for an ok status: on a non-ok status such a body gives `HTTP <status>: <statusText>` |
| Pinot.ExecutePinotQuery | app/utils/pinot.ts:89-176 | POSTs the built body to the SQL endpoint and returns the classification of the outcome; exactly one side is set |
| Pinot.TimeSeriesParamsFor | app/utils/pinot.ts:195-203 | the parameters are query, start, end and step, in that order, then timeout only when it is non-empty; each number is sent as `String(Math.floor(n))` |
| Pinot.BuildTimeSeriesParams | app/utils/pinot.ts:195-203 | the sequence of `searchParams.set` calls builds exactly those parameters |
| Pinot.TimeSeriesBoundsFloored | app/utils/pinot.ts:197-199 | finite start, end and step are sent as their floors |
| Pinot.TimeSeriesHttpErrorMessage | app/utils/pinot.ts:214-223 | the error message for a non-ok status is never empty: the body's `error` takes precedence over its `message`, which takes precedence over `HTTP <status>: <statusText>` |
| Pinot.ClassifyTimeSeriesOutcome | app/utils/pinot.ts:213-274 | exactly one side is set. The response is returned unchanged exactly when the status is ok, the body parses, and `status` is not `"error"`. `statusCode` is set exactly for a non-ok status. An `"error"` status gives `Time series query failed: ` followed by `error`, else `errorType`, else `Unknown error`. The thrown cases give `Failed to execute time series query: ` |
| Pinot.ExecuteTimeSeriesQuery | app/utils/pinot.ts:187-275 | GETs the time-series endpoint with the built parameters and returns the classification of the outcome |
| QueryPage.TimeoutFor | app/query/page.tsx:132-138 | a timeout exists exactly when the text is not blank and converts to a number above 0 (so not NaN); it is that number in milliseconds mode and 1000 times it in seconds mode |
| QueryPage.TimeoutReachesRequest | app/query/page.tsx:132-144 | the request carries a timeout exactly when the text is not blank and converts to a finite number above 0; it is then the floor of the converted value, after the seconds conversion |
| QueryPage.InfiniteTimeoutDropped | app/query/page.tsx:135-136 | a text converting to +Infinity passes the page's check but no timeout is sent |
| QueryPage.RunButtonEnabled | app/query/page.tsx:206 | the button's enabled state; specified by `ShortcutMatchesButton`: enabled exactly when not loading and the query is not blank |
| QueryPage.ShortcutFires | app/query/page.tsx:168-173 | the keydown condition; specified by `ShortcutMatchesButton`: Enter with Meta or Ctrl, not loading, query not blank |
| QueryPage.ShortcutMatchesButton | app/query/page.tsx:168-173 | the run button is enabled exactly when not loading and the query is not blank; the shortcut fires exactly on Enter with Meta or Ctrl under the same condition |
| QueryPage.RunFailure | app/query/page.tsx:153-159 | the message starts with `Failed to execute query: ` and what follows it reads back as the thrown `Error`'s message, or `Unknown error` for a non-`Error`; no status code or exceptions |
| QueryPage.SaveThenRestore | app/query/page.tsx:110-121 | a reload restores exactly the text saved last (a saved "" restores ""); writing any other key does not change what a reload restores |
| QueryPage.QueryConsole.constructor | app/query/page.tsx:99-105 | the first render: empty query and timeout, milliseconds, nothing shown, not loading, still in the initial mount |
| QueryPage.QueryConsole.SaveQuery | app/query/page.tsx:121 | writes the query key and logs the write; nothing else changes |
| QueryPage.QueryConsole.MountAsWritten | app/query/page.tsx:108-123 | as written: the first commit stores "", then a restored non-empty query is stored again |
| QueryPage.QueryConsole.Mount | app/query/page.tsx:108-123 | as intended: restores a non-empty saved query and leaves the storage as it was |
| QueryPage.QueryConsole.SetQuery | app/query/page.tsx:119-123 | a changed query is written back once the mount is over, and never during it, and the write log grows by exactly that one write; a reload would then restore it |
| QueryPage.QueryConsole.SetTimeoutValue | app/query/page.tsx:221 | sets the timeout text only |
| QueryPage.QueryConsole.SetTimeoutUnit | app/query/page.tsx:222 | sets the timeout unit only |
| QueryPage.QueryConsole.DeriveTimeout | app/query/page.tsx:132-138 | the nested checks compute exactly `TimeoutFor` of the fields |
| QueryPage.QueryConsole.BeginRun | app/query/page.tsx:126-130 | a blank query changes nothing; otherwise loading is set and both error and results are cleared |
| QueryPage.QueryConsole.CompleteRun | app/query/page.tsx:146-162 | the wrapper's error is shown if set, and its response if set; a thrown value shows the page's own failure; loading is cleared on every path |
| QueryPage.QueryConsole.HandleRunQuery | app/query/page.tsx:125-163 | for a non-blank query, the page ends showing exactly the wrapper the broker client returns for the query and the derived timeout, with loading cleared; for a blank query nothing changes; results and error are never shown together |
| QueryPage.QueryConsole.HandleKeyDown | app/query/page.tsx:166-177 | prevents the default and runs the query exactly when the shortcut fires; otherwise nothing changes |
| QueryPage.MountAsWrittenCreatesEmptyEntry | app/query/page.tsx:108-123 | mounting as written with empty storage creates the key holding "" |
| QueryPage.MountAsWrittenOverwritesSavedQuery | app/query/page.tsx:108-123 | mounting as written over the saved query `SELECT 1` writes "" and then `SELECT 1` |
| QueryPage.MountLeavesStorageAlone | app/query/page.tsx:108-123 | the intended mount with empty storage leaves the key absent |

## Left out

- Reading and parsing the configuration files (`fs.readFileSync`, `path.join`, `JSON.parse`) and their errors: the parsed contents are a parameter.
- `process.env`: it is a map parameter.
- Records.Set: JavaScript enumerates integer-like object keys (such as `"10"`) before all others, in numeric order; the model always appends a new key, which matches `URLSearchParams` and the `timeoutMs` key the broker client sets.
- Object identity: `getDatasourceConfig` and `getClusterConfig` (lib/datasources.ts:65-68, lib/clusters.ts:42-45) hand callers the cached object itself, so a caller that mutates it changes the cache. The model works on values and does not capture this aliasing.
- Lookups of keys inherited through the object prototype, such as `datasources["constructor"]`: the model only sees the object's own properties.
- The wire formats: `JSON.stringify` of the request body, percent-encoding of the URL and `url.toString()`. The `fetch` arguments are kept as structured values.
- `fetch` and `response.json()`: they are represented by the outcome datatype. A body that parses to something other than an object or `null` is left out. So is a field of an unexpected type, such as a numeric `message` or a `null` entry in `exceptions`.
- The fields of a broker response other than `exceptions`, `message` and `resultTable`: they are passed through unchanged and not modelled.
- `Number(text)` string conversion: it is a parameter.
- Numbers.Scale: floating-point rounding of `parsed * 1000`, and its overflow to Infinity, are not modelled. Finite numbers are exact reals.
- Numbers.FlooredString: the exponent notation `String` uses at 1e21 and above is not modelled.
- The catch branches for a thrown `PinotQueryError` or a non-`Error` value in both broker calls are never reached, because `fetch` rejects only with `Error`s. `Pinot.CatchFailure` models them, and the classifiers only hand it `Error`s.
- The page's own `catch` (app/query/page.tsx:153-159) is never reached, because `executePinotQuery` never rejects. `QueryPage.QueryConsole.CompleteRun` models it through `Rejected`, and `HandleRunQuery` never passes that case.
- Overlapping runs: `handleRunQuery` itself does not check `loading`. The model runs each call to completion, so an interleaving of two in-flight runs is not captured.
- React details: StrictMode's double effects, the re-registration of the keydown listener on every change, and the `typeof window` guard, which is always true inside effects.
- `console.error` logging, the error alert text, the results table rendering, `formatFileSize`, `formatLatency`, the response size via `Blob`, clipboard copies and the `copied` flags: these are presentation and browser side effects.
- The other pages, the sidebar, the navigation, the editor wrapper, the datasource selector and the API route handlers: these are UI and one-line wrappers.

## Findings

| source | as written | input that shows it | evidently intended | confidence | as-written member | corrected member |
|---|---|---|---|---|---|---|
| app/query/page.tsx:108-123 | The load effect sets the initial-mount flag to false before the save effect of the same commit runs. That save effect still holds the first render's empty query, so it writes "" at mount, against its own comment about the initial mount. | Mount with no saved query: the key is created holding "". Mount with `SELECT 1` saved: "" is written, then `SELECT 1` is written again after the re-render. | The save effect skips the mount commit, so storage is not written at mount. | medium, not executed | QueryPage.QueryConsole.MountAsWritten | QueryPage.QueryConsole.Mount |
