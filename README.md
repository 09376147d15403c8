# Control plane core, modelled in Dafny

This project models the core of a small security control plane that fronts two systems:

- **PingTing**, a network sentry. Its status snapshot is read from `status.json` or from the
  output of `python -m pingting status --json`, and its SQLite history of findings and agent runs
  is queried.
- **ClownPeanuts**, a deception API. It is reached over HTTP through an adapter and relayed over
  WebSockets.

The model covers:

- the PingTing adapter: payload extraction, the `_safe_int` conversion, the highlights
  projection, the freshness and refresh logic of the status summary, and the history queries;
- the control-plane API: bearer and API-key credential resolution, the auth middleware, the
  WebSocket gate and upstream token rewrite, the overview, the history routes' HTTP errors, and
  the deception proxy;
- the orchestration helpers: git repository status, maintenance action runs with their
  truncated output, the action-state file, and the project and orchestration summaries;
- the settings read from the environment;
- the ClownPeanuts HTTP adapter;
- the dashboard's fetch helpers, URL token rewrite and top-navigation highlighting.

The modules follow the source files; two files are split in two:

| module | file | source |
|---|---|---|
| `PingTing` | `pingting.dfy` | `adapters/pingting/client.py` (status snapshot and summary) |
| `PingTingHistory` | `pingting_history.dfy` | `adapters/pingting/client.py` (history queries) |
| `Auth` | `auth.dfy` | `apps/controlplane-api/controlplane_api/app.py` (credentials, middleware, WebSocket gate) |
| `Routes` | `routes.dfy` | `apps/controlplane-api/controlplane_api/app.py` (routes) |
| `Orchestration` | `orchestration.dfy` | `apps/controlplane-api/controlplane_api/orchestration.py` |
| `Config` | `config.dfy` | `apps/controlplane-api/controlplane_api/config.py` |
| `ClownPeanuts` | `clownpeanuts.dfy` | `adapters/clownpeanuts/client.py` |
| `DashboardApi` | `dashboard_api.dfy` | `apps/controlplane-dashboard/app/lib/api.ts` |
| `DashboardControlPlane` | `dashboard_controlplane.dfy` | `apps/controlplane-dashboard/app/lib/controlplane.ts` |
| `TopbarNav` | `topbar_nav.dfy` | `apps/controlplane-dashboard/app/components/topbar-nav.tsx` |

They share four helper modules:

- `Text`: Python `str` and JavaScript `String` operations. These are strip/trim, lower/upper,
  split, join, find/rfind, `int()` on text, decimal rendering, and code-point ordering with a
  sorted listing of a set of names.
- `Json`: a JSON value type with Python truthiness and `dict.get`.
- `Pairs`: ordered name/value lists, such as query strings.
- `Wrappers`: `Option` and `Result`.

Everything outside the process is an input. This covers:

- files: the status file, the state file and the YAML project list;
- subprocess results: the PingTing CLI, git and the action scripts;
- the SQLite result;
- HTTP replies;
- the parsers of the standard library: `json.loads` is a function parameter `loads`, and
  `urlsplit`/`parse_qsl` and the browser's `URL` are given as already-parsed values.

The code runs its steps in a fixed order. For example, `load_status_summary` reads the file, may
run the CLI, and may read the file again. Methods that model such code report which inputs they
consumed.

Three behaviours of the code are easy to misread, and the model keeps them as the code has them:

- **Highlight counts can be negative.** `_safe_int` passes any integer through `int()`, so a
  count of `"-5"` gives -5 (`PingTing.SafeIntOfDecimalText`).
- **The CLI snapshot's age is known.** `_run_status_cli` sets the age of a fresh CLI snapshot to
  0.0 rather than leaving it unknown (`PingTing.RunStatusCli`).
- **The proxy can drop `content-type`.** `deception_proxy` passes the upstream `content-type`
  on only when it is non-empty (`Routes.DeceptionProxy`,
  `Routes.ProxyThroughAdapterHasContentType`).

## Model

| member | source | states |
|---|---|---|
| PingTing.PyInt | adapters/pingting/client.py:22 | `int()` of a JSON value: TypeError exactly for None, lists and dicts, OverflowError exactly for the two infinities, integers and booleans convert to themselves (1/0), text converts exactly when it is integer text |
| PingTing.SafeIntAsWritten | adapters/pingting/client.py:20-24 | `_safe_int` as written: the converted value, 0 for a TypeError or ValueError, and an escaping error exactly for an OverflowError |
| PingTing.SafeInt | adapters/pingting/client.py:20-24 | the never-failing conversion: the converted value when `int()` succeeds, otherwise 0 |
| PingTing.Truncate | adapters/pingting/client.py:22 | `int()` of a finite float truncates toward zero: the result is at most 1 below a non-negative value and at most 1 above a negative one |
| PingTing.SafeIntAsWrittenFailsOnlyOnInfinity | adapters/pingting/client.py:20-24 | `_safe_int` as written escapes with an exception exactly for +inf and -inf, because `OverflowError` is not among the exceptions it catches |
| PingTing.SafeIntAsWrittenRaisesOnInfinity | adapters/pingting/client.py:20-24 | concrete case: `inf` escapes from `_safe_int` as written, while the corrected conversion gives 0 |
| PingTing.SafeIntAgreesWhereWrittenReturns | adapters/pingting/client.py:20-24 | the corrected conversion returns what `_safe_int` returns wherever that returns, and 0 where it raises |
| PingTing.SafeIntOfDecimalText | adapters/pingting/client.py:20-24 | the decimal text of any integer, negative ones included, converts back to that integer |
| PingTing.SafeIntDefaults | adapters/pingting/client.py:20-24 | `None`, lists, dicts and `nan` all convert to 0 |
| PingTing.SafeIntOfBlankText | adapters/pingting/client.py:20-24 | blank text converts to 0 |
| PingTing.BraceSpan | adapters/pingting/client.py:34-36 | a span found starts at a `{` with no `{` before it and ends at a later `}` with no `}` after it |
| PingTing.BraceSpanNone | adapters/pingting/client.py:34-37 | no span is found exactly when no `{` is followed later by a `}` |
| PingTing.ObjectPayload | adapters/pingting/client.py:39-40 | a parsed value is accepted exactly when it is a JSON object |
| PingTing.ExtractJsonPayload | adapters/pingting/client.py:27-41 | the "empty status payload" error happens exactly for blank text; any other text is stripped and handed to the parse-and-retry |
| PingTing.ParseStatusText | adapters/pingting/client.py:31-41 | a first parse that succeeds decides the result; when it fails and there is no brace span, its own error is re-raised; otherwise the retry on the span decides |
| PingTing.RetryOnSpan | adapters/pingting/client.py:38-40 | the retry parses exactly the text from the first `{` to the last `}` inclusive, and its error propagates |
| PingTing.ExtractedFromSubstring | adapters/pingting/client.py:27-41 | every payload returned is the object that `json.loads` produced for some contiguous piece of the text |
| PingTing.ExtractFromNoisyOutput | adapters/pingting/client.py:27-41 | a JSON object surrounded by log noise without braces is recovered exactly |
| PingTing.SafeJsonLoads | adapters/pingting/client.py:44-50 | a non-string or blank value gives the default; otherwise the result is the parsed value, or the default when parsing fails |
| PingTing.EnabledAgents | adapters/pingting/client.py:147-151 | the names are exactly the agents whose entry is a dict with a truthy `enabled`, in strictly increasing code-point order (sorted, no repeats) |
| PingTing.AlertChannelCount | adapters/pingting/client.py:153-165 | the channel count is the length of the `alert_channels` list, or 0 when that is not a list |
| PingTing.HighlightsFields | adapters/pingting/client.py:134-172 | each count is the converted field, read from `findings_24h` only when that is a dict; `learning_status` is `str()` of a truthy status (the text itself for a string) and "unknown" for a falsy one; the agents and the channel count are as above |
| PingTing.HighlightsIgnoreOtherKeys | adapters/pingting/client.py:134-172 | keys other than the nine read leave the highlights unchanged |
| PingTing.HighlightsOfEmptyPayload | adapters/pingting/client.py:134-172 | `{}` projects to zero counts, "unknown" learning status and no agents |
| PingTing.HighlightsAsWrittenAgrees | adapters/pingting/client.py:134-172 | when none of the nine counts is infinite, `_highlights` as written returns the corrected projection |
| PingTing.HighlightsAsWrittenRaises | adapters/pingting/client.py:158 | `{"findings_total": Infinity}` makes `_highlights` as written raise; the corrected projection gives 0 |
| PingTing.HighlightsJson | adapters/pingting/client.py:157-172 | the highlights object always has the same nine keys, with exactly the four severities under `findings_24h` |
| PingTing.ReadStatusFile | adapters/pingting/client.py:87-103 | a snapshot exists exactly when the file is read and its payload extracts; its source is "file" and its payload is the extracted one; its age is known exactly when `stat` succeeded, and is then max(0, elapsed) |
| PingTing.FailureDetail | adapters/pingting/client.py:125-129 | the detail of a failed CLI run is never empty: stripped stderr, else stripped stdout, else `exit=<code>` |
| PingTing.RunStatusCli | adapters/pingting/client.py:105-132 | a CLI snapshot exists only for exit code 0 and a payload that extracts; its payload is the one extracted from stdout, with source "cli" and age 0; a failed extraction passes its error on; a non-zero exit gives the prefixed detail, and a raised exception gives its own text |
| PingTing.IsStale | adapters/pingting/client.py:394 | an unknown age is never stale; a known age is stale exactly when it exceeds the maximum age |
| PingTing.CliSnapshotIsFresh | adapters/pingting/client.py:394 | a CLI snapshot counts as stale only when the maximum age is negative |
| PingTing.LoadStatusSummary | adapters/pingting/client.py:349-403 | the CLI runs exactly when forced, when there is no file snapshot, or when the file is stale and refresh is on; the file is re-read only after a failed forced refresh with no first snapshot; a fresh file is served without the CLI; a failed refresh of a stale file keeps it as "file_stale" with the one error; "unavailable" is returned only when no snapshot is left, carrying the CLI error; staleness is always recomputed from the age served |
| PingTingHistory.ClampLimit | adapters/pingting/client.py:182 | the limit lies in 1..200, is kept when already in range, and is pinned to the nearer bound otherwise |
| PingTingHistory.SeverityFilter | adapters/pingting/client.py:186-194 | a blank severity means no filter; one of low/medium/high/critical (after strip and lower) is the filter; anything else is the "invalid severity: …" error |
| PingTingHistory.BuildFindingsQuery | adapters/pingting/client.py:182-210 | fails exactly on an invalid severity, with its message; otherwise builds the findings query, whose every placeholder has its parameter and whose last parameter is the clamped limit |
| PingTingHistory.FindingsQueryClauses | adapters/pingting/client.py:183-201 | `false_positive = 0` always comes first; the severity, acknowledged and learning conditions appear exactly when a severity is given or the flag is off |
| PingTingHistory.FindingsQueryWellBound | adapters/pingting/client.py:183-210 | each `?` of a findings query has exactly one bind parameter |
| PingTingHistory.AppendFindingsFilters | adapters/pingting/client.py:183-210 | the step-by-step appends build exactly the findings query, and that query is well bound with the limit last |
| PingTingHistory.LoadRecentFindings | adapters/pingting/client.py:174-265 | an invalid severity is reported before any query is built; otherwise the query built is exactly the findings query for the validated severity, the two flags and the clamped limit; success comes exactly from fetched rows, with count, limit and rows; the failure replies carry one error and no limit |
| PingTingHistory.RunsQueryWellBound | adapters/pingting/client.py:275-295 | the agent-runs query is well bound with the limit last, and filters on agent or status exactly when that filter is non-empty |
| PingTingHistory.BuildRunsQuery | adapters/pingting/client.py:274-286 | the agent filter is trimmed with its case kept; the status filter is trimmed and lower-cased |
| PingTingHistory.AppendRunsFilters | adapters/pingting/client.py:275-295 | the step-by-step appends build exactly the agent-runs query |
| PingTingHistory.LoadRecentAgentRuns | adapters/pingting/client.py:267-347 | the query built is exactly the runs query for the trimmed agent, the trimmed lower-cased status and the clamped limit, well bound with the limit last; success comes exactly from fetched rows; a missing file and a failing query give their own error |
| Auth.ExtractBearer | apps/controlplane-api/controlplane_api/app.py:30-40 | a token is extracted exactly when the stripped header splits into two words of which the first is "bearer" in any case, and the token is the second word; it is non-empty without whitespace; no header gives none |
| Auth.ExtractBearerOfHeader | apps/controlplane-api/controlplane_api/app.py:30-40 | `<scheme> <token>` with a bearer scheme in any letter case yields the token back (see section 2.1 of RFC 6750) |
| Auth.ExtractBearerNeedsScheme | apps/controlplane-api/controlplane_api/app.py:36-37 | a one-word header, such as a bare token, yields nothing |
| Auth.Credential | apps/controlplane-api/controlplane_api/app.py:47-51 | a value counts exactly when it is present and not blank, and then it is stripped |
| Auth.ResolveRequestToken | apps/controlplane-api/controlplane_api/app.py:43-57 | the bearer token wins when there is one; without it a non-blank X-API-Key (stripped) wins; without both the stripped non-blank `token` query parameter is used; any credential is non-empty and trimmed |
| Auth.ResolveWebSocketToken | apps/controlplane-api/controlplane_api/app.py:60-75 | any credential resolved for a WebSocket is non-empty and trimmed |
| Auth.HeadersWinOverQuery | apps/controlplane-api/controlplane_api/app.py:43-75 | a credential in the headers is chosen whatever the query string holds, for requests and WebSockets alike |
| Auth.BlankApiKeyIsSkipped | apps/controlplane-api/controlplane_api/app.py:47-56 | a blank `X-API-Key` does not hide the `token` query parameter |
| Auth.WebSocketExtendsRequest | apps/controlplane-api/controlplane_api/app.py:60-75 | a WebSocket resolves like a request whenever the request rules find a credential; otherwise it also tries `api_key` and then `access_token` |
| Auth.BearerHeaderResolves | apps/controlplane-api/controlplane_api/app.py:43-46 | a request carrying only `Authorization: Bearer <token>` resolves to that token |
| Auth.Put | apps/controlplane-api/controlplane_api/app.py:85 | assigning a key in a dict gives it the value, keeps every other key's value and keeps keys distinct |
| Auth.DictOf | apps/controlplane-api/controlplane_api/app.py:82 | `dict(pairs)` has the keys of the pairs, each once |
| Auth.DictOfKeepsLastValue | apps/controlplane-api/controlplane_api/app.py:82 | in `dict(pairs)` a repeated key holds the value it was given last |
| Auth.CarriesToken | apps/controlplane-api/controlplane_api/app.py:82-84 | the query carries a credential exactly when some parameter is named `token`, `api_key` or `access_token`, whatever its value |
| Auth.WithTokenQuery | apps/controlplane-api/controlplane_api/app.py:78-86 | an empty token, or a URL already carrying `token`, `api_key` or `access_token`, leaves the URL unchanged; scheme, host, path and fragment are always kept |
| Auth.WithTokenQueryAddsToken | apps/controlplane-api/controlplane_api/app.py:78-86 | otherwise the URL gains `token=<token>`, and every other parameter keeps its last value, each once |
| Auth.WithTokenQueryIdempotent | apps/controlplane-api/controlplane_api/app.py:78-86 | adding the token twice is adding it once |
| Auth.AuthDecision | apps/controlplane-api/controlplane_api/app.py:155-169 | with no configured token, for OPTIONS and for /health every request passes; otherwise a request passes exactly when its credential equals the token, and a refusal is always 401 with `WWW-Authenticate: Bearer` |
| Auth.ConfiguredBearerPasses | apps/controlplane-api/controlplane_api/app.py:155-169 | a client sending the configured token as a bearer header is let through |
| Auth.AnonymousIsDenied | apps/controlplane-api/controlplane_api/app.py:155-169 | a request with no credential is refused on every guarded route |
| Auth.WebSocketGate | apps/controlplane-api/controlplane_api/app.py:121-131 | the socket is closed with 4401, a private-use code (section 7.4.2 of RFC 6455), exactly when a token is configured and the resolved credential differs; otherwise the relay uses the token-rewritten upstream URL and sends `Authorization` exactly when there is an upstream token |
| Auth.AccessTokenOpensSocket | apps/controlplane-api/controlplane_api/app.py:121-124 | an `access_token` query parameter equal to the configured token opens the socket |
| ClownPeanuts.NewAdapter | adapters/clownpeanuts/client.py:11-19 | the base URL is the given one with trailing `/`s removed; the token is the given one stripped, "" when absent |
| ClownPeanuts.NewAdapterIdempotent | adapters/clownpeanuts/client.py:18-19 | normalising an already normalised adapter changes nothing |
| ClownPeanuts.Headers | adapters/clownpeanuts/client.py:22-28 | `Authorization: Bearer <token>` appears exactly when there is a token, and `Content-Type` exactly when a non-empty one is given; no other header is sent |
| ClownPeanuts.RequestUrl | adapters/clownpeanuts/client.py:38 | the URL is the base, one `/`, then the path with its leading `/`s removed (a suffix of the path preceded only by `/`s and not starting with one) |
| ClownPeanuts.StatusUrl | adapters/clownpeanuts/client.py:53-54 | the status call goes to `<base>/status` |
| ClownPeanuts.RequestUrlIgnoresLeadingSlash | adapters/clownpeanuts/client.py:38 | a leading `/` on the path makes no difference |
| ClownPeanuts.ProxyUrl | adapters/clownpeanuts/client.py:65-67 | the query string is appended after `?` exactly when it is non-empty |
| ClownPeanuts.JsonRequest | adapters/clownpeanuts/client.py:38-46 | the method is upper-cased, the URL is the joined one, and the headers are the adapter's without a content type: the bearer header exactly when there is a token, never a `Content-Type` |
| ClownPeanuts.StatusRequest | adapters/clownpeanuts/client.py:53-54 | the status call is `GET <base>/status` |
| ClownPeanuts.ProxyRequest | adapters/clownpeanuts/client.py:65-75 | the proxied request has the upper-cased method, the proxy URL, the body unchanged and the headers for the given content type |
| ClownPeanuts.RequestJson | adapters/clownpeanuts/client.py:47-51 | a non-2xx status raises with that status; an undecodable 2xx body raises with its decode error |
| ClownPeanuts.RequestJsonKeepsBody | adapters/clownpeanuts/client.py:48-51 | a decoded 2xx body is always returned: an object as itself, anything else as the only key `payload` |
| ClownPeanuts.ProxyResult | adapters/clownpeanuts/client.py:77-78 | status and body are passed through unchanged, with exactly one header: the upstream `content-type`, or "application/json" |
| Config.ParseIntEnv | apps/controlplane-api/controlplane_api/config.py:8-15 | an unset variable, or one `int()` refuses, gives the default; otherwise the variable's integer value |
| Config.ParseIntEnvOfDecimal | apps/controlplane-api/controlplane_api/config.py:8-15 | a variable holding the decimal text of a number gives that number, whatever the default |
| Config.ParseIntEnvOfBlank | apps/controlplane-api/controlplane_api/config.py:12-15 | a blank variable gives the default |
| Config.ParseOrigins | apps/controlplane-api/controlplane_api/config.py:16-18 | every origin is non-empty, trimmed and free of commas, and the origins are exactly the non-empty stripped comma-separated pieces |
| Config.NonEmpty | apps/controlplane-api/controlplane_api/config.py:18 | the kept items are exactly the non-empty ones |
| Config.NonEmptyAppend | apps/controlplane-api/controlplane_api/config.py:18 | filtering distributes over concatenation and keeps a single non-empty item, so the kept items stay in input order |
| Config.ParseOriginsOfPieces | apps/controlplane-api/controlplane_api/config.py:16-18 | comma-joined pieces, spaced or not, read back as the stripped pieces without the blank ones, in order |
| Config.ParseOriginsOfSpacedPair | apps/controlplane-api/controlplane_api/config.py:16-18 | `"a, b"` with a space after the comma gives `[a, b]` |
| Config.ParseOriginsOfEmpty | apps/controlplane-api/controlplane_api/config.py:16-18 | an empty variable gives no origins |
| Config.ParseOriginsOfJoin | apps/controlplane-api/controlplane_api/config.py:16-18 | a list of clean origins written comma-separated is read back as the same list, in order |
| Config.WsToken | apps/controlplane-api/controlplane_api/config.py:69-72 | the upstream WebSocket token is its own variable, trimmed, when that is non-blank; otherwise the trimmed API token |
| Config.WsTokenFallsBack | apps/controlplane-api/controlplane_api/config.py:69-72 | a blank WebSocket token falls back to the API token |
| Config.PythonBin | apps/controlplane-api/controlplane_api/config.py:80 | the interpreter is absent exactly when its variable is unset or blank; otherwise it is the variable stripped, non-empty |
| Config.LoadSettings | apps/controlplane-api/controlplane_api/config.py:48-106 | the tokens, the API base and the WebSocket URLs are their variables (or the documented defaults) stripped; the WebSocket token and interpreter follow `WsToken` and `PythonBin`; the three integers are parsed with their defaults; the origins are parsed from their variable or the default list and are clean |
| Config.DefaultSettings | apps/controlplane-api/controlplane_api/config.py:48-106 | with an empty environment: no tokens, no API authentication, no interpreter, and limits of 120 s, 20 s and 900 s |
| Orchestration.GitOutput | apps/controlplane-api/controlplane_api/orchestration.py:28-37 | a git query succeeds exactly with exit code 0 and yields its trimmed stdout; a failed run's error text is trimmed too |
| Orchestration.RepoStatusOf | apps/controlplane-api/controlplane_api/orchestration.py:40-66 | a path is present unless it does not exist, and is a git checkout exactly when `.git` exists; git details are given only for a checkout |
| Orchestration.GitDetailsOf | apps/controlplane-api/controlplane_api/orchestration.py:46-66 | an error is reported exactly when one of the four git queries fails, and it is the error of the first query that fails, in the order branch, commit, commit time, porcelain; otherwise branch, commit and commit time are the trimmed outputs, and the checkout is dirty exactly when the porcelain status prints something |
| Orchestration.CombineOutput | apps/controlplane-api/controlplane_api/orchestration.py:91 | the stripped stdout and stderr are joined by one newline, and an empty part is left out |
| Orchestration.CombinedIsTrimmed | apps/controlplane-api/controlplane_api/orchestration.py:91 | the combined output never starts or ends with whitespace |
| Orchestration.TrimOutputWithin | apps/controlplane-api/controlplane_api/orchestration.py:90-94 | output within the limit is kept whole; longer output is cut at the limit and marked `\n... (truncated)` |
| Orchestration.TrimOutputBounds | apps/controlplane-api/controlplane_api/orchestration.py:90-94 | the stored output is at most 12000 characters plus the marker, and keeps the first 12000 characters of the combined output |
| Orchestration.SynthesizeResult | apps/controlplane-api/controlplane_api/orchestration.py:105-146 | a missing script gives 127 and "missing script: …"; a timeout gives 124 and the timeout text; otherwise the script's own exit code and trimmed output; the run is ok exactly when it finished with code 0 |
| Orchestration.OkMeansExitZero | apps/controlplane-api/controlplane_api/orchestration.py:105-146 | a run reported ok really finished with exit code 0 |
| Orchestration.ResultJson | apps/controlplane-api/controlplane_api/orchestration.py:128-136 | a stored result has exactly its seven keys |
| Orchestration.LoadActionState | apps/controlplane-api/controlplane_api/orchestration.py:69-82 | the state always has exactly the three action names; all are null unless the file holds a JSON object, in which case each is that object's entry; other entries are dropped |
| Orchestration.SaveThenLoad | apps/controlplane-api/controlplane_api/orchestration.py:148-150 | saving a state with one action replaced and loading it back changes that action's entry only |
| Orchestration.SaveUnknownActionIsLost | apps/controlplane-api/controlplane_api/orchestration.py:148-150 | an entry stored under a name other than the three actions is never read back |
| Orchestration.ActionStore.LastActions | apps/controlplane-api/controlplane_api/orchestration.py:69-82 | the last actions a reader sees always name exactly the three actions |
| Orchestration.ActionStore.RunAction | apps/controlplane-api/controlplane_api/orchestration.py:97-151 | returns the synthesised result and rewrites the state file with that result under the action's name; for the three actions, only that entry changes |
| Orchestration.JoinPath | apps/controlplane-api/controlplane_api/orchestration.py:172 | `root / name` is the name itself when the name is absolute, else root, `/`, name |
| Orchestration.EntryName | apps/controlplane-api/controlplane_api/orchestration.py:164 | a project name is `str()` of a truthy `name` stripped (the text stripped for a string), and empty for a falsy or absent one |
| Orchestration.EntryPath | apps/controlplane-api/controlplane_api/orchestration.py:168-172 | the path is a non-blank `local_path` string, else the workspace root joined with the name |
| Orchestration.ProjectOf | apps/controlplane-api/controlplane_api/orchestration.py:161-185 | an entry yields a project exactly when it is a mapping with a non-blank name; the project has that name, its path and the status of that path; `role`, `repo` and `verification_key` are `str(value or "")` of the entry's fields, and `dashboard` and `capabilities` are the entry's dicts or `{}` |
| Orchestration.Projects | apps/controlplane-api/controlplane_api/orchestration.py:160-187 | there are never more projects than entries; every project has a non-empty trimmed name and a well-formed status |
| Orchestration.ProjectsAppend | apps/controlplane-api/controlplane_api/orchestration.py:160-187 | the projects of two entry lists in a row are those of the first followed by those of the second, so projects keep the configuration's order |
| Orchestration.SkippedEntry | apps/controlplane-api/controlplane_api/orchestration.py:162-166 | an entry that is not a mapping, or has a blank name, contributes nothing |
| Orchestration.ConfiguredEntries | apps/controlplane-api/controlplane_api/orchestration.py:155-158 | the entries are the `projects` list of the YAML mapping; a missing file, a non-mapping or no list gives none |
| Orchestration.BuildProjectsSummary | apps/controlplane-api/controlplane_api/orchestration.py:154-187 | the loop builds exactly the projects of the configured entries, in order |
| Orchestration.OrchestrationSummary | apps/controlplane-api/controlplane_api/orchestration.py:190-210 | the projects are the ones given; the dirty and missing lists hold exactly the names of the dirty and of the missing projects, in project order; each count is its list's length; the last actions are the loaded state; each action's command is bash, its script and the workspace |
| Orchestration.DirtyNames | apps/controlplane-api/controlplane_api/orchestration.py:192 | a name is listed exactly when some project with that name is dirty |
| Orchestration.MissingNames | apps/controlplane-api/controlplane_api/orchestration.py:193 | a name is listed exactly when some project with that name is missing |
| Orchestration.NamesAppend | apps/controlplane-api/controlplane_api/orchestration.py:192-193 | the two name lists of consecutive projects are concatenations, and one project contributes its name exactly when it is dirty (missing): the lists keep project order |
| Orchestration.DirtyAndMissingDisjoint | apps/controlplane-api/controlplane_api/orchestration.py:192-193 | no repository is counted both dirty and missing, so the two counts together never exceed the number of projects |
| Orchestration.NoMissingMeansAllPresent | apps/controlplane-api/controlplane_api/orchestration.py:193 | no repository is listed missing exactly when every project's path exists |
| Orchestration.CommandsMatchRuns | apps/controlplane-api/controlplane_api/orchestration.py:205-209 | for each of the three actions, the summary's command is the command a run of that action with its own script records |
| Routes.DeceptionOf | apps/controlplane-api/controlplane_api/app.py:181-186 | the deception part is ok exactly when the status call succeeded; otherwise it carries an empty status and the error text |
| Routes.NormalizeFindings | apps/controlplane-api/controlplane_api/app.py:194-200 | a failed findings reply keeps only its errors, with count 0 and no findings; a successful one is kept as is |
| Routes.NormalizeFindingsIdempotent | apps/controlplane-api/controlplane_api/app.py:194-200 | normalising twice is normalising once |
| Routes.OverallOk | apps/controlplane-api/controlplane_api/app.py:203 | healthy only when the deception call succeeded, the sentry summary is ok and no repository is missing, and unhealthy whenever one of these fails |
| Routes.OverviewOf | apps/controlplane-api/controlplane_api/app.py:180-212 | `overall_ok` holds exactly when the deception call succeeded, the sentry summary is ok and no repository is missing |
| Routes.OverallOkMeansAllReposPresent | apps/controlplane-api/controlplane_api/app.py:203 | for the configured projects, the overview is healthy exactly when deception and sentry are up and every repository path exists |
| Routes.OverviewFindingsQuery | apps/controlplane-api/controlplane_api/app.py:189-193 | the overview's findings query filters on false positives and acknowledged findings only, with limit 5 |
| Routes.FindingsErrorStatus | apps/controlplane-api/controlplane_api/app.py:232-234 | a failed findings reply is 400 exactly when its joined, lower-cased errors mention "invalid severity", else 502 |
| Routes.FindingsReply | apps/controlplane-api/controlplane_api/app.py:231-236 | a successful reply is served; a failed one is an HTTP error carrying its errors |
| Routes.RunsReply | apps/controlplane-api/controlplane_api/app.py:249-251 | a failed agent-runs reply is always 502 |
| Routes.InvalidSeverityIsClientError | apps/controlplane-api/controlplane_api/app.py:233-234 | the adapter's invalid-severity message is always answered with 400 |
| Routes.DeceptionProxy | apps/controlplane-api/controlplane_api/app.py:309-336 | a stripped path starting with `ws/` is refused with 405 before any upstream call; an upstream exception gives 502 with its text; otherwise status and body are passed on, with `content-type` forwarded exactly when it is non-empty |
| Routes.WebSocketPathNeverProxied | apps/controlplane-api/controlplane_api/app.py:310-315 | for a `ws/` path the reply does not depend on the upstream at all |
| Routes.ProxyThroughAdapterHasContentType | apps/controlplane-api/controlplane_api/app.py:331-334 | through the ClownPeanuts adapter a `content-type` is always forwarded, unless the upstream sent an empty one |
| DashboardApi.ControlPlaneBase | apps/controlplane-dashboard/app/lib/api.ts:1 | the control-plane base is its variable when defined, else `http://127.0.0.1:8199` |
| DashboardApi.ControlPlaneWsBase | apps/controlplane-dashboard/app/lib/api.ts:2 | the control-plane WebSocket base is its variable when defined, else `ws://127.0.0.1:8199` |
| DashboardApi.ApiBase | apps/controlplane-dashboard/app/lib/api.ts:3-6 | the deception REST base is the deception variable, else the ClownPeanuts variable, else the control plane's `/deception` proxy |
| DashboardApi.WsBase | apps/controlplane-dashboard/app/lib/api.ts:7-10 | the events WebSocket is the deception variable, else the ClownPeanuts variable, else the control plane's `/deception/ws/events` |
| DashboardApi.WsTheaterBase | apps/controlplane-dashboard/app/lib/api.ts:11-14 | the theater WebSocket is the deception variable, else the ClownPeanuts variable, else the control plane's `/deception/ws/theater/live` |
| DashboardApi.FirstDefined | apps/controlplane-dashboard/app/lib/api.ts:3-6 | `??` picks the first name that is defined, even when its value is empty |
| DashboardApi.FirstDefinedPicksFirst | apps/controlplane-dashboard/app/lib/api.ts:3-28 | the first defined variable is chosen, whatever the later ones hold |
| DashboardApi.FirstDefinedFallback | apps/controlplane-dashboard/app/lib/api.ts:3-28 | with none of the variables defined, the fallback is used |
| DashboardApi.FirstDefinedChoice | apps/controlplane-dashboard/app/lib/api.ts:3-28 | `??` chains give the value of the first defined variable, or the fallback when none is defined |
| DashboardApi.ApiAuthToken | apps/controlplane-dashboard/app/lib/api.ts:15-20 | the REST token is the first defined of the control-plane, deception and ClownPeanuts API token variables, stripped (even when that one is blank), and "" when none is defined |
| DashboardApi.WsAuthToken | apps/controlplane-dashboard/app/lib/api.ts:21-28 | the WebSocket token is the first defined of the control-plane token, the two WebSocket token variables and the two API token variables, in that order, stripped, and "" when none is defined |
| DashboardApi.BlankControlPlaneTokenWins | apps/controlplane-dashboard/app/lib/api.ts:15-28 | a defined but blank control-plane token makes both tokens empty, hiding every later variable |
| DashboardApi.WsTokenPrefersWsVariable | apps/controlplane-dashboard/app/lib/api.ts:21-28 | without the control-plane token, the ClownPeanuts WebSocket variable wins over the API tokens |
| DashboardApi.AuthHeaders | apps/controlplane-dashboard/app/lib/api.ts:30-36 | the caller's headers are kept unchanged; `Authorization: Bearer <token>` is added exactly when there is a token and neither `Authorization` nor `X-API-Key` is present |
| DashboardApi.WithApiAuthHeaders | apps/controlplane-dashboard/app/lib/api.ts:30-36 | copying the headers and setting the header conditionally gives exactly the merged headers above |
| DashboardApi.AuthHeadersIdempotent | apps/controlplane-dashboard/app/lib/api.ts:30-36 | adding the header twice is adding it once |
| DashboardApi.WithHeaders | apps/controlplane-dashboard/app/lib/api.ts:39-40 | the options are copied with only their headers replaced |
| DashboardApi.ApiFetch | apps/controlplane-dashboard/app/lib/api.ts:38-42 | the URL is used as given, and the other options are kept; the headers are the caller's plus the REST bearer header |
| DashboardApi.SetParam | apps/controlplane-dashboard/app/lib/api.ts:51 | after `set`, the name has the given value and every other name keeps its value; a new name is appended at the end |
| DashboardApi.WithApiTokenQuery | apps/controlplane-dashboard/app/lib/api.ts:44-57 | without a token, for an unparsable URL, or for a URL already carrying `token`, the URL is returned unchanged; otherwise only its search part changes |
| DashboardApi.WithApiTokenQueryToken | apps/controlplane-dashboard/app/lib/api.ts:44-57 | with a token, a parsed URL ends up with a `token` parameter (the WebSocket token if it had none, its own otherwise), and every other parameter is untouched |
| DashboardApi.WithApiTokenQueryIdempotent | apps/controlplane-dashboard/app/lib/api.ts:44-57 | rewriting twice is rewriting once |
| DashboardApi.SetAllValue | apps/controlplane-dashboard/app/lib/api.ts:62-64 | after the updates, every updated name holds the value it was set to last, and every other name its old value |
| DashboardApi.WithQueryParams | apps/controlplane-dashboard/app/lib/api.ts:59-69 | the loop sets each entry on a parsed URL in turn; an unparsable URL is returned as it was |
| DashboardControlPlane.ControlPlaneToken | apps/controlplane-dashboard/app/lib/controlplane.ts:2 | the control plane's token is its variable stripped when defined, and empty when unset |
| DashboardControlPlane.ControlPlaneTokenIsApiToken | apps/controlplane-dashboard/app/lib/controlplane.ts:2 | when its variable is defined, the control plane's token equals both of the deception client's tokens |
| DashboardControlPlane.NormalizePath | apps/controlplane-dashboard/app/lib/controlplane.ts:13 | the path always starts with `/`: it is kept when it already does, else `/` is prefixed |
| DashboardControlPlane.NormalizePathIdempotent | apps/controlplane-dashboard/app/lib/controlplane.ts:13 | normalising twice is normalising once |
| DashboardControlPlane.ControlPlaneFetch | apps/controlplane-dashboard/app/lib/controlplane.ts:12-17 | the URL is the base followed by the normalised path, and the other options are kept; the headers are the caller's plus the control plane's bearer header |
| DashboardControlPlane.ControlPlaneFetchIgnoresMissingSlash | apps/controlplane-dashboard/app/lib/controlplane.ts:12-17 | a path with or without its leading `/` reaches the same URL with the same options |
| DashboardControlPlane.ApiKeyHeaderSuppressesBearer | apps/controlplane-dashboard/app/lib/controlplane.ts:4-10 | an `X-API-Key` set by the caller keeps the token out of the request, and the headers are exactly the caller's |
| TopbarNav.Matches | apps/controlplane-dashboard/app/components/topbar-nav.tsx:17-37 | a link is highlighted only under its own href, except that Overview also matches `/` and Theater also matches `/theater` |
| TopbarNav.EachItemMatchesItsHref | apps/controlplane-dashboard/app/components/topbar-nav.tsx:13-39 | every link is highlighted on its own page |
| TopbarNav.DeceptionOrTheater | apps/controlplane-dashboard/app/components/topbar-nav.tsx:22-27 | under `/deception`, exactly one of Deception and Theater is highlighted |
| TopbarNav.AtMostOneActive | apps/controlplane-dashboard/app/components/topbar-nav.tsx:13-39 | no page highlights two different links |

## Left out

- Whitespace and case are ASCII only. `Text.Strip` removes space and `\t`–`\r`, whereas Python's
  `str.strip` and JavaScript's `trim` also remove `\x1c`–`\x1f` and Unicode spaces.
  `Text.Lower` and `Text.Upper` map only A–Z. `int()` on text accepts ASCII digits only.
- Python's `str()` of a finite float, a list or a dict is not rendered. It appears as the
  marker text "<repr>", in `learning_status` and the project fields; integers, booleans and
  `None` are rendered as Python does. The float
  values of JSON are exact reals, not IEEE doubles.
- The parsers of the standard library are inputs, not models: `json.loads`, `yaml.safe_load`,
  `urlsplit`/`parse_qsl`/`urlencode`, the browser's `URL` and `URLSearchParams.toString`. A URL
  is modelled parsed, as parts and an ordered parameter list, so re-serialisation is not
  modelled.
- A YAML syntax error in the projects file propagates out of `_load_yaml`. The model treats the
  file only as absent or parsed.
- Filesystem paths are opaque text: `Path.expanduser`, `resolve()` and the default path
  settings of `load_settings` are left out. `Orchestration.JoinPath` only distinguishes absolute
  names.
- Subprocesses, SQLite, HTTP and the clock are inputs. This covers:
  - git, the action scripts and the PingTing CLI;
  - the SQLite database and `sqlite3.Row` conversion (the rows are returned as given);
  - the HTTP exchanges of the ClownPeanuts adapter;
  - `time.time()`, with the file's age given as an optional real;
  - `_now_iso`, with the timestamps given as text.
- PingTing's `_resolve_python_bin` (the `.venv` and `PATH` lookup) and the CLI's argument list
  are not modelled. They only choose the program to start, which is an input here.
- A script that cannot be started at all, for example with no `bash`, raises out of
  `run_action`; only the missing-script and timeout cases are modelled. Errors while saving the
  action state are not modelled either.
- The text of an exception (`str(exc)`) is an input.
- The WebSocket relay's message pump and its 1011 close on upstream failure are not modelled;
  only the gate before it is. Async execution and `asyncio.to_thread` concurrency are not
  modelled, and each action run is one atomic step.
- CORS middleware, `create_app` wiring, the `/health` route, FastAPI's 422 validation of query
  parameters and the React rendering of the top bar are not modelled. The `menuOpen` state and
  the labels only decorate the view.
- `Object.entries` order is the order of the given update list.
- DashboardApi.AuthHeaders: header names are taken as already lower-cased. The browser's
  `Headers` folds names to lower case itself; the model does not, so a caller's
  `Authorization` spelled with capitals would not be recognised.
- DashboardApi.WithApiAuthHeaders: takes the REST token as a parameter instead of reading the
  module-level constant. `DashboardApi.ApiFetch` ties it to `ApiAuthToken` of the environment.
- PingTing.ComputeHighlights: has no contract of its own. Its fields are stated by
  `PingTing.HighlightsFields` and its companion lemmas.
- PingTing.LoadStatusSummary: builds its highlights with the corrected `_safe_int`
  (`PingTing.ComputeHighlights` over `PingTing.SafeInt`). For a payload holding an infinite count
  the model returns a summary, whereas `_highlights` as written raises `OverflowError` out of
  `load_status_summary`; that behaviour is modelled separately by `PingTing.HighlightsAsWritten`
  (see "## Findings").
- ClownPeanuts.JsonRequest: the optional `params` and `json_body` arguments of `request_json`
  are not modelled; its one caller, `status`, passes neither.
- PingTing.LoadStatusSummary: the "unable to load pingting status" default error cannot arise,
  because a missing snapshot always follows a failed CLI run, which adds its error. The
  contract states that the errors are exactly that one CLI error.

## Findings

| source | as written | input that shows it | evidently intended | confidence | as-written member | corrected member |
|---|---|---|---|---|---|---|
| adapters/pingting/client.py:20-24 | `_safe_int` catches only `TypeError` and `ValueError`, but `int()` of an infinite float raises `OverflowError`, so `_highlights` (and the status summary that calls it) raises | a status payload `{"findings_total": Infinity}` (or `1e400`), which `json.loads` reads as `inf` | every unconvertible value becomes 0, so the highlight projection never raises | not executed | PingTing.HighlightsAsWrittenRaises | PingTing.SafeIntAgreesWhereWrittenReturns |
