/** The decisions the control-plane API routes take on top of the adapters: the overview's overall
  * health, the normalisation of a failed findings reply, the HTTP status of a failed findings or
  * agent-runs reply, and the guard and header filter of the generic deception proxy. */
module Routes {
  import opened Wrappers
  import opened Text
  import opened Json
  import PingTing
  import PingTingHistory
  import Orchestration
  import ClownPeanuts

  // ---------------------------------------------------------------- overview

  /** The deception part of the overview: the upstream status, or the error text of the call. */
  datatype Deception = Deception(ok: bool, status: map<string, Json>, error: Option<string>)

  function DeceptionOf(reply: Result<map<string, Json>, string>): (d: Deception)
    ensures d.ok <==> reply.Success?
    ensures reply.Success? ==> d.status == reply.value && d.error.None?
    ensures reply.Failure? ==> d.status == map[] && d.error == Some(reply.error)
  {
    match reply
    case Success(status) => Deception(true, status, None)
    case Failure(error) => Deception(false, map[], Some(error))
  }

  /** A failed findings reply is reduced to ok false, count 0 and no findings, keeping its errors;
    * a successful one is passed on. */
  function NormalizeFindings(r: PingTingHistory.HistoryResult): (n: PingTingHistory.HistoryResult)
    ensures r.ok ==> n == r
    ensures !r.ok ==> !n.ok && n.count == 0 && n.items == [] && n.errors == r.errors
  {
    if r.ok then r else PingTingHistory.HistoryResult(false, 0, None, [], r.errors)
  }

  lemma NormalizeFindingsIdempotent(r: PingTingHistory.HistoryResult)
    ensures NormalizeFindings(NormalizeFindings(r)) == NormalizeFindings(r)
  {
  }

  /** overall_ok: the deception API answered, a PingTing snapshot was obtained, and no configured
    * repository is missing. */
  function OverallOk(deception: Deception, sentry: PingTing.StatusSummary, orchestration: Orchestration.Summary): (ok: bool)
    ensures ok ==> deception.ok && sentry.ok && orchestration.missingRepoCount == 0
    ensures !deception.ok || !sentry.ok || orchestration.missingRepoCount != 0 ==> !ok
  {
    deception.ok && sentry.ok && orchestration.missingRepoCount == 0
  }

  datatype Overview = Overview(
    overallOk: bool,
    deception: Deception,
    sentry: PingTing.StatusSummary,
    sentryFindings: PingTingHistory.HistoryResult,
    orchestration: Orchestration.Summary)

  /** The overview over the replies of its four sources. */
  function OverviewOf(deceptionReply: Result<map<string, Json>, string>, sentry: PingTing.StatusSummary,
                      findings: PingTingHistory.HistoryResult, orchestration: Orchestration.Summary): (o: Overview)
    ensures o.overallOk <==> deceptionReply.Success? && sentry.ok && orchestration.missingRepoCount == 0
    ensures o.sentryFindings == NormalizeFindings(findings)
    ensures o.deception == DeceptionOf(deceptionReply)
  {
    var deception := DeceptionOf(deceptionReply);
    Overview(OverallOk(deception, sentry, orchestration), deception, sentry, NormalizeFindings(findings), orchestration)
  }

  /** For a summary built from the configured projects, the overview is healthy exactly when the
    * deception API answered, PingTing's status is available and every repository path exists. */
  lemma OverallOkMeansAllReposPresent(deceptionReply: Result<map<string, Json>, string>, sentry: PingTing.StatusSummary,
                                      findings: PingTingHistory.HistoryResult, projects: seq<Orchestration.Project>,
                                      stateFile: Orchestration.StateFile, scripts: Orchestration.Scripts, root: string)
    ensures OverviewOf(deceptionReply, sentry, findings, Orchestration.OrchestrationSummary(projects, stateFile, scripts, root)).overallOk
            <==> deceptionReply.Success? && sentry.ok && forall k :: 0 <= k < |projects| ==> projects[k].status.present
  {
    Orchestration.NoMissingMeansAllPresent(projects);
  }

  /** The overview asks for the five newest findings, hides acknowledged ones and keeps learning
    * ones: its query filters on false_positive and acknowledged only. */
  lemma OverviewFindingsQuery()
    ensures PingTingHistory.SeverityFilter(None) == Success(None)
    ensures PingTingHistory.FindingsQuery(None, false, true, PingTingHistory.ClampLimit(5)) ==
              PingTingHistory.Query([PingTingHistory.FalsePositive, PingTingHistory.Acknowledged], [PingTingHistory.IntParam(5)])
  {
    assert PingTingHistory.Trimmed(None) == [];
  }

  // ---------------------------------------------------------------- history routes

  /** What a history route answers: the reply itself, or an HTTP error carrying its errors. */
  datatype RouteReply = Served(result: PingTingHistory.HistoryResult) | HttpError(status: int, errors: seq<string>)

  /** The error status of a failed findings reply: 400 when the errors, joined by spaces and
    * lower-cased, mention an invalid severity, else 502. */
  function FindingsErrorStatus(errors: seq<string>): (status: int)
    ensures status == 400 || status == 502
    ensures status == 400 <==> Contains(Lower(Join(errors, ' ')), "invalid severity")
  {
    if Contains(Lower(Join(errors, ' ')), "invalid severity") then 400 else 502
  }

  function FindingsReply(r: PingTingHistory.HistoryResult): (reply: RouteReply)
    ensures r.ok ==> reply == Served(r)
    ensures !r.ok ==> reply == HttpError(FindingsErrorStatus(r.errors), r.errors)
  {
    if r.ok then Served(r) else HttpError(FindingsErrorStatus(r.errors), r.errors)
  }

  /** A failed agent-runs reply is always a 502. */
  function RunsReply(r: PingTingHistory.HistoryResult): (reply: RouteReply)
    ensures r.ok ==> reply == Served(r)
    ensures !r.ok ==> reply == HttpError(502, r.errors)
  {
    if r.ok then Served(r) else HttpError(502, r.errors)
  }

  /** A severity the findings query refuses is reported as a client error (400). */
  lemma InvalidSeverityIsClientError(severity: Option<string>)
    requires PingTingHistory.SeverityFilter(severity).Failure?
    ensures FindingsErrorStatus([PingTingHistory.SeverityFilter(severity).error]) == 400
  {
    var sev := PingTingHistory.TrimmedLower(severity);
    var message := PingTingHistory.SeverityFilter(severity).error;
    assert message == "invalid severity: " + sev;
    assert Join([message], ' ') == message;
    var lowered := Lower(message);
    assert "invalid severity" <= lowered by {
      forall i | 0 <= i < 16 ensures lowered[i] == "invalid severity"[i] {
        assert message[i] == "invalid severity: "[i];
      }
    }
  }

  // ---------------------------------------------------------------- deception proxy

  /** What the upstream proxy call gives: status, headers and body, or the error text it raised. */
  type UpstreamCall = string -> Result<(int, map<string, string>, seq<ClownPeanuts.byte>), string>

  datatype ProxyReply =
    | Forwarded(status: int, headers: map<string, string>, content: seq<ClownPeanuts.byte>)
    | ProxyError(status: int, detail: string)

  const WebSocketRouteHint := "use websocket routes at /deception/ws/events or /deception/ws/theater/live"

  /** The generic deception proxy: a path starting with "ws/" is refused with 405 before any
    * upstream call; an upstream exception becomes 502; otherwise the upstream status and body are
    * returned with its content-type only, and only when that is non-empty. `call` performs the
    * upstream request for the stripped path. */
  function DeceptionProxy(targetPath: string, call: UpstreamCall): (r: ProxyReply)
    ensures StartsWith(Strip(targetPath), "ws/") ==> r == ProxyError(405, WebSocketRouteHint)
    ensures !StartsWith(Strip(targetPath), "ws/") && call(Strip(targetPath)).Failure? ==>
              r == ProxyError(502, "deception upstream error: " + call(Strip(targetPath)).error)
    ensures r.Forwarded? ==> r.headers.Keys <= {"content-type"}
    ensures !StartsWith(Strip(targetPath), "ws/") && call(Strip(targetPath)).Success? ==>
              var upstream := call(Strip(targetPath)).value;
              && r.Forwarded? && r.status == upstream.0 && r.content == upstream.2
              && ("content-type" in r.headers <==> "content-type" in upstream.1 && upstream.1["content-type"] != [])
              && ("content-type" in r.headers ==> r.headers["content-type"] == upstream.1["content-type"])
  {
    var path := Strip(targetPath);
    if StartsWith(path, "ws/") then ProxyError(405, WebSocketRouteHint)
    else match call(path)
      case Failure(error) => ProxyError(502, "deception upstream error: " + error)
      case Success(upstream) =>
        var (status, headers, content) := upstream;
        var contentType := if "content-type" in headers then headers["content-type"] else [];
        Forwarded(status, if contentType != [] then map["content-type" := contentType] else map[], content)
  }

  /** WebSocket paths never reach the upstream: the reply is the same whatever the call would do. */
  lemma WebSocketPathNeverProxied(targetPath: string, call1: UpstreamCall, call2: UpstreamCall)
    requires StartsWith(Strip(targetPath), "ws/")
    ensures DeceptionProxy(targetPath, call1) == DeceptionProxy(targetPath, call2)
  {
  }

  /** Through the ClownPeanuts adapter the proxy always forwards a content-type, unless the
    * upstream itself sent an empty one. */
  lemma ProxyThroughAdapterHasContentType(targetPath: string, replyOf: string -> ClownPeanuts.Reply)
    requires !StartsWith(Strip(targetPath), "ws/")
    requires var reply := replyOf(Strip(targetPath));
             !("content-type" in reply.headers && reply.headers["content-type"] == [])
    ensures var call: UpstreamCall := path => Success(ClownPeanuts.ProxyResult(replyOf(path)));
            var r := DeceptionProxy(targetPath, call);
            r.Forwarded? && "content-type" in r.headers
  {
    var call: UpstreamCall := path => Success(ClownPeanuts.ProxyResult(replyOf(path)));
    var upstream := ClownPeanuts.ProxyResult(replyOf(Strip(targetPath)));
    assert call(Strip(targetPath)) == Success(upstream);
    assert upstream.1["content-type"] != [];
  }
}
