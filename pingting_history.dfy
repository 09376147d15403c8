/** The PingTing history readers: parameter normalisation and the WHERE clauses and bind
  * parameters of the findings and agent-runs queries, with the early error returns taken before
  * the database is touched. The database itself is an input: a missing file, a failing query
  * (the exception text), or the rows it returned. */
module PingTingHistory {
  import opened Wrappers
  import opened Text
  import opened Json

  const MaxLimit := 200

  /** max(1, min(limit, 200)). */
  function ClampLimit(limit: int): (n: int)
    ensures 1 <= n <= MaxLimit
    ensures 1 <= limit <= MaxLimit ==> n == limit
    ensures limit < 1 ==> n == 1
    ensures limit > MaxLimit ==> n == MaxLimit
  {
    if limit < 1 then 1 else if limit > MaxLimit then MaxLimit else limit
  }

  /** A value bound to one `?` of the query. */
  datatype SqlParam = TextParam(text: string) | IntParam(n: int)

  /** The WHERE conditions the two queries can use. */
  datatype Clause = FalsePositive | Severity | Acknowledged | Learning | Agent | Status {
    /** The condition's text in the query. */
    function Text(): string {
      match this
      case FalsePositive => "false_positive = 0"
      case Severity => "severity = ?"
      case Acknowledged => "acknowledged = 0"
      case Learning => "during_learning = 0"
      case Agent => "agent = ?"
      case Status => "status = ?"
    }

    /** Whether the condition has a `?` placeholder. */
    predicate Binds() {
      this == Severity || this == Agent || this == Status
    }
  }

  /** The WHERE clauses, joined with " AND " in the query text, and the bind parameters in order;
    * the last parameter always fills `LIMIT ?`. */
  datatype Query = Query(whereClauses: seq<Clause>, params: seq<SqlParam>)

  /** Number of clauses with a placeholder. */
  function Placeholders(clauses: seq<Clause>): nat {
    if clauses == [] then 0
    else Placeholders(clauses[..|clauses| - 1]) + (if clauses[|clauses| - 1].Binds() then 1 else 0)
  }

  lemma PlaceholdersAppend(clauses: seq<Clause>, clause: Clause)
    ensures Placeholders(clauses + [clause]) == Placeholders(clauses) + (if clause.Binds() then 1 else 0)
  {
    assert (clauses + [clause])[..|clauses|] == clauses;
  }

  /** The clause when the condition holds, else nothing. */
  function When(condition: bool, clause: Clause): (r: seq<Clause>)
    ensures |r| <= 1
  {
    if condition then [clause] else []
  }

  lemma PlaceholdersWhen(clauses: seq<Clause>, condition: bool, clause: Clause)
    ensures Placeholders(clauses + When(condition, clause)) ==
              Placeholders(clauses) + (if condition && clause.Binds() then 1 else 0)
  {
    if condition {
      PlaceholdersAppend(clauses, clause);
    } else {
      assert clauses + [] == clauses;
    }
  }

  /** Every placeholder of the query text has exactly one bind parameter: one per `= ?` clause plus
    * the trailing LIMIT. */
  predicate WellBound(q: Query) {
    Placeholders(q.whereClauses) + 1 == |q.params|
  }

  /** `(value or "").strip()`. */
  function Trimmed(value: Option<string>): (r: string)
    ensures IsTrimmed(r)
  {
    Strip(value.GetOr(""))
  }

  /** `(value or "").strip().lower()`. */
  function TrimmedLower(value: Option<string>): (r: string)
    ensures |r| == |Trimmed(value)|
  {
    Lower(Trimmed(value))
  }

  /** The severities a findings filter may name. */
  predicate IsSeverity(s: string) {
    s == "low" || s == "medium" || s == "high" || s == "critical"
  }


  // ================================================================ load_recent_findings

  /** The severity filter after `(severity or "").strip().lower()`: none, a valid severity, or the
    * "invalid severity" error. */
  function SeverityFilter(severity: Option<string>): (r: Result<Option<string>, string>)
    ensures r.Success? && r.value.None? <==> TrimmedLower(severity) == []
    ensures r.Success? && r.value.Some? <==> IsSeverity(TrimmedLower(severity))
    ensures r.Success? && r.value.Some? ==> r.value.value == TrimmedLower(severity)
    ensures r.Failure? <==> TrimmedLower(severity) != [] && !IsSeverity(TrimmedLower(severity))
    ensures r.Failure? ==> r.error == "invalid severity: " + TrimmedLower(severity)
  {
    var sev := TrimmedLower(severity);
    if sev == [] then Success(None)
    else if IsSeverity(sev) then Success(Some(sev))
    else Failure("invalid severity: " + sev)
  }

  method BuildFindingsQuery(limit: int, severity: Option<string>, includeAcknowledged: bool, includeLearning: bool)
    returns (r: Result<Query, string>)
    ensures r.Failure? <==> SeverityFilter(severity).Failure?
    ensures r.Failure? ==> r.error == SeverityFilter(severity).error
    ensures r.Success? ==> r.value == FindingsQuery(SeverityFilter(severity).value, includeAcknowledged, includeLearning, ClampLimit(limit))
    ensures r.Success? ==> WellBound(r.value) && r.value.params[|r.value.params| - 1] == IntParam(ClampLimit(limit))
  {
    var normalizedLimit := ClampLimit(limit);
    var filter := SeverityFilter(severity);
    if filter.Failure? {
      return Failure(filter.error);
    }
    var q := AppendFindingsFilters(filter.value, includeAcknowledged, includeLearning, normalizedLimit);
    r := Success(q);
  }

  /** The query of a validated findings request. */
  function FindingsQuery(severity: Option<string>, includeAcknowledged: bool, includeLearning: bool, limit: int): Query {
    Query(
      [FalsePositive] + When(severity.Some?, Severity) + When(!includeAcknowledged, Acknowledged) + When(!includeLearning, Learning),
      (if severity.Some? then [TextParam(severity.value)] else []) + [IntParam(limit)])
  }

  /** false_positive = 0 is always the first condition; the acknowledged and learning conditions
    * appear exactly when their flag is off, and the severity condition exactly when one was given. */
  lemma FindingsQueryClauses(severity: Option<string>, includeAcknowledged: bool, includeLearning: bool, limit: int)
    ensures var clauses := FindingsQuery(severity, includeAcknowledged, includeLearning, limit).whereClauses;
      && clauses[0] == FalsePositive
      && (Severity in clauses <==> severity.Some?)
      && (Acknowledged in clauses <==> !includeAcknowledged)
      && (Learning in clauses <==> !includeLearning)
  {
    var a, b, c := When(severity.Some?, Severity), When(!includeAcknowledged, Acknowledged), When(!includeLearning, Learning);
    var clauses := [FalsePositive] + a + b + c;
    assert clauses == FindingsQuery(severity, includeAcknowledged, includeLearning, limit).whereClauses;
    assert Severity in clauses <==> Severity in a;
    assert Acknowledged in clauses <==> Acknowledged in b;
    assert Learning in clauses <==> Learning in c;
  }

  /** Each `?` of a findings query has its parameter. */
  lemma FindingsQueryWellBound(severity: Option<string>, includeAcknowledged: bool, includeLearning: bool, limit: int)
    ensures WellBound(FindingsQuery(severity, includeAcknowledged, includeLearning, limit))
  {
    var a, b, c := When(severity.Some?, Severity), When(!includeAcknowledged, Acknowledged), When(!includeLearning, Learning);
    assert Placeholders([FalsePositive]) == 0 by {
      assert [FalsePositive][..0] == [];
    }
    PlaceholdersWhen([FalsePositive], severity.Some?, Severity);
    PlaceholdersWhen([FalsePositive] + a, !includeAcknowledged, Acknowledged);
    PlaceholdersWhen([FalsePositive] + a + b, !includeLearning, Learning);
  }

  /** The appends of load_recent_findings once the severity is validated. */
  method AppendFindingsFilters(severity: Option<string>, includeAcknowledged: bool, includeLearning: bool, limit: int)
    returns (q: Query)
    ensures q == FindingsQuery(severity, includeAcknowledged, includeLearning, limit)
    ensures WellBound(q)
    ensures q.whereClauses[0] == FalsePositive && q.params[|q.params| - 1] == IntParam(limit)
  {
    var whereClauses := [FalsePositive];
    var params: seq<SqlParam> := [];
    if severity.Some? {
      whereClauses := whereClauses + [Severity];
      params := params + [TextParam(severity.value)];
    }
    assert whereClauses == [FalsePositive] + When(severity.Some?, Severity);
    if !includeAcknowledged {
      whereClauses := whereClauses + [Acknowledged];
    }
    assert whereClauses == [FalsePositive] + When(severity.Some?, Severity) + When(!includeAcknowledged, Acknowledged);
    if !includeLearning {
      whereClauses := whereClauses + [Learning];
    }
    params := params + [IntParam(limit)];
    q := Query(whereClauses, params);
    FindingsQueryWellBound(severity, includeAcknowledged, includeLearning, limit);
  }

  /** What the database gave: no file at the path, an exception, or the fetched rows. */
  datatype Database = Missing | Failed(message: string) | Rows(rows: seq<map<string, Json>>)

  /** The reply of load_recent_findings / load_recent_agent_runs; `limit` is absent on errors. */
  datatype HistoryResult = HistoryResult(
    ok: bool, count: nat, limit: Option<int>, items: seq<map<string, Json>>, errors: seq<string>)

  function MissingDatabase(dbPath: string): HistoryResult {
    HistoryResult(false, 0, None, [], ["missing database file: " + dbPath])
  }

  /** load_recent_findings: `executed` is the query built for the database, if any; it is built
    * before the database file is looked for. */
  method LoadRecentFindings(
    limit: int, severity: Option<string>, includeAcknowledged: bool, includeLearning: bool,
    dbPath: string, db: Database)
    returns (result: HistoryResult, executed: Option<Query>)
    ensures SeverityFilter(severity).Failure? ==>
              executed.None? && result == HistoryResult(false, 0, None, [], [SeverityFilter(severity).error])
    ensures SeverityFilter(severity).Success? ==>
              executed == Some(FindingsQuery(SeverityFilter(severity).value, includeAcknowledged, includeLearning, ClampLimit(limit)))
    ensures executed.Some? ==> WellBound(executed.value) && executed.value.params[|executed.value.params| - 1] == IntParam(ClampLimit(limit))
    ensures result.ok <==> executed.Some? && db.Rows?
    ensures result.ok ==> result == HistoryResult(true, |db.rows|, Some(ClampLimit(limit)), db.rows, [])
    ensures !result.ok ==> result.count == 0 && result.items == [] && |result.errors| == 1 && result.limit.None?
    ensures executed.Some? && db.Missing? ==> result == MissingDatabase(dbPath)
    ensures executed.Some? && db.Failed? ==> result.errors == ["failed reading pingting findings: " + db.message]
  {
    var q := BuildFindingsQuery(limit, severity, includeAcknowledged, includeLearning);
    if q.Failure? {
      return HistoryResult(false, 0, None, [], [q.error]), None;
    }
    executed := Some(q.value);
    match db
    case Missing =>
      result := MissingDatabase(dbPath);
    case Failed(message) =>
      result := HistoryResult(false, 0, None, [], ["failed reading pingting findings: " + message]);
    case Rows(rows) =>
      result := HistoryResult(true, |rows|, Some(ClampLimit(limit)), rows, []);
  }

  // ================================================================ load_recent_agent_runs

  /** The query of an agent-runs request, over the normalised agent and status. */
  function RunsQuery(agent: string, status: string, limit: int): Query {
    Query(
      When(agent != [], Agent) + When(status != [], Status),
      (if agent != [] then [TextParam(agent)] else []) + (if status != [] then [TextParam(status)] else []) + [IntParam(limit)])
  }

  /** Each `?` of an agent-runs query has its parameter, the agent's before the status's, and the
    * limit comes last. */
  lemma RunsQueryWellBound(agent: string, status: string, limit: int)
    ensures var q := RunsQuery(agent, status, limit);
            && WellBound(q) && q.params[|q.params| - 1] == IntParam(limit)
            && (Agent in q.whereClauses <==> agent != []) && (Status in q.whereClauses <==> status != [])
  {
    assert Placeholders([]) == 0;
    PlaceholdersWhen([], agent != [], Agent);
    PlaceholdersWhen(When(agent != [], Agent), status != [], Status);
  }

  /** The filter part of load_recent_agent_runs: the agent is trimmed (case kept), the status
    * trimmed and lower-cased; an empty filter adds no clause. */
  method BuildRunsQuery(limit: int, agent: Option<string>, status: Option<string>) returns (q: Query)
    ensures q == RunsQuery(Trimmed(agent), TrimmedLower(status), ClampLimit(limit))
  {
    var normalizedLimit := ClampLimit(limit);
    var normalizedAgent := Trimmed(agent);
    var normalizedStatus := TrimmedLower(status);
    q := AppendRunsFilters(normalizedAgent, normalizedStatus, normalizedLimit);
  }

  /** The appends of load_recent_agent_runs over the normalised filters. */
  method AppendRunsFilters(agent: string, status: string, limit: int) returns (q: Query)
    ensures q == RunsQuery(agent, status, limit)
  {
    var whereClauses: seq<Clause> := [];
    var params: seq<SqlParam> := [];
    if agent != [] {
      whereClauses := whereClauses + [Agent];
      params := params + [TextParam(agent)];
    }
    if status != [] {
      whereClauses := whereClauses + [Status];
      params := params + [TextParam(status)];
    }
    params := params + [IntParam(limit)];
    q := Query(whereClauses, params);
  }

  /** load_recent_agent_runs: `executed` is the query built for the database. Conversion of the
    * fetched rows is not modelled: they are returned as given. */
  method LoadRecentAgentRuns(limit: int, agent: Option<string>, status: Option<string>, dbPath: string, db: Database)
    returns (result: HistoryResult, executed: Query)
    ensures executed == RunsQuery(Trimmed(agent), TrimmedLower(status), ClampLimit(limit))
    ensures WellBound(executed) && executed.params[|executed.params| - 1] == IntParam(ClampLimit(limit))
    ensures result.ok <==> db.Rows?
    ensures result.ok ==> result == HistoryResult(true, |db.rows|, Some(ClampLimit(limit)), db.rows, [])
    ensures db.Missing? ==> result == MissingDatabase(dbPath)
    ensures db.Failed? ==> result == HistoryResult(false, 0, None, [], ["failed reading pingting agent runs: " + db.message])
  {
    executed := BuildRunsQuery(limit, agent, status);
    RunsQueryWellBound(Trimmed(agent), TrimmedLower(status), ClampLimit(limit));
    match db
    case Missing =>
      result := MissingDatabase(dbPath);
    case Failed(message) =>
      result := HistoryResult(false, 0, None, [], ["failed reading pingting agent runs: " + message]);
    case Rows(rows) =>
      result := HistoryResult(true, |rows|, Some(ClampLimit(limit)), rows, []);
  }
}
