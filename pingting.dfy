/** The PingTing status cache: a snapshot file reconciled against an on-demand CLI refresh, and the
  * fixed-shape highlights projected out of the untyped status payload.
  *
  * Everything the adapter reads from the outside is a parameter: the status file (twice, because
  * the forced-refresh path may read it again), the completed CLI process, and json.loads itself
  * (`loads`, which yields the parsed tree or the text of the JSONDecodeError). */
module PingTing {
  import opened Wrappers
  import opened Text
  import opened Json

  type Loads = string -> Result<Json, string>

  // ================================================================ _safe_int

  /** int(r) for a finite float: truncation toward zero. */
  function Truncate(r: real): (n: int)
    ensures r >= 0.0 ==> n as real <= r < n as real + 1.0
    ensures r < 0.0 ==> n as real - 1.0 < r <= n as real
  {
    if r >= 0.0 then r.Floor else -((-r).Floor)
  }

  /** What Python's int(value) does with a parsed JSON value. */
  datatype IntOutcome = Converted(n: int) | TypeError | ValueError | OverflowError

  /** int(float): truncation of a finite value; nan is a ValueError and the infinities an OverflowError. */
  function FloatToInt(f: Float): IntOutcome {
    match f
    case Finite(r) => Converted(Truncate(r))
    case NaN => ValueError
    case PosInf => OverflowError
    case NegInf => OverflowError
  }

  /** int(text): the value of the text, or a ValueError. */
  function TextToInt(s: string): IntOutcome {
    match ParseInt(s)
    case Some(n) => Converted(n)
    case None => ValueError
  }

  /** int(value) on a JSON value: None, lists and dicts raise TypeError, an infinity raises
    * OverflowError, nan and non-numeric text raise ValueError; booleans, integers, floats
    * (truncated) and integer text convert. */
  function PyInt(v: Json): (o: IntOutcome)
    ensures o.TypeError? <==> v.JNull? || v.JArray? || v.JObject?
    ensures o.OverflowError? <==> v == JFloat(PosInf) || v == JFloat(NegInf)
    ensures v.JInt? ==> o == Converted(v.i)
    ensures v.JBool? ==> o == Converted(if v.b then 1 else 0)
    ensures v.JStr? ==> (o.Converted? <==> ParseInt(v.s).Some?) && (o.Converted? ==> o.n == ParseInt(v.s).value)
  {
    match v
    case JNull => TypeError
    case JBool(b) => Converted(if b then 1 else 0)
    case JInt(i) => Converted(i)
    case JFloat(f) => FloatToInt(f)
    case JStr(s) => TextToInt(s)
    case JArray(_) => TypeError
    case JObject(_) => TypeError
  }

  /** _safe_int as written: TypeError and ValueError become 0, but the OverflowError of int(inf)
    * is not caught and escapes (None). */
  function SafeIntAsWritten(v: Json): (r: Option<int>)
    ensures r.None? <==> PyInt(v).OverflowError?
    ensures PyInt(v).Converted? ==> r == Some(PyInt(v).n)
    ensures PyInt(v).TypeError? || PyInt(v).ValueError? ==> r == Some(0)
  {
    match PyInt(v)
    case Converted(n) => Some(n)
    case TypeError => Some(0)
    case ValueError => Some(0)
    case OverflowError => None
  }

  /** _safe_int as intended: never fails; every failed conversion is 0. */
  function SafeInt(v: Json): (n: int)
    ensures PyInt(v).Converted? ==> n == PyInt(v).n
    ensures !PyInt(v).Converted? ==> n == 0
  {
    var outcome := PyInt(v);
    if outcome.Converted? then outcome.n else 0
  }

  /** The conversion escapes exactly for the two infinities. */
  lemma SafeIntAsWrittenFailsOnlyOnInfinity(v: Json)
    ensures SafeIntAsWritten(v).None? <==> v == JFloat(PosInf) || v == JFloat(NegInf)
  {
  }

  /** The counterexample: a status field holding Infinity (or 1e400) makes _safe_int raise. */
  lemma SafeIntAsWrittenRaisesOnInfinity()
    ensures SafeIntAsWritten(JFloat(PosInf)) == None
    ensures SafeInt(JFloat(PosInf)) == 0
  {
  }

  /** The corrected conversion agrees with the written one wherever that one returns. */
  lemma SafeIntAgreesWhereWrittenReturns(v: Json)
    ensures SafeIntAsWritten(v).Some? ==> SafeInt(v) == SafeIntAsWritten(v).value
    ensures SafeIntAsWritten(v).None? ==> SafeInt(v) == 0
  {
  }

  /** Decimal text converts to its value, negatives included: "-5" gives -5, so the counts are not
    * guaranteed to be non-negative. */
  lemma SafeIntOfDecimalText(n: int)
    ensures SafeInt(JStr(IntToString(n))) == n
  {
    ParseIntOfIntToString(n);
  }

  /** Values int() rejects become 0. */
  lemma SafeIntDefaults(items: seq<Json>, fields: map<string, Json>)
    ensures SafeInt(JNull) == 0 && SafeInt(JArray(items)) == 0 && SafeInt(JObject(fields)) == 0
    ensures SafeInt(JFloat(NaN)) == 0
  {
  }

  /** Blank text is not a number: int("") and int("  ") raise ValueError, so the count is 0. */
  lemma SafeIntOfBlankText(s: string)
    requires AllSpace(s)
    ensures SafeInt(JStr(s)) == 0
  {
    StripEmptyIff(s);
    assert ParseInt(s) == ParseSigned([]);
  }

  // ================================================================ _extract_json_payload

  /** The first '{' and the last '}' when the latter comes after the former. */
  function BraceSpan(text: string): (r: Option<(nat, nat)>)
    ensures r.Some? ==> r.value.0 < r.value.1 < |text|
    ensures r.Some? ==> text[r.value.0] == '{' && text[r.value.1] == '}'
    ensures r.Some? ==> forall k :: 0 <= k < r.value.0 ==> text[k] != '{'
    ensures r.Some? ==> forall k :: r.value.1 < k < |text| ==> text[k] != '}'
  {
    var start := IndexOf(text, '{');
    var end := LastIndexOf(text, '}');
    if start == -1 || end <= start then None else Some((start, end))
  }

  /** No span is found exactly when no '{' is followed, anywhere later, by a '}'. */
  lemma BraceSpanNone(text: string)
    ensures BraceSpan(text).None? <==> forall i, j :: 0 <= i < j < |text| && text[i] == '{' ==> text[j] != '}'
  {
    var start := IndexOf(text, '{');
    var end := LastIndexOf(text, '}');
    if BraceSpan(text).None? {
      forall i, j | 0 <= i < j < |text| && text[i] == '{' ensures text[j] != '}' {
        assert start != -1 && start <= i;
      }
    }
  }

  /** A parsed payload must be a dict. */
  function ObjectPayload(v: Json): (r: Result<map<string, Json>, string>)
    ensures r.Success? <==> v.JObject?
  {
    if v.JObject? then Success(v.fields) else Failure("status payload must be a JSON object")
  }

  /** _extract_json_payload: parse the stripped text (ParseStatusText); blank text is an error of its own. */
  function ExtractJsonPayload(raw: string, loads: Loads): (r: Result<map<string, Json>, string>)
    ensures Strip(raw) == [] <==> r == Failure("empty status payload") && AllSpace(raw)
    ensures Strip(raw) != [] ==> r == ParseStatusText(Strip(raw), loads)
  {
    StripEmptyIff(raw);
    var text := Strip(raw);
    if text == [] then Failure("empty status payload") else ParseStatusText(text, loads)
  }

  /** json.loads on non-blank text; if that fails, one retry on the slice from the first '{' to the
    * last '}'; the value must be an object. Errors are str(exception). */
  function ParseStatusText(text: string, loads: Loads): (r: Result<map<string, Json>, string>)
    ensures loads(text).Success? ==> r == ObjectPayload(loads(text).value)
    ensures loads(text).Failure? && BraceSpan(text).None? ==> r == Failure(loads(text).error)
    ensures loads(text).Failure? && BraceSpan(text).Some? ==> r == RetryOnSpan(text, BraceSpan(text).value, loads)
  {
    if loads(text).Success? then ObjectPayload(loads(text).value)
    else if BraceSpan(text).None? then Failure(loads(text).error)
    else RetryOnSpan(text, BraceSpan(text).value, loads)
  }

  /** A payload is only ever the object json.loads produced for some contiguous piece of the text. */
  lemma ExtractedFromSubstring(text: string, loads: Loads) returns (piece: string)
    requires ParseStatusText(text, loads).Success?
    ensures Contains(text, piece)
    ensures loads(piece) == Success(JObject(ParseStatusText(text, loads).value))
  {
    if loads(text).Success? {
      piece := text;
      assert text <= text;
    } else {
      var span := BraceSpan(text).value;
      piece := text[span.0..span.1 + 1];
      SliceContained(text, span.0, span.1 + 1);
    }
  }

  /** The second attempt, on the text from the first '{' to the last '}' inclusive. */
  function RetryOnSpan(text: string, span: (nat, nat), loads: Loads): (r: Result<map<string, Json>, string>)
    requires span.0 <= span.1 < |text|
    ensures loads(text[span.0..span.1 + 1]).Success? ==> r == ObjectPayload(loads(text[span.0..span.1 + 1]).value)
    ensures loads(text[span.0..span.1 + 1]).Failure? ==> r == Failure(loads(text[span.0..span.1 + 1]).error)
  {
    match loads(text[span.0..span.1 + 1])
    case Success(v) => ObjectPayload(v)
    case Failure(e) => Failure(e)
  }

  lemma {:induction false} SliceContained(s: string, i: nat, j: nat)
    requires i <= j <= |s|
    ensures Contains(s, s[i..j])
    decreases i
  {
    if i == 0 {
      assert s[..j] <= s;
    } else {
      SliceContained(s[1..], i - 1, j - 1);
      assert s[1..][i - 1..j - 1] == s[i..j];
    }
  }

  /** Log noise around the JSON object is tolerated: the braces are found and only they are parsed. */
  lemma ExtractFromNoisyOutput(prefix: string, body: string, suffix: string, loads: Loads)
    requires prefix != [] && !IsSpace(prefix[0]) && suffix != [] && !IsSpace(suffix[|suffix| - 1])
    requires '{' !in prefix && '}' !in suffix
    requires |body| >= 2 && body[0] == '{' && body[|body| - 1] == '}'
    requires loads(prefix + body + suffix).Failure?
    requires loads(body).Success? && loads(body).value.JObject?
    ensures ExtractJsonPayload(prefix + body + suffix, loads) == Success(loads(body).value.fields)
  {
    BraceSpanOfFramed(prefix, body, suffix);
    RetryOnFramed(prefix, body, suffix, loads);
  }

  /** The retry parses exactly the framed body. */
  lemma RetryOnFramed(prefix: string, body: string, suffix: string, loads: Loads)
    requires |body| >= 1
    ensures RetryOnSpan(prefix + body + suffix, (|prefix|, |prefix| + |body| - 1), loads) ==
              if loads(body).Success? then ObjectPayload(loads(body).value) else Failure(loads(body).error)
  {
    var text := prefix + body + suffix;
    assert text[|prefix|..|prefix| + |body|] == body;
  }

  /** The braces found in `prefix + body + suffix` are the outer braces of `body`. */
  lemma BraceSpanOfFramed(prefix: string, body: string, suffix: string)
    requires '{' !in prefix && '}' !in suffix
    requires |body| >= 2 && body[0] == '{' && body[|body| - 1] == '}'
    ensures BraceSpan(prefix + body + suffix) == Some((|prefix|, |prefix| + |body| - 1))
  {
    var text := prefix + body + suffix;
    var start, end := |prefix|, |prefix| + |body| - 1;
    assert text[start] == '{' && text[end] == '}';
    forall k | 0 <= k < start ensures text[k] != '{' {
      assert text[k] == prefix[k];
    }
    forall k | end < k < |text| ensures text[k] != '}' {
      assert text[k] == suffix[k - end - 1];
    }
    assert IndexOf(text, '{') == start;
    assert LastIndexOf(text, '}') == end;
  }

  // ================================================================ _safe_json_loads

  /** _safe_json_loads: a non-string or blank value gives the default, as does text that fails to parse. */
  function SafeJsonLoads(raw: Json, default: Json, loads: Loads): (r: Json)
    ensures !raw.JStr? || Strip(raw.s) == [] ==> r == default
    ensures raw.JStr? && Strip(raw.s) != [] ==> r == default || loads(raw.s) == Success(r)
    ensures raw.JStr? && Strip(raw.s) != [] && loads(raw.s).Success? ==> r == loads(raw.s).value
  {
    if !raw.JStr? || Strip(raw.s) == [] then default
    else
      match loads(raw.s)
      case Success(v) => v
      case Failure(_) => default
  }

  // ================================================================ _highlights

  datatype SeverityCounts = SeverityCounts(critical: int, high: int, medium: int, low: int)

  datatype Highlights = Highlights(
    findingsTotal: int,
    findingsPending: int,
    devicesTotal: int,
    devicesUnknown: int,
    alertDeliveryFailures24h: int,
    learningStatus: string,
    enabledAgents: seq<string>,
    alertChannelCount: nat,
    findings24h: SeverityCounts)

  /** An agent entry counts as enabled when it is a dict whose "enabled" is truthy. */
  predicate AgentEnabled(details: Json) {
    details.JObject? && Truthy(Get(details.fields, "enabled"))
  }

  function EnabledAgents(agentStatus: map<string, Json>): (r: seq<string>)
    ensures forall name :: name in r <==> name in agentStatus && AgentEnabled(agentStatus[name])
    ensures forall i, j :: 0 <= i < j < |r| ==> LexLe(r[i], r[j]) && r[i] != r[j]
  {
    SortedStrings(set name | name in agentStatus && AgentEnabled(agentStatus[name]))
  }

  function AlertChannelCount(channels: Json): (n: nat)
    ensures channels.JArray? ==> n == |channels.items|
    ensures !channels.JArray? ==> n == 0
  {
    if channels.JArray? then |channels.items| else 0
  }

  /** _highlights with the corrected _safe_int: a total projection of any payload. */
  function ComputeHighlights(payload: map<string, Json>): (h: Highlights)
  {
    var counts := ObjectOr(Get(payload, "findings_24h"));
    var learning := ObjectOr(Get(payload, "learning"));
    var agents := ObjectOr(Get(payload, "agent_status"));
    Highlights(
      SafeInt(Get(payload, "findings_total")),
      SafeInt(Get(payload, "findings_pending")),
      SafeInt(Get(payload, "devices_total")),
      SafeInt(Get(payload, "devices_unknown")),
      SafeInt(Get(payload, "alert_delivery_failures_24h")),
      StrOr(Get(learning, "status"), "unknown"),
      EnabledAgents(agents),
      AlertChannelCount(Get(payload, "alert_channels")),
      SeverityCounts(
        SafeInt(Get(counts, "critical")), SafeInt(Get(counts, "high")),
        SafeInt(Get(counts, "medium")), SafeInt(Get(counts, "low"))))
  }

  /** The nine values _highlights passes to _safe_int, in the order it converts them. */
  function CountFields(payload: map<string, Json>): seq<Json> {
    var counts := ObjectOr(Get(payload, "findings_24h"));
    [Get(payload, "findings_total"), Get(payload, "findings_pending"), Get(payload, "devices_total"),
     Get(payload, "devices_unknown"), Get(payload, "alert_delivery_failures_24h"),
     Get(counts, "critical"), Get(counts, "high"), Get(counts, "medium"), Get(counts, "low")]
  }

  /** _highlights as written: it raises (None) as soon as one of its nine counts does. */
  function HighlightsAsWritten(payload: map<string, Json>): Option<Highlights> {
    var fields := CountFields(payload);
    if forall k :: 0 <= k < |fields| ==> SafeIntAsWritten(fields[k]).Some? then Some(ComputeHighlights(payload))
    else None
  }

  /** Where no count is infinite, the written and the corrected projections agree. */
  lemma HighlightsAsWrittenAgrees(payload: map<string, Json>)
    requires forall k :: 0 <= k < |CountFields(payload)| ==>
               CountFields(payload)[k] != JFloat(PosInf) && CountFields(payload)[k] != JFloat(NegInf)
    ensures HighlightsAsWritten(payload) == Some(ComputeHighlights(payload))
  {
    var fields := CountFields(payload);
    forall k | 0 <= k < |fields| ensures SafeIntAsWritten(fields[k]).Some? {
      SafeIntAsWrittenFailsOnlyOnInfinity(fields[k]);
    }
  }

  /** The counterexample to "highlights never raise": `{"findings_total": Infinity}`. */
  lemma HighlightsAsWrittenRaises()
    ensures HighlightsAsWritten(map["findings_total" := JFloat(PosInf)]) == None
    ensures ComputeHighlights(map["findings_total" := JFloat(PosInf)]).findingsTotal == 0
  {
    var payload := map["findings_total" := JFloat(PosInf)];
    assert Get(payload, "findings_total") == JFloat(PosInf);
    assert CountFields(payload)[0] == JFloat(PosInf);
  }

  /** What each highlight is: every count is the converted field, the learning status falls back
    * to "unknown" when falsy, the agents are the enabled ones in strictly increasing order, and the
    * channel count is the list's length or 0. */
  lemma HighlightsFields(payload: map<string, Json>)
    ensures var h := ComputeHighlights(payload);
            var counts := ObjectOr(Get(payload, "findings_24h"));
            && h.findingsTotal == SafeInt(Get(payload, "findings_total"))
            && h.findingsPending == SafeInt(Get(payload, "findings_pending"))
            && h.devicesTotal == SafeInt(Get(payload, "devices_total"))
            && h.devicesUnknown == SafeInt(Get(payload, "devices_unknown"))
            && h.alertDeliveryFailures24h == SafeInt(Get(payload, "alert_delivery_failures_24h"))
            && h.findings24h == SeverityCounts(SafeInt(Get(counts, "critical")), SafeInt(Get(counts, "high")),
                                               SafeInt(Get(counts, "medium")), SafeInt(Get(counts, "low")))
    ensures var h := ComputeHighlights(payload);
            var status := Get(ObjectOr(Get(payload, "learning")), "status");
            && (!Truthy(status) ==> h.learningStatus == "unknown")
            && (Truthy(status) ==> h.learningStatus == Str(status))
            && (status.JStr? && status.s != [] ==> h.learningStatus == status.s)
    ensures var h := ComputeHighlights(payload);
            var agents := ObjectOr(Get(payload, "agent_status"));
            && (forall name :: name in h.enabledAgents <==> name in agents && AgentEnabled(agents[name]))
            && (forall i, j :: 0 <= i < j < |h.enabledAgents| ==> LexLe(h.enabledAgents[i], h.enabledAgents[j]) && h.enabledAgents[i] != h.enabledAgents[j])
    ensures var h := ComputeHighlights(payload);
            var channels := Get(payload, "alert_channels");
            h.alertChannelCount == if channels.JArray? then |channels.items| else 0
  {
  }

  /** Keys other than the ones read leave the highlights unchanged. */
  lemma HighlightsIgnoreOtherKeys(payload: map<string, Json>, key: string, value: Json)
    requires key !in {"findings_total", "findings_pending", "devices_total", "devices_unknown",
                      "alert_delivery_failures_24h", "learning", "agent_status", "alert_channels", "findings_24h"}
    ensures ComputeHighlights(payload[key := value]) == ComputeHighlights(payload)
  {
    var p := payload[key := value];
    assert Get(p, "findings_total") == Get(payload, "findings_total");
    assert Get(p, "findings_pending") == Get(payload, "findings_pending");
    assert Get(p, "devices_total") == Get(payload, "devices_total");
    assert Get(p, "devices_unknown") == Get(payload, "devices_unknown");
    assert Get(p, "alert_delivery_failures_24h") == Get(payload, "alert_delivery_failures_24h");
    assert Get(p, "learning") == Get(payload, "learning");
    assert Get(p, "agent_status") == Get(payload, "agent_status");
    assert Get(p, "alert_channels") == Get(payload, "alert_channels");
    assert Get(p, "findings_24h") == Get(payload, "findings_24h");
  }

  /** An empty (or entirely wrong-typed) payload projects to the defaults. */
  lemma HighlightsOfEmptyPayload()
    ensures ComputeHighlights(map[]) == Highlights(0, 0, 0, 0, 0, "unknown", [], 0, SeverityCounts(0, 0, 0, 0))
  {
  }

  /** The highlights as the JSON object the API returns: always the same nine keys, and exactly the
    * four severities under findings_24h. */
  function HighlightsJson(h: Highlights): (m: map<string, Json>)
    ensures m.Keys == {"findings_total", "findings_pending", "devices_total", "devices_unknown",
                       "alert_delivery_failures_24h", "learning_status", "enabled_agents",
                       "alert_channel_count", "findings_24h"}
    ensures m["findings_24h"].JObject? && m["findings_24h"].fields.Keys == {"critical", "high", "medium", "low"}
  {
    map[
      "findings_total" := JInt(h.findingsTotal),
      "findings_pending" := JInt(h.findingsPending),
      "devices_total" := JInt(h.devicesTotal),
      "devices_unknown" := JInt(h.devicesUnknown),
      "alert_delivery_failures_24h" := JInt(h.alertDeliveryFailures24h),
      "learning_status" := JStr(h.learningStatus),
      "enabled_agents" := JArray(seq(|h.enabledAgents|, i requires 0 <= i < |h.enabledAgents| => JStr(h.enabledAgents[i]))),
      "alert_channel_count" := JInt(h.alertChannelCount),
      "findings_24h" := JObject(map[
        "critical" := JInt(h.findings24h.critical),
        "high" := JInt(h.findings24h.high),
        "medium" := JInt(h.findings24h.medium),
        "low" := JInt(h.findings24h.low)])]
  }

  // ================================================================ snapshots

  datatype Source = File | Cli | FileStale | Unavailable

  /** PingTingStatusSnapshot; `age` is None when the file's age could not be determined. */
  datatype Snapshot = Snapshot(payload: map<string, Json>, source: Source, age: Option<real>)

  /** What reading status.json yields: not a file, an unreadable file, or its text together with
    * time.time() - st_mtime (None when stat raised OSError). */
  datatype FileProbe = NotAFile | ReadFailed | Contents(text: string, elapsed: Option<real>)

  /** _read_status_file: a "file" snapshot, or None when the file is absent or unusable. */
  function ReadStatusFile(probe: FileProbe, loads: Loads): (r: Option<Snapshot>)
    ensures r.Some? <==> probe.Contents? && ExtractJsonPayload(probe.text, loads).Success?
    ensures r.Some? ==> r.value.payload == ExtractJsonPayload(probe.text, loads).value
    ensures r.Some? ==> r.value.source == File
    ensures r.Some? ==> (r.value.age.Some? <==> probe.elapsed.Some?)
    ensures r.Some? && r.value.age.Some? ==>
              && r.value.age.value >= 0.0 && r.value.age.value >= probe.elapsed.value
              && (r.value.age.value == 0.0 || r.value.age.value == probe.elapsed.value)
  {
    match probe
    case NotAFile => None
    case ReadFailed => None
    case Contents(text, elapsed) =>
      match ExtractJsonPayload(text, loads)
      case Failure(_) => None
      case Success(payload) =>
        var age := match elapsed
          case Some(e) => Some(if e > 0.0 then e else 0.0)
          case None => None;
        Some(Snapshot(payload, File, age))
  }

  /** The finished `python -m pingting ... status --json` run, or the text of the exception that
    * subprocess.run raised (a timeout, a missing interpreter). */
  datatype CliRun = Completed(returncode: int, stdout: string, stderr: string) | Raised(message: string)

  const CliFailurePrefix := "pingting status command failed: "

  /** The detail of a failed run: stripped stderr, else stripped stdout, else the exit code. */
  function FailureDetail(returncode: int, stdout: string, stderr: string): (d: string)
    ensures d != []
    ensures Strip(stderr) != [] ==> d == Strip(stderr)
    ensures Strip(stderr) == [] && Strip(stdout) != [] ==> d == Strip(stdout)
    ensures Strip(stderr) == [] && Strip(stdout) == [] ==> d == "exit=" + IntToString(returncode)
  {
    if Strip(stderr) != [] then Strip(stderr)
    else if Strip(stdout) != [] then Strip(stdout)
    else "exit=" + IntToString(returncode)
  }

  /** _run_status_cli: a "cli" snapshot of age 0, or the error text. */
  function RunStatusCli(run: CliRun, loads: Loads): (r: Result<Snapshot, string>)
    ensures r.Success? ==> run.Completed? && run.returncode == 0
    ensures r.Success? ==> r.value.source == Cli && r.value.age == Some(0.0)
    ensures run.Completed? && run.returncode != 0 ==>
              r == Failure(CliFailurePrefix + FailureDetail(run.returncode, run.stdout, run.stderr))
    ensures run.Completed? && run.returncode == 0 ==>
              (r.Success? <==> ExtractJsonPayload(run.stdout, loads).Success?)
    ensures run.Completed? && run.returncode == 0 && ExtractJsonPayload(run.stdout, loads).Success? ==>
              r.value.payload == ExtractJsonPayload(run.stdout, loads).value
    ensures run.Completed? && run.returncode == 0 && ExtractJsonPayload(run.stdout, loads).Failure? ==>
              r == Failure(ExtractJsonPayload(run.stdout, loads).error)
    ensures run.Raised? ==> r == Failure(run.message)
  {
    match run
    case Raised(message) => Failure(message)
    case Completed(returncode, stdout, stderr) =>
      if returncode != 0 then Failure(CliFailurePrefix + FailureDetail(returncode, stdout, stderr))
      else
        match ExtractJsonPayload(stdout, loads)
        case Success(payload) => Success(Snapshot(payload, Cli, Some(0.0)))
        case Failure(e) => Failure(e)
  }

  // ================================================================ load_status_summary

  /** A CLI snapshot has age 0, so it is stale only under a negative maximum age. */
  lemma CliSnapshotIsFresh(run: CliRun, loads: Loads, maxAgeSeconds: int)
    requires RunStatusCli(run, loads).Success?
    ensures IsStale(RunStatusCli(run, loads).value.age, maxAgeSeconds) <==> maxAgeSeconds < 0
  {
  }

  /** age > max_age with a known age; an unknown age is never stale. */
  predicate IsStale(age: Option<real>, maxAgeSeconds: int)
    ensures age.None? ==> !IsStale(age, maxAgeSeconds)
    ensures age.Some? ==> (IsStale(age, maxAgeSeconds) <==> age.value > maxAgeSeconds as real)
  {
    age.Some? && age.value > maxAgeSeconds as real
  }

  predicate SnapshotStale(snapshot: Option<Snapshot>, maxAgeSeconds: int) {
    snapshot.Some? && IsStale(snapshot.value.age, maxAgeSeconds)
  }

  /** The summary returned to callers; `highlights` None stands for the empty {} of the unavailable case. */
  datatype StatusSummary = StatusSummary(
    ok: bool,
    source: Source,
    stale: bool,
    ageSeconds: Option<real>,
    errors: seq<string>,
    highlights: Option<Highlights>,
    snapshot: map<string, Json>)

  const UnavailableMessage := "unable to load pingting status"

  /** The summary of a snapshot after freshness is recomputed. */
  predicate Describes(summary: StatusSummary, snapshot: Snapshot, errors: seq<string>, maxAgeSeconds: int) {
    && summary.ok
    && summary.source == snapshot.source
    && summary.stale == IsStale(snapshot.age, maxAgeSeconds)
    && summary.ageSeconds == snapshot.age
    && summary.errors == errors
    && summary.highlights == Some(ComputeHighlights(snapshot.payload))
    && summary.snapshot == snapshot.payload
  }

  /** load_status_summary. The external reads are its inputs: `file` is what ReadStatusFile gave
    * for the first read, `refresh` what RunStatusCli gives if the CLI is run, and `reread` what
    * ReadStatusFile gives if the file is read a second time. `cliInvoked` and `fileReread` report
    * which of the last two were consumed. */
  method LoadStatusSummary(
    file: Option<Snapshot>, refresh: Result<Snapshot, string>, reread: Option<Snapshot>,
    maxAgeSeconds: int, refreshIfStale: bool, forceCliRefresh: bool)
    returns (summary: StatusSummary, cliInvoked: bool, fileReread: bool)
    // which branch runs
    ensures cliInvoked <==> forceCliRefresh || file.None? || (SnapshotStale(file, maxAgeSeconds) && refreshIfStale)
    ensures fileReread <==> forceCliRefresh && refresh.Failure? && file.None?
    // a fresh (or undated) file is served without calling the CLI
    ensures !forceCliRefresh && file.Some? && !SnapshotStale(file, maxAgeSeconds) ==>
              !cliInvoked && !summary.stale && Describes(summary, file.value, [], maxAgeSeconds)
    // a stale file without refresh is served, marked stale
    ensures !forceCliRefresh && SnapshotStale(file, maxAgeSeconds) && !refreshIfStale ==>
              !cliInvoked && summary.stale && Describes(summary, file.value, [], maxAgeSeconds)
    // a stale file whose refresh fails is kept, re-tagged file_stale, with the one refresh error
    ensures !forceCliRefresh && SnapshotStale(file, maxAgeSeconds) && refreshIfStale && refresh.Failure? ==>
              Describes(summary, Snapshot(file.value.payload, FileStale, file.value.age), [refresh.error], maxAgeSeconds)
              && summary.stale
    // a successful CLI run wins
    ensures cliInvoked && refresh.Success? ==> Describes(summary, refresh.value, [], maxAgeSeconds)
    // a failed forced refresh keeps the first snapshot, else falls back on a second read
    ensures forceCliRefresh && refresh.Failure? && file.Some? ==> Describes(summary, file.value, [refresh.error], maxAgeSeconds)
    ensures forceCliRefresh && refresh.Failure? && file.None? && reread.Some? ==>
              Describes(summary, reread.value, [refresh.error], maxAgeSeconds)
    // with no snapshot at all the summary is the "unavailable" one, carrying the CLI error
    ensures !summary.ok ==>
              && summary.source == Unavailable && summary.stale && summary.ageSeconds.None?
              && summary.highlights.None? && summary.snapshot == map[]
              && cliInvoked && refresh.Failure? && summary.errors == [refresh.error]
    ensures summary.ok <==> file.Some? || (cliInvoked && refresh.Success?) || (fileReread && reread.Some?)
    ensures summary.ok ==> summary.stale == IsStale(summary.ageSeconds, maxAgeSeconds)
  {
    var errors: seq<string> := [];
    var snapshot := file;
    var stale := SnapshotStale(snapshot, maxAgeSeconds);
    cliInvoked, fileReread := false, false;

    if forceCliRefresh {
      cliInvoked := true;
      match refresh
      case Success(s) =>
        snapshot := Some(s);
      case Failure(e) =>
        errors := errors + [e];
        if snapshot.None? {
          fileReread := true;
          snapshot := reread;
        }
    } else if snapshot.None? {
      cliInvoked := true;
      match refresh
      case Success(s) =>
        snapshot := Some(s);
      case Failure(e) =>
        errors := errors + [e];
    } else if stale && refreshIfStale {
      cliInvoked := true;
      match refresh
      case Success(s) =>
        snapshot := Some(s);
      case Failure(e) =>
        errors := errors + [e];
        snapshot := Some(Snapshot(snapshot.value.payload, FileStale, snapshot.value.age));
    }

    if snapshot.None? {
      summary := StatusSummary(false, Unavailable, true, None,
                               if errors != [] then errors else [UnavailableMessage], None, map[]);
    } else {
      var s := snapshot.value;
      summary := StatusSummary(true, s.source, IsStale(s.age, maxAgeSeconds), s.age, errors,
                               Some(ComputeHighlights(s.payload)), s.payload);
    }
  }
}
