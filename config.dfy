/** The settings of the control-plane API as read from the environment: integer variables with a
  * default, the comma-separated CORS origin list, the tokens and the PingTing interpreter.
  * The filesystem paths among the settings are not modelled. */
module Config {
  import opened Wrappers
  import opened Text

  /** The process environment. */
  type Env = map<string, string>

  /** os.getenv(name). */
  function GetEnv(env: Env, name: string): Option<string> {
    if name in env then Some(env[name]) else None
  }

  /** os.getenv(name, default). */
  function GetEnvOr(env: Env, name: string, default: string): string {
    if name in env then env[name] else default
  }

  /** An integer variable: its value when int() accepts it, else the default. */
  function ParseIntEnv(raw: Option<string>, default: int): (n: int)
    ensures raw.None? ==> n == default
    ensures raw.Some? && ParseInt(raw.value).None? ==> n == default
    ensures raw.Some? && ParseInt(raw.value).Some? ==> n == ParseInt(raw.value).value
  {
    if raw.None? then default
    else match ParseInt(raw.value)
      case Some(v) => v
      case None => default
  }

  /** A variable holding the decimal text of a number yields that number, whatever the default. */
  lemma ParseIntEnvOfDecimal(n: int, default: int)
    ensures ParseIntEnv(Some(IntToString(n)), default) == n
  {
    ParseIntOfIntToString(n);
  }

  /** A blank variable is not a number and yields the default. */
  lemma ParseIntEnvOfBlank(raw: string, default: int)
    requires AllSpace(raw)
    ensures ParseIntEnv(Some(raw), default) == default
  {
    StripEmptyIff(raw);
    assert ParseInt(raw) == ParseSigned([]);
  }

  // ---------------------------------------------------------------- origins

  /** Every piece stripped. */
  function StripAll(items: seq<string>): (r: seq<string>)
    ensures |r| == |items|
    ensures forall k :: 0 <= k < |r| ==> r[k] == Strip(items[k])
  {
    if |items| == 0 then [] else [Strip(items[0])] + StripAll(items[1..])
  }

  /** The non-empty items, in order. */
  function NonEmpty(items: seq<string>): (r: seq<string>)
    ensures |r| <= |items|
    ensures forall k :: 0 <= k < |r| ==> r[k] != [] && r[k] in items
    ensures forall x :: x in r <==> x in items && x != []
  {
    if |items| == 0 then []
    else if items[0] == [] then NonEmpty(items[1..])
    else [items[0]] + NonEmpty(items[1..])
  }

  /** Filtering two lists in a row filters each in turn; with the one-item case this fixes the
    * order of the kept items to their order in the input. */
  lemma {:induction false} NonEmptyAppend(a: seq<string>, b: seq<string>)
    ensures NonEmpty(a + b) == NonEmpty(a) + NonEmpty(b)
    ensures |a| == 1 ==> NonEmpty(a) == (if a[0] == [] then [] else [a[0]])
  {
    if |a| > 0 {
      assert (a + b)[0] == a[0];
      assert (a + b)[1..] == a[1..] + b;
      NonEmptyAppend(a[1..], b);
    } else {
      assert a + b == b;
    }
  }

  /** The CORS origin list: split on ',', each piece stripped, empty pieces dropped. */
  function ParseOrigins(raw: string): (origins: seq<string>)
    ensures forall k :: 0 <= k < |origins| ==> origins[k] != [] && IsTrimmed(origins[k]) && ',' !in origins[k]
    ensures forall x :: x in origins <==> x != [] && x in StripAll(Split(raw, ','))
  {
    var stripped := StripAll(Split(raw, ','));
    StrippedPiecesClean(Split(raw, ','));
    NonEmpty(stripped)
  }

  lemma StrippedPiecesClean(pieces: seq<string>)
    requires forall k :: 0 <= k < |pieces| ==> ',' !in pieces[k]
    ensures forall x :: x in StripAll(pieces) ==> IsTrimmed(x) && ',' !in x
  {
    var stripped := StripAll(pieces);
    forall k | 0 <= k < |stripped| ensures IsTrimmed(stripped[k]) && ',' !in stripped[k] {
      StripKeepsOut(pieces[k], ',');
    }
  }

  /** What Strip keeps is a piece of its input, so a character the input lacks stays out. */
  lemma StripKeepsOut(s: string, c: char)
    requires c !in s
    ensures c !in Strip(s)
  {
    var i := StripSlice(s);
  }

  lemma ParseOriginsOfEmpty()
    ensures ParseOrigins("") == []
  {
    assert Split("", ',') == [""];
  }

  /** Comma-joined pieces, spaced or not, read back as the stripped pieces with the blank ones
    * dropped, in their order. */
  lemma ParseOriginsOfPieces(pieces: seq<string>)
    requires forall k :: 0 <= k < |pieces| ==> ',' !in pieces[k]
    ensures ParseOrigins(Join(pieces, ',')) == NonEmpty(StripAll(pieces))
  {
    if |pieces| == 0 {
      ParseOriginsOfEmpty();
    } else {
      SplitJoin(pieces, ',');
    }
  }

  /** "a, b" with a space after the comma gives both origins, in order. */
  lemma ParseOriginsOfSpacedPair(a: string, b: string)
    requires a != [] && IsTrimmed(a) && ',' !in a
    requires b != [] && IsTrimmed(b) && ',' !in b
    ensures ParseOrigins(a + ", " + b) == [a, b]
  {
    var second := " " + b;
    assert a + ", " + b == a + [','] + second;
    SplitAtFirst(a, ',', second);
    assert ',' !in second;
    SplitJoin([second], ',');
    assert Split(a + ", " + b, ',') == [a, second];
    StripTrimmed(a);
    assert Strip(second) == b by {
      assert second[1..] == b;
      assert LStrip(second) == LStrip(b) == b;
      assert RStrip(b) == b;
    }
    assert StripAll([a, second]) == [a, b];
    NonEmptyAppend([a], [b]);
    NonEmptyAppend([b], []);
    assert [a, b] == [a] + [b];
  }

  /** A list of clean origins written comma-separated is read back as the same list, in order. */
  lemma ParseOriginsOfJoin(origins: seq<string>)
    requires forall k :: 0 <= k < |origins| ==> origins[k] != [] && IsTrimmed(origins[k]) && ',' !in origins[k]
    ensures ParseOrigins(Join(origins, ',')) == origins
  {
    if |origins| == 0 {
      ParseOriginsOfEmpty();
    } else {
      var joined := Join(origins, ',');
      SplitJoin(origins, ',');
      assert Split(joined, ',') == origins;
      StripAllOfTrimmed(origins);
      NonEmptyOfNonEmpty(origins);
      assert ParseOrigins(joined) == NonEmpty(StripAll(origins));
    }
  }

  lemma {:induction false} StripAllOfTrimmed(items: seq<string>)
    requires forall k :: 0 <= k < |items| ==> IsTrimmed(items[k])
    ensures StripAll(items) == items
  {
    if |items| > 0 {
      StripTrimmed(items[0]);
      StripAllOfTrimmed(items[1..]);
    }
  }

  lemma {:induction false} NonEmptyOfNonEmpty(items: seq<string>)
    requires forall k :: 0 <= k < |items| ==> items[k] != []
    ensures NonEmpty(items) == items
  {
    if |items| > 0 {
      NonEmptyOfNonEmpty(items[1..]);
    }
  }

  // ---------------------------------------------------------------- settings

  const DefaultStatusMaxAgeSeconds := 120
  const DefaultStatusTimeoutSeconds := 20
  const DefaultActionTimeoutSeconds := 900
  const DefaultApiBase := "http://127.0.0.1:8099"
  const DefaultWsEventsUrl := "ws://127.0.0.1:8099/ws/events"
  const DefaultWsTheaterUrl := "ws://127.0.0.1:8099/ws/theater/live"

  /** The settings the modelled components read. */
  datatype Settings = Settings(
    clownpeanutsApiBase: string,
    clownpeanutsApiToken: string,
    clownpeanutsWsEventsUrl: string,
    clownpeanutsWsTheaterUrl: string,
    clownpeanutsWsToken: string,
    pingtingPythonBin: Option<string>,
    statusMaxAgeSeconds: int,
    statusTimeoutSeconds: int,
    actionTimeoutSeconds: int,
    corsAllowOrigins: seq<string>,
    apiAuthToken: string)

  /** The WebSocket token for ClownPeanuts: its own variable when non-blank, else the API token. */
  function WsToken(env: Env): (t: string)
    ensures IsTrimmed(t)
    ensures Strip(GetEnvOr(env, "CLOWNPEANUTS_WS_TOKEN", "")) != [] ==> t == Strip(GetEnvOr(env, "CLOWNPEANUTS_WS_TOKEN", ""))
    ensures Strip(GetEnvOr(env, "CLOWNPEANUTS_WS_TOKEN", "")) == [] ==> t == Strip(GetEnvOr(env, "CLOWNPEANUTS_API_TOKEN", ""))
  {
    var own := Strip(GetEnvOr(env, "CLOWNPEANUTS_WS_TOKEN", ""));
    if own != [] then own else Strip(GetEnvOr(env, "CLOWNPEANUTS_API_TOKEN", ""))
  }

  /** The interpreter for the PingTing CLI: the trimmed variable, or None when unset or blank. */
  function PythonBin(env: Env): (bin: Option<string>)
    ensures bin.Some? ==> bin.value != [] && IsTrimmed(bin.value)
    ensures bin.Some? ==> "PINGTING_PYTHON_BIN" in env && bin.value == Strip(env["PINGTING_PYTHON_BIN"])
    ensures bin.None? <==> "PINGTING_PYTHON_BIN" !in env || AllSpace(env["PINGTING_PYTHON_BIN"])
  {
    StripEmptyIff(GetEnvOr(env, "PINGTING_PYTHON_BIN", ""));
    var bin := Strip(GetEnvOr(env, "PINGTING_PYTHON_BIN", ""));
    if bin != [] then Some(bin) else None
  }

  function LoadSettings(env: Env): (s: Settings)
    ensures IsTrimmed(s.apiAuthToken) && IsTrimmed(s.clownpeanutsApiToken) && IsTrimmed(s.clownpeanutsWsToken)
    ensures s.clownpeanutsWsToken == WsToken(env) && s.pingtingPythonBin == PythonBin(env)
    ensures s.statusMaxAgeSeconds == ParseIntEnv(GetEnv(env, "PINGTING_STATUS_MAX_AGE_SECONDS"), DefaultStatusMaxAgeSeconds)
    ensures s.statusTimeoutSeconds == ParseIntEnv(GetEnv(env, "PINGTING_STATUS_TIMEOUT_SECONDS"), DefaultStatusTimeoutSeconds)
    ensures s.actionTimeoutSeconds == ParseIntEnv(GetEnv(env, "CONTROLPANE_ACTION_TIMEOUT_SECONDS"), DefaultActionTimeoutSeconds)
    ensures s.corsAllowOrigins == ParseOrigins(GetEnvOr(env, "CONTROLPANE_CORS_ALLOW_ORIGINS", DefaultCorsOrigins))
    ensures forall k :: 0 <= k < |s.corsAllowOrigins| ==> s.corsAllowOrigins[k] != [] && IsTrimmed(s.corsAllowOrigins[k])
    ensures IsTrimmed(s.clownpeanutsApiBase) && IsTrimmed(s.clownpeanutsWsEventsUrl) && IsTrimmed(s.clownpeanutsWsTheaterUrl)
    ensures s.apiAuthToken == Strip(GetEnvOr(env, "CONTROLPANE_API_AUTH_TOKEN", ""))
    ensures s.clownpeanutsApiToken == Strip(GetEnvOr(env, "CLOWNPEANUTS_API_TOKEN", ""))
    ensures s.clownpeanutsApiBase == Strip(GetEnvOr(env, "CLOWNPEANUTS_API_BASE", DefaultApiBase))
    ensures s.clownpeanutsWsEventsUrl == Strip(GetEnvOr(env, "CLOWNPEANUTS_WS_EVENTS_URL", DefaultWsEventsUrl))
    ensures s.clownpeanutsWsTheaterUrl == Strip(GetEnvOr(env, "CLOWNPEANUTS_WS_THEATER_URL", DefaultWsTheaterUrl))
  {
    Settings(
      Strip(GetEnvOr(env, "CLOWNPEANUTS_API_BASE", DefaultApiBase)),
      Strip(GetEnvOr(env, "CLOWNPEANUTS_API_TOKEN", "")),
      Strip(GetEnvOr(env, "CLOWNPEANUTS_WS_EVENTS_URL", DefaultWsEventsUrl)),
      Strip(GetEnvOr(env, "CLOWNPEANUTS_WS_THEATER_URL", DefaultWsTheaterUrl)),
      WsToken(env),
      PythonBin(env),
      ParseIntEnv(GetEnv(env, "PINGTING_STATUS_MAX_AGE_SECONDS"), DefaultStatusMaxAgeSeconds),
      ParseIntEnv(GetEnv(env, "PINGTING_STATUS_TIMEOUT_SECONDS"), DefaultStatusTimeoutSeconds),
      ParseIntEnv(GetEnv(env, "CONTROLPANE_ACTION_TIMEOUT_SECONDS"), DefaultActionTimeoutSeconds),
      ParseOrigins(GetEnvOr(env, "CONTROLPANE_CORS_ALLOW_ORIGINS", DefaultCorsOrigins)),
      Strip(GetEnvOr(env, "CONTROLPANE_API_AUTH_TOKEN", "")))
  }

  const DefaultCorsOrigins := "http://127.0.0.1:4317,http://localhost:4317,http://127.0.0.1:3001,http://localhost:3001,http://127.0.0.1:3000,http://localhost:3000"

  /** With an empty environment: no tokens, no API authentication, PingTing's interpreter looked up
    * elsewhere, and the documented limits of 120 s, 20 s and 900 s. */
  lemma DefaultSettings()
    ensures var s := LoadSettings(map[]);
            s.apiAuthToken == [] && s.clownpeanutsApiToken == [] && s.clownpeanutsWsToken == [] &&
            s.pingtingPythonBin.None? &&
            s.statusMaxAgeSeconds == 120 && s.statusTimeoutSeconds == 20 && s.actionTimeoutSeconds == 900
  {
    assert Strip("") == [];
  }

  /** A blank WebSocket token falls back to the API token. */
  lemma WsTokenFallsBack(env: Env)
    requires "CLOWNPEANUTS_WS_TOKEN" in env && AllSpace(env["CLOWNPEANUTS_WS_TOKEN"])
    ensures WsToken(env) == Strip(GetEnvOr(env, "CLOWNPEANUTS_API_TOKEN", ""))
  {
    StripEmptyIff(env["CLOWNPEANUTS_WS_TOKEN"]);
  }
}
