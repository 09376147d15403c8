/** The dashboard's client helpers for the control-plane and deception APIs: the base URLs and
  * tokens chosen from the build environment, the bearer header added to outgoing requests, and
  * the query parameters added to URLs. */
module DashboardApi {
  import opened Wrappers
  import opened Text
  import opened Pairs

  // ---------------------------------------------------------------- build environment

  /** The variables the build defines; an absent name is `undefined`. */
  type Env = map<string, string>

  /** `env[n1] ?? env[n2] ?? … ?? fallback`: the first DEFINED variable, even an empty one. */
  function FirstDefined(env: Env, names: seq<string>, fallback: string): (v: string)
    ensures |names| > 0 && names[0] in env ==> v == env[names[0]]
    ensures |names| > 0 && names[0] !in env ==> v == FirstDefined(env, names[1..], fallback)
  {
    if |names| == 0 then fallback
    else if names[0] in env then env[names[0]]
    else FirstDefined(env, names[1..], fallback)
  }

  /** The first defined variable is the one chosen: the ones before it are undefined. */
  lemma {:induction false} FirstDefinedPicksFirst(env: Env, names: seq<string>, fallback: string, i: nat)
    requires i < |names| && names[i] in env
    requires forall k :: 0 <= k < i ==> names[k] !in env
    ensures FirstDefined(env, names, fallback) == env[names[i]]
  {
    if i > 0 {
      FirstDefinedPicksFirst(env, names[1..], fallback, i - 1);
    }
  }

  /** `names[i]` is the first of the names defined in `env`. */
  predicate FirstDefinedAt(env: Env, names: seq<string>, i: nat) {
    i < |names| && names[i] in env && forall k :: 0 <= k < i ==> names[k] !in env
  }

  /** None of the names is defined in `env`. */
  predicate NoneDefined(env: Env, names: seq<string>) {
    forall k :: 0 <= k < |names| ==> names[k] !in env
  }

  /** FirstDefined is the value of the first defined name, or the fallback when there is none. */
  lemma FirstDefinedChoice(env: Env, names: seq<string>, fallback: string)
    ensures forall i: nat :: FirstDefinedAt(env, names, i) ==> FirstDefined(env, names, fallback) == env[names[i]]
    ensures NoneDefined(env, names) ==> FirstDefined(env, names, fallback) == fallback
  {
    forall i: nat | FirstDefinedAt(env, names, i) ensures FirstDefined(env, names, fallback) == env[names[i]] {
      FirstDefinedPicksFirst(env, names, fallback, i);
    }
    if NoneDefined(env, names) {
      FirstDefinedFallback(env, names, fallback);
    }
  }

  /** With none of the variables defined, the fallback is used. */
  lemma {:induction false} FirstDefinedFallback(env: Env, names: seq<string>, fallback: string)
    requires forall k :: 0 <= k < |names| ==> names[k] !in env
    ensures FirstDefined(env, names, fallback) == fallback
  {
    if |names| > 0 {
      FirstDefinedFallback(env, names[1..], fallback);
    }
  }

  function ControlPlaneBase(env: Env): (base: string)
    ensures "NEXT_PUBLIC_CONTROLPANE_API" in env ==> base == env["NEXT_PUBLIC_CONTROLPANE_API"]
    ensures "NEXT_PUBLIC_CONTROLPANE_API" !in env ==> base == "http://127.0.0.1:8199"
  {
    FirstDefined(env, ["NEXT_PUBLIC_CONTROLPANE_API"], "http://127.0.0.1:8199")
  }

  function ControlPlaneWsBase(env: Env): (base: string)
    ensures "NEXT_PUBLIC_CONTROLPANE_WS" in env ==> base == env["NEXT_PUBLIC_CONTROLPANE_WS"]
    ensures "NEXT_PUBLIC_CONTROLPANE_WS" !in env ==> base == "ws://127.0.0.1:8199"
  {
    FirstDefined(env, ["NEXT_PUBLIC_CONTROLPANE_WS"], "ws://127.0.0.1:8199")
  }

  /** The deception REST base: its own variables, else the control plane's /deception proxy. */
  function ApiBase(env: Env): (base: string)
    ensures "NEXT_PUBLIC_DECEPTION_API" in env ==> base == env["NEXT_PUBLIC_DECEPTION_API"]
    ensures "NEXT_PUBLIC_DECEPTION_API" !in env && "NEXT_PUBLIC_CLOWNPEANUTS_API" in env ==>
              base == env["NEXT_PUBLIC_CLOWNPEANUTS_API"]
    ensures "NEXT_PUBLIC_DECEPTION_API" !in env && "NEXT_PUBLIC_CLOWNPEANUTS_API" !in env ==>
              base == ControlPlaneBase(env) + "/deception"
  {
    FirstDefined(env, ["NEXT_PUBLIC_DECEPTION_API", "NEXT_PUBLIC_CLOWNPEANUTS_API"], ControlPlaneBase(env) + "/deception")
  }

  function WsBase(env: Env): (base: string)
    ensures "NEXT_PUBLIC_DECEPTION_WS" in env ==> base == env["NEXT_PUBLIC_DECEPTION_WS"]
    ensures "NEXT_PUBLIC_DECEPTION_WS" !in env && "NEXT_PUBLIC_CLOWNPEANUTS_WS" in env ==>
              base == env["NEXT_PUBLIC_CLOWNPEANUTS_WS"]
    ensures "NEXT_PUBLIC_DECEPTION_WS" !in env && "NEXT_PUBLIC_CLOWNPEANUTS_WS" !in env ==>
              base == ControlPlaneWsBase(env) + "/deception/ws/events"
  {
    FirstDefined(env, ["NEXT_PUBLIC_DECEPTION_WS", "NEXT_PUBLIC_CLOWNPEANUTS_WS"], ControlPlaneWsBase(env) + "/deception/ws/events")
  }

  function WsTheaterBase(env: Env): (base: string)
    ensures "NEXT_PUBLIC_DECEPTION_WS_THEATER" in env ==> base == env["NEXT_PUBLIC_DECEPTION_WS_THEATER"]
    ensures "NEXT_PUBLIC_DECEPTION_WS_THEATER" !in env && "NEXT_PUBLIC_CLOWNPEANUTS_WS_THEATER" in env ==>
              base == env["NEXT_PUBLIC_CLOWNPEANUTS_WS_THEATER"]
    ensures "NEXT_PUBLIC_DECEPTION_WS_THEATER" !in env && "NEXT_PUBLIC_CLOWNPEANUTS_WS_THEATER" !in env ==>
              base == ControlPlaneWsBase(env) + "/deception/ws/theater/live"
  {
    FirstDefined(env, ["NEXT_PUBLIC_DECEPTION_WS_THEATER", "NEXT_PUBLIC_CLOWNPEANUTS_WS_THEATER"],
                 ControlPlaneWsBase(env) + "/deception/ws/theater/live")
  }

  const ApiTokenNames := ["NEXT_PUBLIC_CONTROLPANE_API_TOKEN", "NEXT_PUBLIC_DECEPTION_API_TOKEN", "NEXT_PUBLIC_CLOWNPEANUTS_API_TOKEN"]
  const WsTokenNames := ["NEXT_PUBLIC_CONTROLPANE_API_TOKEN", "NEXT_PUBLIC_CLOWNPEANUTS_WS_TOKEN", "NEXT_PUBLIC_DECEPTION_WS_TOKEN",
                         "NEXT_PUBLIC_DECEPTION_API_TOKEN", "NEXT_PUBLIC_CLOWNPEANUTS_API_TOKEN"]

  /** The token for REST calls: the first defined of its variables, trimmed. */
  function ApiAuthToken(env: Env): (t: string)
    ensures IsTrimmed(t)
    ensures forall i: nat :: FirstDefinedAt(env, ApiTokenNames, i) ==> t == Strip(env[ApiTokenNames[i]])
    ensures NoneDefined(env, ApiTokenNames) ==> t == []
  {
    FirstDefinedChoice(env, ApiTokenNames, "");
    Strip(FirstDefined(env, ApiTokenNames, ""))
  }

  /** The token for WebSocket URLs: the first defined of its variables, trimmed. */
  function WsAuthToken(env: Env): (t: string)
    ensures IsTrimmed(t)
    ensures forall i: nat :: FirstDefinedAt(env, WsTokenNames, i) ==> t == Strip(env[WsTokenNames[i]])
    ensures NoneDefined(env, WsTokenNames) ==> t == []
  {
    FirstDefinedChoice(env, WsTokenNames, "");
    Strip(FirstDefined(env, WsTokenNames, ""))
  }

  /** A defined but blank control-plane token hides every later variable: both tokens are "". */
  lemma BlankControlPlaneTokenWins(env: Env)
    requires "NEXT_PUBLIC_CONTROLPANE_API_TOKEN" in env && AllSpace(env["NEXT_PUBLIC_CONTROLPANE_API_TOKEN"])
    ensures ApiAuthToken(env) == [] && WsAuthToken(env) == []
  {
    StripEmptyIff(env["NEXT_PUBLIC_CONTROLPANE_API_TOKEN"]);
  }

  /** Without the control-plane token, the WebSocket token prefers the ClownPeanuts WebSocket
    * variable to the API tokens. */
  lemma WsTokenPrefersWsVariable(env: Env)
    requires "NEXT_PUBLIC_CONTROLPANE_API_TOKEN" !in env && "NEXT_PUBLIC_CLOWNPEANUTS_WS_TOKEN" in env
    ensures WsAuthToken(env) == Strip(env["NEXT_PUBLIC_CLOWNPEANUTS_WS_TOKEN"])
  {
    FirstDefinedPicksFirst(env, WsTokenNames, "", 1);
  }

  // ---------------------------------------------------------------- headers

  /** A Headers object by header name. The model keys each header by its lower-case name, as
    * the Headers class stores it; callers supply names already lower-cased. */
  type Headers = map<string, string>

  /** withApiAuthHeaders (and the control plane's identical withControlPlaneHeaders): a copy of
    * the request's headers with `Authorization: Bearer <token>` added when there is a token and
    * neither an Authorization nor an X-API-Key header is present; a header already there is never
    * overwritten. */
  function AuthHeaders(token: string, headers: Headers): (merged: Headers)
    ensures forall name :: name in headers ==> name in merged && merged[name] == headers[name]
    ensures merged.Keys <= headers.Keys + {"authorization"}
    ensures "authorization" in merged && "authorization" !in headers <==>
              token != [] && "authorization" !in headers && "x-api-key" !in headers
    ensures "authorization" in merged && "authorization" !in headers ==> merged["authorization"] == "Bearer " + token
  {
    if token != [] && "authorization" !in headers && "x-api-key" !in headers then
      headers["authorization" := "Bearer " + token]
    else headers
  }

  /** withApiAuthHeaders itself: a fresh copy of the given headers, then the conditional set.
    * `token` is the module's REST token, ApiAuthToken of the build environment. */
  method WithApiAuthHeaders(token: string, headers: Option<Headers>) returns (merged: Headers)
    ensures merged == AuthHeaders(token, headers.GetOr(map[]))
  {
    merged := headers.GetOr(map[]);
    if token != [] && "authorization" !in merged && "x-api-key" !in merged {
      merged := merged["authorization" := "Bearer " + token];
    }
  }

  /** Adding the header twice is adding it once. */
  lemma AuthHeadersIdempotent(token: string, headers: Headers)
    ensures AuthHeaders(token, AuthHeaders(token, headers)) == AuthHeaders(token, headers)
  {
  }

  /** The options of a fetch call; `other` stands for every option besides the headers. */
  datatype RequestInit = RequestInit(headers: Option<Headers>, other: map<string, string>)

  datatype Fetch = Fetch(url: string, init: RequestInit)

  /** `{ ...(init ?? {}) }` with its headers replaced by the given ones. */
  function WithHeaders(init: Option<RequestInit>, headers: Headers): (next: RequestInit)
    ensures next.headers == Some(headers)
    ensures init.Some? ==> next.other == init.value.other
    ensures init.None? ==> next.other == map[]
  {
    var base := init.GetOr(RequestInit(None, map[]));
    base.(headers := Some(headers))
  }

  /** cpFetch: the URL as given; the options copied, with the headers replaced by the given ones
    * plus the bearer header for the REST token. */
  function ApiFetch(env: Env, url: string, init: Option<RequestInit>): (f: Fetch)
    ensures f.url == url && f.init.headers.Some?
    ensures init.Some? ==> f.init.other == init.value.other
    ensures var given := if init.Some? then init.value.headers.GetOr(map[]) else map[];
            f.init.headers.value == AuthHeaders(ApiAuthToken(env), given)
  {
    var given := if init.Some? then init.value.headers.GetOr(map[]) else map[];
    Fetch(url, WithHeaders(init, AuthHeaders(ApiAuthToken(env), given)))
  }

  // ---------------------------------------------------------------- URLs

  /** A URL as `new URL` parses it: everything before the query, the search parameters in order,
    * and the fragment. */
  datatype WebUrl = WebUrl(prefix: string, search: Pairs, hash: string)

  /** A link: text `new URL` refuses, or a parsed URL. */
  datatype Link = Unparsed(text: string) | Parsed(url: WebUrl)

  /** URLSearchParams.set: the first pair of that name gets the value and the others are removed;
    * a new name is appended. */
  function SetParam(params: Pairs, name: string, value: string): (r: Pairs)
    ensures Keys(r) == Keys(params) + {name}
    ensures Value(r, name) == Some(value)
    ensures forall k :: k != name ==> Value(r, k) == Value(params, k)
    ensures name !in Keys(params) ==> r == params + [(name, value)]
  {
    if |params| == 0 then [(name, value)]
    else if params[0].0 == name then [(name, value)] + RemoveParam(params[1..], name)
    else [params[0]] + SetParam(params[1..], name, value)
  }

  /** URLSearchParams.delete. */
  function RemoveParam(params: Pairs, name: string): (r: Pairs)
    ensures Keys(r) == Keys(params) - {name}
    ensures forall k :: k != name ==> Value(r, k) == Value(params, k)
  {
    if |params| == 0 then []
    else if params[0].0 == name then RemoveParam(params[1..], name)
    else [params[0]] + RemoveParam(params[1..], name)
  }

  /** withApiTokenQuery: with a WebSocket token, a parsed URL without a `token` parameter gets
    * one; no token, an unparsable URL or an existing `token` leaves it as it was. */
  function WithApiTokenQuery(env: Env, link: Link): (r: Link)
    ensures WsAuthToken(env) == [] || link.Unparsed? ==> r == link
    ensures link.Parsed? && "token" in Keys(link.url.search) ==> r == link
    ensures r.Parsed? <==> link.Parsed?
    ensures r.Parsed? ==> r.url.prefix == link.url.prefix && r.url.hash == link.url.hash
  {
    var token := WsAuthToken(env);
    if token == [] then link
    else match link
      case Unparsed(_) => link
      case Parsed(url) =>
        if "token" in Keys(url.search) then link
        else Parsed(url.(search := SetParam(url.search, "token", token)))
  }

  /** A parsed URL ends up with a `token` parameter: the WebSocket token when it had none, its own
    * otherwise; every other parameter is untouched. */
  lemma WithApiTokenQueryToken(env: Env, url: WebUrl)
    requires WsAuthToken(env) != []
    ensures var r := WithApiTokenQuery(env, Parsed(url));
            && r.Parsed?
            && (Value(url.search, "token").None? ==> Value(r.url.search, "token") == Some(WsAuthToken(env)))
            && (Value(url.search, "token").Some? ==> Value(r.url.search, "token") == Value(url.search, "token"))
            && (forall k :: k != "token" ==> Value(r.url.search, k) == Value(url.search, k))
  {
  }

  lemma WithApiTokenQueryIdempotent(env: Env, link: Link)
    ensures WithApiTokenQuery(env, WithApiTokenQuery(env, link)) == WithApiTokenQuery(env, link)
  {
  }

  /** Setting the parameters one after another. */
  function SetAll(params: Pairs, updates: Pairs): Pairs
    decreases |updates|
  {
    if |updates| == 0 then params
    else SetAll(SetParam(params, updates[0].0, updates[0].1), updates[1..])
  }

  /** After the updates every updated name holds the value it was set to last, and every other
    * name its old value. */
  lemma {:induction false} SetAllValue(params: Pairs, updates: Pairs, name: string)
    ensures Value(SetAll(params, updates), name) ==
              if LastValue(updates, name).Some? then LastValue(updates, name) else Value(params, name)
    decreases |updates|
  {
    if |updates| > 0 {
      SetAllValue(SetParam(params, updates[0].0, updates[0].1), updates[1..], name);
    }
  }

  lemma {:induction false} SetAllPrefix(params: Pairs, updates: Pairs, i: nat)
    requires i < |updates|
    ensures SetAll(params, updates[..i + 1]) == SetParam(SetAll(params, updates[..i]), updates[i].0, updates[i].1)
    decreases i
  {
    if i > 0 {
      var tail := updates[1..];
      assert updates[..i + 1][1..] == tail[..i];
      assert updates[..i][1..] == tail[..i - 1];
      SetAllPrefix(SetParam(params, updates[0].0, updates[0].1), tail, i - 1);
    } else {
      assert updates[..1][1..] == [];
    }
  }

  /** withQueryParams: each entry set on the parsed URL in turn; an unparsable URL is returned
    * as it was. */
  method WithQueryParams(link: Link, updates: Pairs) returns (r: Link)
    ensures link.Unparsed? ==> r == link
    ensures link.Parsed? ==> r == Parsed(link.url.(search := SetAll(link.url.search, updates)))
  {
    if link.Unparsed? {
      return link;
    }
    var search := link.url.search;
    var i := 0;
    while i < |updates|
      invariant 0 <= i <= |updates|
      invariant search == SetAll(link.url.search, updates[..i])
    {
      SetAllPrefix(link.url.search, updates, i);
      search := SetParam(search, updates[i].0, updates[i].1);
      i := i + 1;
    }
    assert updates[..i] == updates;
    r := Parsed(link.url.(search := search));
  }
}
