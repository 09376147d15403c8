/** The dashboard's own client for the control-plane API: the configured base URL and token, and
  * the fetch that joins a path onto that base and authorises the request. */
module DashboardControlPlane {
  import opened Wrappers
  import opened Text
  import opened DashboardApi

  /** The control plane's token: its one variable, trimmed. */
  function ControlPlaneToken(env: Env): (t: string)
    ensures IsTrimmed(t)
    ensures "NEXT_PUBLIC_CONTROLPANE_API_TOKEN" !in env ==> t == []
    ensures "NEXT_PUBLIC_CONTROLPANE_API_TOKEN" in env ==> t == Strip(env["NEXT_PUBLIC_CONTROLPANE_API_TOKEN"])
  {
    Strip(FirstDefined(env, ["NEXT_PUBLIC_CONTROLPANE_API_TOKEN"], ""))
  }

  /** Whenever its variable is defined, the control plane's token is the REST token the deception
    * client uses, since that variable comes first in both. */
  lemma ControlPlaneTokenIsApiToken(env: Env)
    requires "NEXT_PUBLIC_CONTROLPANE_API_TOKEN" in env
    ensures ControlPlaneToken(env) == ApiAuthToken(env) == WsAuthToken(env)
  {
  }

  /** A path given without its leading '/' gets one; a path with one is kept. */
  function NormalizePath(path: string): (p: string)
    ensures |p| > 0 && p[0] == '/'
    ensures StartsWith(path, "/") ==> p == path
    ensures !StartsWith(path, "/") ==> p == "/" + path
  {
    if StartsWith(path, "/") then path else "/" + path
  }

  lemma NormalizePathIdempotent(path: string)
    ensures NormalizePath(NormalizePath(path)) == NormalizePath(path)
  {
  }

  /** controlplaneFetch: the base URL followed by the normalised path; the options copied, with
    * the headers replaced by the given ones plus the bearer header for the control plane's token. */
  function ControlPlaneFetch(env: Env, path: string, init: Option<RequestInit>): (f: Fetch)
    ensures f.url == ControlPlaneBase(env) + NormalizePath(path)
    ensures f.init.headers.Some?
    ensures init.Some? ==> f.init.other == init.value.other
    ensures var given := if init.Some? then init.value.headers.GetOr(map[]) else map[];
            f.init.headers.value == AuthHeaders(ControlPlaneToken(env), given)
  {
    var given := if init.Some? then init.value.headers.GetOr(map[]) else map[];
    Fetch(ControlPlaneBase(env) + NormalizePath(path), WithHeaders(init, AuthHeaders(ControlPlaneToken(env), given)))
  }

  /** A call with a path with or without its leading '/' reaches the same URL. */
  lemma ControlPlaneFetchIgnoresMissingSlash(env: Env, path: string, init: Option<RequestInit>)
    ensures ControlPlaneFetch(env, path, init) == ControlPlaneFetch(env, NormalizePath(path), init)
  {
    NormalizePathIdempotent(path);
  }

  /** An X-API-Key the caller set keeps the token out of the request. */
  lemma ApiKeyHeaderSuppressesBearer(env: Env, path: string, headers: Headers, other: map<string, string>)
    requires "x-api-key" in headers && "authorization" !in headers
    ensures var f := ControlPlaneFetch(env, path, Some(RequestInit(Some(headers), other)));
            f.init.headers == Some(headers)
  {
  }
}
