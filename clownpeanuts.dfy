/** The HTTP adapter towards the ClownPeanuts API: how it normalises its base URL and token, which
  * headers it sends, how request and proxy URLs are joined, and how upstream replies are shaped.
  * The HTTP exchange itself is not modelled; its reply is an input. */
module ClownPeanuts {
  import opened Wrappers
  import opened Text
  import opened Json

  newtype byte = x: int | 0 <= x < 256

  datatype Adapter = Adapter(baseUrl: string, apiToken: string)

  /** The constructor: trailing '/' removed from the base URL, the token (or "") trimmed. */
  function NewAdapter(baseUrl: string, apiToken: Option<string>): (a: Adapter)
    ensures a.baseUrl <= baseUrl
    ensures forall k :: |a.baseUrl| <= k < |baseUrl| ==> baseUrl[k] == '/'
    ensures a.baseUrl == [] || a.baseUrl[|a.baseUrl| - 1] != '/'
    ensures IsTrimmed(a.apiToken)
    ensures apiToken.None? ==> a.apiToken == []
    ensures apiToken.Some? ==> a.apiToken == Strip(apiToken.value)
  {
    Adapter(RStripChar(baseUrl, '/'), Strip(apiToken.GetOr([])))
  }

  /** Building an adapter from an already normalised one changes nothing. */
  lemma NewAdapterIdempotent(baseUrl: string, apiToken: Option<string>)
    ensures var a := NewAdapter(baseUrl, apiToken);
            NewAdapter(a.baseUrl, Some(a.apiToken)) == a
  {
    var a := NewAdapter(baseUrl, apiToken);
    StripIdempotent(apiToken.GetOr([]));
    assert RStripChar(a.baseUrl, '/') == a.baseUrl;
  }

  /** The request headers: a bearer Authorization exactly when there is a token, a Content-Type
    * exactly when one is given and non-empty, and nothing else. */
  function Headers(a: Adapter, contentType: Option<string>): (h: map<string, string>)
    ensures "Authorization" in h <==> a.apiToken != []
    ensures "Authorization" in h ==> h["Authorization"] == "Bearer " + a.apiToken
    ensures "Content-Type" in h <==> contentType.Some? && contentType.value != []
    ensures "Content-Type" in h ==> h["Content-Type"] == contentType.value
    ensures h.Keys <= {"Authorization", "Content-Type"}
  {
    var auth: map<string, string> := if a.apiToken != [] then map["Authorization" := "Bearer " + a.apiToken] else map[];
    if contentType.Some? && contentType.value != [] then auth["Content-Type" := contentType.value] else auth
  }

  /** `tail` is `path` after its leading '/'s: a suffix of it, preceded only by '/'s and not
    * itself starting with one. */
  predicate LeadingSlashesRemoved(path: string, tail: string) {
    && |tail| <= |path| && tail == path[|path| - |tail|..]
    && (forall k :: 0 <= k < |path| - |tail| ==> path[k] == '/')
    && (tail == [] || tail[0] != '/')
  }

  /** The URL of a request: the base URL, one '/', then the path without its leading '/'s. */
  function RequestUrl(a: Adapter, path: string): (url: string)
    ensures |url| > |a.baseUrl| && url[..|a.baseUrl|] == a.baseUrl && url[|a.baseUrl|] == '/'
    ensures |url| == |a.baseUrl| + 1 || url[|a.baseUrl| + 1] != '/'
    ensures LeadingSlashesRemoved(path, url[|a.baseUrl| + 1..])
  {
    a.baseUrl + "/" + LStripChar(path, '/')
  }

  /** Leading '/'s in the path make no difference to the URL. */
  lemma RequestUrlIgnoresLeadingSlash(a: Adapter, path: string)
    ensures RequestUrl(a, "/" + path) == RequestUrl(a, path)
  {
    assert ("/" + path)[1..] == path;
  }

  /** The URL of a proxied request: the request URL, then "?" and the query string when it is
    * non-empty. */
  function ProxyUrl(a: Adapter, path: string, queryString: string): (url: string)
    ensures queryString == [] ==> url == RequestUrl(a, path)
    ensures queryString != [] ==> url == RequestUrl(a, path) + "?" + queryString
  {
    var base := RequestUrl(a, path);
    if queryString != [] then base + "?" + queryString else base
  }

  /** A request as the adapter sends it. */
  datatype Outgoing = Outgoing(verb: string, url: string, headers: map<string, string>, content: seq<byte>)

  /** request_json's request: upper-cased method, the joined URL, headers without Content-Type. */
  function JsonRequest(a: Adapter, verb: string, path: string): (r: Outgoing)
    ensures r.verb == Upper(verb) && r.url == RequestUrl(a, path)
    ensures r.headers == Headers(a, None)
    ensures "Content-Type" !in r.headers
  {
    Outgoing(Upper(verb), RequestUrl(a, path), Headers(a, None), [])
  }

  /** The status call: GET on <base>/status. */
  function StatusRequest(a: Adapter): (r: Outgoing)
    ensures r.verb == "GET" && r.url == a.baseUrl + "/status"
  {
    UpperOfGet();
    StatusUrl(a);
    JsonRequest(a, "GET", "/status")
  }

  lemma StatusUrl(a: Adapter)
    ensures RequestUrl(a, "/status") == a.baseUrl + "/status"
  {
    var tail := LStripChar("/status", '/');
    assert tail == "status" by {
      assert "/status"[0] == '/' && "/status"[1] != '/';
      assert |tail| == 6;
    }
  }

  lemma UpperOfGet()
    ensures Upper("GET") == "GET"
  {
    var u := Upper("GET");
    assert u[0] == 'G' && u[1] == 'E' && u[2] == 'T';
  }

  /** proxy's request: the body and Content-Type of the incoming request passed on. */
  function ProxyRequest(a: Adapter, verb: string, path: string, queryString: string, body: seq<byte>, contentType: Option<string>): (r: Outgoing)
    ensures r.verb == Upper(verb)
    ensures r.url == ProxyUrl(a, path, queryString) && r.content == body
    ensures r.headers == Headers(a, contentType)
  {
    Outgoing(Upper(verb), ProxyUrl(a, path, queryString), Headers(a, contentType), body)
  }

  /** A reply from the ClownPeanuts API; `json` is what response.json() gives, or its error. */
  datatype Reply = Reply(status: int, headers: map<string, string>, content: seq<byte>, json: Result<Json, string>)

  predicate IsSuccess(status: int) {
    200 <= status < 300
  }

  datatype RequestError = HttpStatusError(status: int) | DecodeError(message: string)

  /** request_json's handling of the reply: a non-2xx status raises, an undecodable body raises,
    * a JSON object is returned as is and any other JSON value is wrapped as {"payload": value}. */
  function RequestJson(reply: Reply): (r: Result<map<string, Json>, RequestError>)
    ensures !IsSuccess(reply.status) ==> r == Failure(HttpStatusError(reply.status))
    ensures IsSuccess(reply.status) && reply.json.Failure? ==> r == Failure(DecodeError(reply.json.error))
  {
    if !IsSuccess(reply.status) then Failure(HttpStatusError(reply.status))
    else match reply.json
      case Failure(message) => Failure(DecodeError(message))
      case Success(body) => Success(if body.JObject? then body.fields else map["payload" := body])
  }

  /** A successful reply's JSON is always handed back: an object as itself, anything else under
    * "payload". */
  lemma RequestJsonKeepsBody(reply: Reply)
    requires IsSuccess(reply.status) && reply.json.Success?
    ensures RequestJson(reply).Success?
    ensures reply.json.value.JObject? ==> JObject(RequestJson(reply).value) == reply.json.value
    ensures !reply.json.value.JObject? ==> Get(RequestJson(reply).value, "payload") == reply.json.value
    ensures !reply.json.value.JObject? ==> RequestJson(reply).value.Keys == {"payload"}
  {
  }

  /** proxy's result: the status passed through whatever it is, the body, and exactly one header,
    * content-type, taken from the reply or "application/json". */
  function ProxyResult(reply: Reply): (r: (int, map<string, string>, seq<byte>))
    ensures r.0 == reply.status && r.2 == reply.content
    ensures r.1.Keys == {"content-type"}
    ensures "content-type" in reply.headers ==> r.1["content-type"] == reply.headers["content-type"]
    ensures "content-type" !in reply.headers ==> r.1["content-type"] == "application/json"
  {
    var contentType := if "content-type" in reply.headers then reply.headers["content-type"] else "application/json";
    (reply.status, map["content-type" := contentType], reply.content)
  }
}
