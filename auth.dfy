/** Credential handling of the control-plane API: the bearer header parser (section 2.1 of
  * RFC 6750), the credential precedence for HTTP requests and WebSocket connections, the `token`
  * query parameter added to the upstream WebSocket URL, the HTTP auth middleware decision and the
  * WebSocket gate that closes unauthenticated sockets with code 4401. */
module Auth {
  import opened Wrappers
  import opened Text
  import opened Pairs

  /** Request headers by lower-case name (header lookup ignores case; a repeated header gives its
    * first value), and query parameters by name (a repeated parameter gives its last value). */
  type Headers = map<string, string>
  type QueryParams = map<string, string>

  /** mapping.get(key). */
  function Lookup(m: map<string, string>, key: string): (r: Option<string>)
    ensures r.Some? <==> key in m
    ensures r.Some? ==> r.value == m[key]
  {
    if key in m then Some(m[key]) else None
  }

  /** A token that counts: non-empty and free of surrounding whitespace. */
  predicate IsCredential(t: string) {
    t != [] && IsTrimmed(t)
  }

  // ---------------------------------------------------------------- bearer header

  /** The token of an `Authorization: Bearer <token>` header: the trimmed value must split on
    * whitespace into exactly two words, the first of them "bearer" in any letter case. */
  function ExtractBearer(raw: Option<string>): (r: Option<string>)
    ensures r.Some? ==> r.value != [] && NoSpace(r.value)
    ensures raw.None? ==> r.None?
    ensures r.Some? <==> raw.Some? && IsBearerHeader(Words(Strip(raw.value)))
    ensures r.Some? ==> r.value == Words(Strip(raw.value))[1]
  {
    if raw.None? then None
    else
      var value := Strip(raw.value);
      if value == [] then None
      else
        BearerOfWords(Words(value))
  }

  /** The scheme word of an Authorization header names the bearer scheme, in any letter case. */
  predicate IsBearerScheme(word: string) {
    Lower(word) == "bearer"
  }

  /** A header split into words is a bearer header: exactly two words, the first the scheme. */
  predicate IsBearerHeader(parts: seq<string>) {
    |parts| == 2 && IsBearerScheme(parts[0])
  }

  /** The token of a header split into words: the second word of a bearer header. */
  function BearerOfWords(parts: seq<string>): (r: Option<string>)
    requires forall k :: 0 <= k < |parts| ==> parts[k] != [] && NoSpace(parts[k])
    ensures r.Some? <==> IsBearerHeader(parts)
    ensures r.Some? ==> r.value == parts[1]
  {
    if |parts| != 2 || !IsBearerScheme(parts[0]) then None
    else
      var token := Strip(parts[1]);
      assert IsTrimmed(parts[1]) by {
        var word := parts[1];
        assert word != [] && NoSpace(word);
        assert !IsSpace(word[0]) && !IsSpace(word[|word| - 1]);
      }
      StripTrimmed(parts[1]);
      if token == [] then None else Some(token)
  }

  /** `<scheme> <token>` with a case-insensitive "bearer" scheme yields the token back. */
  lemma ExtractBearerOfHeader(scheme: string, token: string)
    requires NoSpace(scheme) && IsBearerScheme(scheme)
    requires token != [] && NoSpace(token)
    ensures ExtractBearer(Some(scheme + " " + token)) == Some(token)
  {
    var header := scheme + " " + token;
    assert scheme != [] by { assert |Lower(scheme)| == 6; }
    assert Strip(header) == header by {
      assert header[0] == scheme[0];
      assert header[|header| - 1] == token[|token| - 1];
      StripTrimmed(header);
    }
    WordsOfPair(scheme, token);
    assert Strip(token) == token by {
      StripTrimmed(token);
    }
    assert BearerOfWords([scheme, token]) == Some(token);
  }

  lemma BearerIsBearerScheme()
    ensures IsBearerScheme("Bearer")
  {
    assert Lower("Bearer") == "bearer" by {
      assert forall i | 0 <= i < 6 :: Lower("Bearer")[i] == "bearer"[i];
    }
  }

  /** A header that is one word only, such as a bare token without a scheme, yields nothing. */
  lemma ExtractBearerNeedsScheme(word: string)
    requires word != [] && NoSpace(word)
    ensures ExtractBearer(Some(word)) == None
  {
    assert IsTrimmed(word);
    StripTrimmed(word);
    TakeWordOfWord(word, []);
    assert word + [] == word;
    assert word[|word|..] == [];
    assert Words(word) == [word];
  }

  // ---------------------------------------------------------------- credential precedence

  /** `if raw: token = raw.strip(); if token: return token`. */
  function Credential(raw: Option<string>): (r: Option<string>)
    ensures r.Some? <==> raw.Some? && Strip(raw.value) != []
    ensures r.Some? ==> r.value == Strip(raw.value) && IsCredential(r.value)
  {
    if raw.Some? && Strip(raw.value) != [] then Some(Strip(raw.value)) else None
  }

  /** The first of two candidates that is present. */
  function OrElse(first: Option<string>, second: Option<string>): (r: Option<string>)
    ensures first.Some? ==> r == first
    ensures first.None? ==> r == second
  {
    if first.Some? then first else second
  }

  /** The credentials a request carries in its headers: a bearer token, else an X-API-Key. */
  function HeaderToken(headers: Headers): Option<string> {
    OrElse(ExtractBearer(Lookup(headers, "authorization")), Credential(Lookup(headers, "x-api-key")))
  }

  /** The credential of an HTTP request: bearer header, then X-API-Key, then the `token` query
    * parameter, the first non-blank one winning. */
  function ResolveRequestToken(headers: Headers, query: QueryParams): (r: Option<string>)
    ensures r.Some? ==> IsCredential(r.value)
    ensures ExtractBearer(Lookup(headers, "authorization")).Some? ==> r == ExtractBearer(Lookup(headers, "authorization"))
    ensures ExtractBearer(Lookup(headers, "authorization")).None? && Credential(Lookup(headers, "x-api-key")).Some? ==>
              r == Credential(Lookup(headers, "x-api-key"))
    ensures ExtractBearer(Lookup(headers, "authorization")).None? && Credential(Lookup(headers, "x-api-key")).None? ==>
              r == Credential(Lookup(query, "token"))
  {
    OrElse(HeaderToken(headers), Credential(Lookup(query, "token")))
  }

  /** The credential of a WebSocket connection: the same headers, then the query parameters
    * `token`, `api_key` and `access_token` in that order. */
  function ResolveWebSocketToken(headers: Headers, query: QueryParams): (r: Option<string>)
    ensures r.Some? ==> IsCredential(r.value)
  {
    OrElse(HeaderToken(headers),
      OrElse(Credential(Lookup(query, "token")),
        OrElse(Credential(Lookup(query, "api_key")), Credential(Lookup(query, "access_token")))))
  }

  /** A credential in the headers wins over anything in the query string. */
  lemma HeadersWinOverQuery(headers: Headers, query1: QueryParams, query2: QueryParams)
    requires HeaderToken(headers).Some?
    ensures ResolveRequestToken(headers, query1) == ResolveRequestToken(headers, query2) == HeaderToken(headers)
    ensures ResolveWebSocketToken(headers, query1) == ResolveWebSocketToken(headers, query2) == HeaderToken(headers)
  {
  }

  /** A blank header value is skipped: an X-API-Key of whitespace does not hide the query token. */
  lemma BlankApiKeyIsSkipped(headers: Headers, query: QueryParams)
    requires "authorization" !in headers
    requires "x-api-key" in headers && AllSpace(headers["x-api-key"])
    ensures ResolveRequestToken(headers, query) == Credential(Lookup(query, "token"))
  {
    StripEmptyIff(headers["x-api-key"]);
  }

  /** A WebSocket connection is resolved like an HTTP request whenever the HTTP rules find a
    * credential; beyond that it also accepts `api_key` and `access_token`. */
  lemma WebSocketExtendsRequest(headers: Headers, query: QueryParams)
    ensures ResolveRequestToken(headers, query).Some? ==>
              ResolveWebSocketToken(headers, query) == ResolveRequestToken(headers, query)
    ensures ResolveRequestToken(headers, query).None? ==>
              ResolveWebSocketToken(headers, query) ==
                OrElse(Credential(Lookup(query, "api_key")), Credential(Lookup(query, "access_token")))
  {
  }

  /** A request that only carries `Authorization: Bearer <token>` resolves to that token. */
  lemma BearerHeaderResolves(token: string, query: QueryParams)
    requires token != [] && NoSpace(token)
    ensures ResolveRequestToken(map["authorization" := "Bearer " + token], query) == Some(token)
  {
    var headers := map["authorization" := "Bearer " + token];
    BearerIsBearerScheme();
    assert NoSpace("Bearer");
    assert "Bearer " + token == "Bearer" + " " + token;
    ExtractBearerOfHeader("Bearer", token);
    assert Lookup(headers, "authorization") == Some("Bearer " + token);
  }

  // ---------------------------------------------------------------- dict(parse_qsl(query))

  /** A URL split into its five parts, its query given as the name/value pairs parse_qsl reads from
    * it with blank values kept. */
  datatype Url = Url(scheme: string, netloc: string, path: string, query: seq<(string, string)>, fragment: string)

  /** d[key] = value on the items of a dict: overwrite the key in place, or append it. */
  function Put(d: seq<(string, string)>, key: string, value: string): (r: seq<(string, string)>)
    ensures Keys(r) == Keys(d) + {key}
    ensures DistinctKeys(d) ==> DistinctKeys(r)
    ensures Value(r, key) == Some(value)
    ensures forall k :: k != key ==> Value(r, k) == Value(d, k)
  {
    if |d| == 0 then [(key, value)]
    else if d[0].0 == key then [(key, value)] + d[1..]
    else [d[0]] + Put(d[1..], key, value)
  }

  /** Inserting the pairs one after another into a dict. */
  function PutAll(d: seq<(string, string)>, pairs: seq<(string, string)>): (r: seq<(string, string)>)
    ensures Keys(r) == Keys(d) + Keys(pairs)
    ensures DistinctKeys(d) ==> DistinctKeys(r)
    decreases |pairs|
  {
    if |pairs| == 0 then d else PutAll(Put(d, pairs[0].0, pairs[0].1), pairs[1..])
  }

  /** dict(pairs) read back as its items: each key once, at the position it first appeared. */
  function DictOf(pairs: seq<(string, string)>): (d: seq<(string, string)>)
    ensures Keys(d) == Keys(pairs)
    ensures DistinctKeys(d)
  {
    PutAll([], pairs)
  }

  lemma {:induction false} PutAllValue(d: seq<(string, string)>, pairs: seq<(string, string)>, key: string)
    ensures Value(PutAll(d, pairs), key) == if LastValue(pairs, key).Some? then LastValue(pairs, key) else Value(d, key)
    decreases |pairs|
  {
    if |pairs| > 0 {
      PutAllValue(Put(d, pairs[0].0, pairs[0].1), pairs[1..], key);
    }
  }

  /** In dict(pairs) a repeated key holds the value it was given last. */
  lemma DictOfKeepsLastValue(pairs: seq<(string, string)>, key: string)
    ensures Value(DictOf(pairs), key) == LastValue(pairs, key)
  {
    PutAllValue([], pairs, key);
  }

  // ---------------------------------------------------------------- upstream WebSocket URL

  /** The URL carries a credential parameter already, even a blank one. */
  predicate CarriesToken(query: seq<(string, string)>)
    ensures CarriesToken(query) <==>
              exists i :: 0 <= i < |query| && (query[i].0 == "token" || query[i].0 == "api_key" || query[i].0 == "access_token")
  {
    KeysAt(query, "token");
    KeysAt(query, "api_key");
    KeysAt(query, "access_token");
    var keys := Keys(query);
    "token" in keys || "api_key" in keys || "access_token" in keys
  }

  /** Adds `token=<token>` to the upstream URL unless the token is empty or the URL carries a
    * credential parameter already; the query is rebuilt from dict(parse_qsl(query)). */
  function WithTokenQuery(url: Url, token: string): (r: Url)
    ensures token == [] || CarriesToken(url.query) ==> r == url
    ensures r.scheme == url.scheme && r.netloc == url.netloc && r.path == url.path && r.fragment == url.fragment
  {
    if token == [] then url
    else
      var query := DictOf(url.query);
      if CarriesToken(query) then url
      else url.(query := Put(query, "token", token))
  }

  /** After the rewrite the URL carries `token` with the given value; every other parameter keeps
    * the value it was last given, and the parameter names are distinct. */
  lemma WithTokenQueryAddsToken(url: Url, token: string)
    requires token != [] && !CarriesToken(url.query)
    ensures Keys(WithTokenQuery(url, token).query) == Keys(url.query) + {"token"}
    ensures DistinctKeys(WithTokenQuery(url, token).query)
    ensures Value(WithTokenQuery(url, token).query, "token") == Some(token)
    ensures forall k :: k != "token" ==> Value(WithTokenQuery(url, token).query, k) == LastValue(url.query, k)
  {
    forall k | k != "token" ensures Value(WithTokenQuery(url, token).query, k) == LastValue(url.query, k) {
      DictOfKeepsLastValue(url.query, k);
    }
  }

  /** Adding the token a second time changes nothing. */
  lemma WithTokenQueryIdempotent(url: Url, token: string)
    ensures WithTokenQuery(WithTokenQuery(url, token), token) == WithTokenQuery(url, token)
  {
  }

  // ---------------------------------------------------------------- HTTP middleware

  datatype Decision =
    | Pass
    | Deny(status: int, detail: string, challenge: string)

  /** The auth middleware: without a configured token, for OPTIONS requests and for /health every
    * request passes; otherwise only a request whose credential equals the configured token. */
  function AuthDecision(configured: string, verb: string, path: string, headers: Headers, query: QueryParams): (d: Decision)
    ensures configured == [] ==> d == Pass
    ensures Upper(verb) == "OPTIONS" || path == "/health" ==> d == Pass
    ensures configured != [] && Upper(verb) != "OPTIONS" && path != "/health" ==>
              (d == Pass <==> ResolveRequestToken(headers, query) == Some(configured))
    ensures d.Deny? ==> d == Deny(401, "authentication required", "Bearer")
  {
    if configured == [] then Pass
    else if Upper(verb) == "OPTIONS" then Pass
    else if path == "/health" then Pass
    else if ResolveRequestToken(headers, query) != Some(configured) then Deny(401, "authentication required", "Bearer")
    else Pass
  }

  /** A client sending `Authorization: Bearer <configured token>` is let through. */
  lemma ConfiguredBearerPasses(configured: string, verb: string, path: string, query: QueryParams)
    requires configured != [] && NoSpace(configured)
    ensures AuthDecision(configured, verb, path, map["authorization" := "Bearer " + configured], query) == Pass
  {
    BearerHeaderResolves(configured, query);
  }

  /** A request without any credential is refused everywhere except OPTIONS and /health. */
  lemma AnonymousIsDenied(configured: string, verb: string, path: string)
    requires configured != [] && Upper(verb) != "OPTIONS" && path != "/health"
    ensures AuthDecision(configured, verb, path, map[], map[]).Deny?
  {
  }

  // ---------------------------------------------------------------- WebSocket gate

  /** Close code for a refused WebSocket: in the private-use range 4000-4999 of section 7.4.2 of
    * RFC 6455. */
  const AuthCloseCode := 4401

  datatype Gate =
    | Close(code: int, reason: string)
    | Relay(url: Url, headers: map<string, string>)

  /** Before a deception WebSocket is relayed: refuse a connection whose credential does not equal
    * the configured token, else connect upstream with the upstream token added to the URL and,
    * when it is non-empty, sent as a bearer header. */
  function WebSocketGate(configured: string, headers: Headers, query: QueryParams, upstreamUrl: Url, upstreamToken: string): (g: Gate)
    ensures g.Close? <==> configured != [] && ResolveWebSocketToken(headers, query) != Some(configured)
    ensures g.Close? ==> g == Close(AuthCloseCode, "authentication required") && 4000 <= g.code <= 4999
    ensures g.Relay? ==> g.url == WithTokenQuery(upstreamUrl, upstreamToken)
    ensures g.Relay? ==> g.headers.Keys <= {"Authorization"}
    ensures g.Relay? ==> ("Authorization" in g.headers <==> upstreamToken != [])
    ensures g.Relay? && upstreamToken != [] ==> g.headers["Authorization"] == "Bearer " + upstreamToken
  {
    if configured != [] && ResolveWebSocketToken(headers, query) != Some(configured) then
      Close(AuthCloseCode, "authentication required")
    else
      var upstreamHeaders: map<string, string> := if upstreamToken != [] then map["Authorization" := "Bearer " + upstreamToken] else map[];
      Relay(WithTokenQuery(upstreamUrl, upstreamToken), upstreamHeaders)
  }

  /** The query-string credentials a browser can send are enough to open the socket. */
  lemma AccessTokenOpensSocket(configured: string)
    requires IsCredential(configured)
    ensures forall url: Url, upstreamToken: string ::
              WebSocketGate(configured, map[], map["access_token" := configured], url, upstreamToken).Relay?
  {
    StripTrimmed(configured);
  }
}
