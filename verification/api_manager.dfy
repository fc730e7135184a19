/**
 `ApiManager` of core/infrastructure/api_manager.py: per-service
 configuration, one sliding-window limiter per service, the token record
 state machine of `get_token`/`_authenticate`, and the fail-fast checks of
 `request` up to the point where the HTTP call is made.

 The clock is the parameter `now` (whole seconds). The replies of the OAuth
 token endpoint are inputs (`TokenServer`); the HTTP request itself is not
 performed: `Request` returns the call it would make, and `HandleResponse`
 models what happens to the reply.

 Every operation returns the manager state together with its result,
 because the source mutates state before it raises (a refused call still
 prunes the limiter's window).
 */
module ApiAccess {
  import opened Common
  import opened RateLimiting

  /** A static API key used as a token expires after 365 days (in seconds). */
  const ApiKeyLifetime := 365 * 24 * 60 * 60
  const AuthorizationHeader := "Authorization"

  datatype ApiConfig = ApiConfig(
    baseUrl: string,
    apiKey: Option<string>,
    clientId: Option<string>,
    clientSecret: Option<string>,
    scopes: Option<seq<string>>,
    rateLimit: int,
    timeout: int)

  datatype TokenRecord = TokenRecord(token: string, expiresAt: int)

  /** The three dictionaries of `ApiManager`, all keyed by service name. */
  datatype Manager = Manager(
    configs: map<string, ApiConfig>,
    limiters: map<string, RateLimiter>,
    tokens: map<string, TokenRecord>)

  /** The exceptions the source raises: `ValueError("Unknown API")`, a
      `KeyError` on a missing dictionary entry, the rate-limit `Exception`,
      and the error `raise_for_status` raises for a failed reply. */
  datatype ApiError =
    | UnknownApi(name: string)
    | MissingKey(key: string)
    | RateLimitExceeded
    | RequestFailed(status: int)

  datatype Outcome<T> = Outcome(manager: Manager, result: Result<T, ApiError>)

  /** What the token endpoint answered: its HTTP status and, when present,
      the `access_token` and `expires_in` fields of its JSON body. */
  datatype OAuthReply = OAuthReply(status: int, accessToken: Option<string>, expiresIn: Option<int>)

  /** The replies to the first and to the second token exchange that one
      `get_token` call may make. */
  datatype TokenServer = TokenServer(first: OAuthReply, second: OAuthReply)

  /** The request `request` hands to the HTTP session. */
  datatype HttpCall = HttpCall(verb: string, url: string, headers: map<string, string>, timeout: int)

  /** The call `request` makes, and the caller's own `headers` dictionary
      as it is afterwards: `headers or {}` aliases a non-empty dictionary,
      so the bearer header is written into the caller's object. */
  datatype Prepared = Prepared(call: HttpCall, callerHeaders: map<string, string>)

  function NewManager(): (m: Manager)
    ensures Valid(m)
    ensures m.configs == map[] && m.tokens == map[]
  {
    Manager(map[], map[], map[])
  }

  /** What every operation of the manager keeps true: each registered
      service has a limiter built from its configuration, and tokens exist
      only for registered services. */
  ghost predicate Valid(m: Manager) {
    && m.limiters.Keys == m.configs.Keys
    && m.tokens.Keys <= m.configs.Keys
    && forall n :: n in m.configs ==>
         m.limiters[n].calls == m.configs[n].rateLimit && m.limiters[n].period == DefaultPeriod
  }

  /** `register_api`: store the configuration and a fresh limiter with
      `rate_limit` calls per 60 seconds; last registration wins. */
  function RegisterApi(m: Manager, name: string, c: ApiConfig): (r: Manager)
    ensures name in r.configs && r.configs[name] == c
    ensures name in r.limiters && r.limiters[name].timestamps == []
    ensures r.limiters[name].calls == c.rateLimit && r.limiters[name].period == DefaultPeriod
    ensures r.configs - {name} == m.configs - {name}
    ensures r.limiters - {name} == m.limiters - {name}
    // a token issued under an earlier registration is kept
    ensures r.tokens == m.tokens
    ensures Valid(m) ==> Valid(r)
  {
    m.(configs := m.configs[name := c],
       limiters := m.limiters[name := NewLimiter(c.rateLimit, DefaultPeriod)])
  }

  /** Both OAuth client credentials are set (non-empty). */
  predicate UsesOAuth(c: ApiConfig) {
    Truthy(c.clientId) && Truthy(c.clientSecret)
  }

  /** `_authenticate`: OAuth client credentials take precedence over a
      static key; a static key is its own token for a year; with neither,
      nothing is stored. A reply other than 200 is ignored. */
  function Authenticate(m: Manager, name: string, now: int, reply: OAuthReply): (r: Outcome<()>)
    ensures r.manager.configs == m.configs && r.manager.limiters == m.limiters
    ensures r.manager.tokens - {name} == m.tokens - {name}
    ensures name in m.tokens ==> name in r.manager.tokens
    ensures name !in m.configs ==> r == Outcome(m, Err(UnknownApi(name)))
    ensures name in m.configs && UsesOAuth(m.configs[name]) ==>
      if reply.status != 200 then r == Outcome(m, Ok(()))
      else if reply.accessToken.Some? && reply.expiresIn.Some? then
        r == Outcome(m.(tokens := m.tokens[name := TokenRecord(reply.accessToken.value, now + reply.expiresIn.value)]), Ok(()))
      else r.manager == m && r.result.Err?
    ensures name in m.configs && !UsesOAuth(m.configs[name]) && Truthy(m.configs[name].apiKey) ==>
      r == Outcome(m.(tokens := m.tokens[name := TokenRecord(m.configs[name].apiKey.value, now + ApiKeyLifetime)]), Ok(()))
    ensures name in m.configs && !UsesOAuth(m.configs[name]) && !Truthy(m.configs[name].apiKey) ==>
      r == Outcome(m, Ok(()))
    ensures r.result.Err? ==> r.result.error.UnknownApi? || r.result.error.MissingKey?
    ensures Valid(m) ==> Valid(r.manager)
  {
    if name !in m.configs then Outcome(m, Err(UnknownApi(name)))
    else
      var c := m.configs[name];
      if UsesOAuth(c) then
        if reply.status != 200 then Outcome(m, Ok(()))
        else if reply.accessToken.None? then Outcome(m, Err(MissingKey("access_token")))
        else if reply.expiresIn.None? then Outcome(m, Err(MissingKey("expires_in")))
        else
          var rec := TokenRecord(reply.accessToken.value, now + reply.expiresIn.value);
          Outcome(m.(tokens := m.tokens[name := rec]), Ok(()))
      else if Truthy(c.apiKey) then
        Outcome(m.(tokens := m.tokens[name := TokenRecord(c.apiKey.value, now + ApiKeyLifetime)]), Ok(()))
      else Outcome(m, Ok(()))
  }

  /** The token stored for `name`, if any. */
  function StoredToken(m: Manager, name: string): Option<string> {
    if name in m.tokens then Some(m.tokens[name].token) else None
  }

  /** `r` is what `get_token` answers right after the authentication `a`:
      the state `a` left, `a`'s error if it raised, and otherwise the token
      stored for `name`, if any. */
  predicate AnswersAfter(r: Outcome<Option<string>>, a: Outcome<()>, name: string) {
    && r.manager == a.manager
    && (a.result.Err? ==> r.result == Err(a.result.error))
    && (a.result.Ok? ==> r.result == Ok(StoredToken(a.manager, name)))
  }

  /** `get_token`: authenticate when there is no record, and again when the
      record has expired (`now > expires_at`); otherwise answer from the
      record. The answer is always the token stored afterwards. */
  function GetToken(m: Manager, name: string, now: int, server: TokenServer): (r: Outcome<Option<string>>)
    ensures r.manager.configs == m.configs && r.manager.limiters == m.limiters
    ensures r.manager.tokens - {name} == m.tokens - {name}
    ensures name in m.tokens ==> name in r.manager.tokens
    // a record that is still valid is returned without authenticating
    ensures name in m.tokens && now <= m.tokens[name].expiresAt ==>
      r == Outcome(m, Ok(Some(m.tokens[name].token)))
    ensures name !in m.tokens && name !in m.configs ==> r == Outcome(m, Err(UnknownApi(name)))
    // with no record, it authenticates with the first reply, and once more
    // with the second when the record just stored has already expired
    ensures name !in m.tokens ==>
      var a := Authenticate(m, name, now, server.first);
      if a.result.Ok? && name in a.manager.tokens && now > a.manager.tokens[name].expiresAt
      then AnswersAfter(r, Authenticate(a.manager, name, now, server.second), name)
      else AnswersAfter(r, a, name)
    // an expired record is refreshed with the first reply
    ensures name in m.tokens && now > m.tokens[name].expiresAt ==>
      AnswersAfter(r, Authenticate(m, name, now, server.first), name)
    ensures r.result.Ok? ==> r.result.value == StoredToken(r.manager, name)
    ensures r.result.Err? ==> r.result.error.UnknownApi? || r.result.error.MissingKey?
    ensures Valid(m) ==> Valid(r.manager)
  {
    var first := if name !in m.tokens then Authenticate(m, name, now, server.first) else Outcome(m, Ok(()));
    if first.result.Err? then Outcome(first.manager, Err(first.result.error))
    else
      var m1 := first.manager;
      if name !in m1.tokens then Outcome(m1, Ok(None))
      else if now > m1.tokens[name].expiresAt then
        // the refresh is the first exchange when a record already existed
        var reply := if name in m.tokens then server.first else server.second;
        var second := Authenticate(m1, name, now, reply);
        if second.result.Err? then Outcome(second.manager, Err(second.result.error))
        else Outcome(second.manager, Ok(Some(second.manager.tokens[name].token)))
      else Outcome(m1, Ok(Some(m1.tokens[name].token)))
  }

  /** Adds `Authorization: Bearer <token>` when the token is non-empty. */
  function WithBearer(headers: map<string, string>, token: Option<string>): (r: map<string, string>)
    ensures Truthy(token) ==> AuthorizationHeader in r && r[AuthorizationHeader] == "Bearer " + token.value
    ensures !Truthy(token) ==> r == headers
    ensures r - {AuthorizationHeader} == headers - {AuthorizationHeader}
  {
    if Truthy(token) then headers[AuthorizationHeader := "Bearer " + token.value] else headers
  }

  /** `s.rstrip('/')` */
  function RStripSlash(s: string): (r: string)
    ensures |r| <= |s| && r == s[..|r|]
    ensures forall i :: |r| <= i < |s| ==> s[i] == '/'
    ensures |r| == 0 || r[|r| - 1] != '/'
    decreases |s|
  {
    if |s| > 0 && s[|s| - 1] == '/' then RStripSlash(s[..|s| - 1]) else s
  }

  /** `s.lstrip('/')` */
  function LStripSlash(s: string): (r: string)
    ensures |r| <= |s| && r == s[|s| - |r|..]
    ensures forall i :: 0 <= i < |s| - |r| ==> s[i] == '/'
    ensures |r| == 0 || r[0] != '/'
    decreases |s|
  {
    if |s| > 0 && s[0] == '/' then LStripSlash(s[1..]) else s
  }

  /** The request URL: the base without its trailing slashes, exactly one
      slash, and the endpoint without its leading slashes. */
  function JoinUrl(base: string, endpoint: string): (url: string)
    ensures var i := |RStripSlash(base)|;
      && i < |url| && url[i] == '/'
      && url[..i] == base[..i]
      && (i == 0 || url[i - 1] != '/')
      && (i + 1 == |url| || url[i + 1] != '/')
      && |url| - i - 1 <= |endpoint|
      && url[i + 1..] == endpoint[|endpoint| - (|url| - i - 1)..]
  {
    RStripSlash(base) + "/" + LStripSlash(endpoint)
  }

  /** `n` slashes. */
  function Slashes(n: nat): (s: string)
    ensures |s| == n && forall i :: 0 <= i < n ==> s[i] == '/'
  {
    seq(n, _ => '/')
  }

  /** Extra slashes around the junction never change the URL. */
  lemma JoinUrlIgnoresExtraSlashes(base: string, endpoint: string, k1: nat, k2: nat)
    requires |base| == 0 || base[|base| - 1] != '/'
    requires |endpoint| == 0 || endpoint[0] != '/'
    ensures JoinUrl(base + Slashes(k1), Slashes(k2) + endpoint) == base + "/" + endpoint
  {
    var b := base + Slashes(k1);
    var e := Slashes(k2) + endpoint;
    var rb := RStripSlash(b);
    var le := LStripSlash(e);
    // the strips remove exactly the added slashes
    assert forall i :: |base| <= i < |b| ==> b[i] == '/';
    if |base| > 0 {
      assert b[|base| - 1] != '/';
    }
    assert rb == base;
    assert forall i :: 0 <= i < k2 ==> e[i] == '/';
    if |endpoint| > 0 {
      assert e[k2] != '/';
    }
    assert le == endpoint;
  }

  /** The gate `request` passes first: an unknown service fails before its
      limiter is touched; otherwise the limiter's `acquire` decides, and its
      pruned window is kept even when the call is refused. */
  function Admit(m: Manager, name: string, now: int): (r: Outcome<()>)
    ensures name !in m.configs ==> r == Outcome(m, Err(UnknownApi(name)))
    ensures r.manager.configs == m.configs && r.manager.tokens == m.tokens
    ensures r.manager.limiters - {name} == m.limiters - {name}
    ensures name in m.configs && name in m.limiters ==>
      && name in r.manager.limiters
      && r.manager.limiters[name] == Acquire(m.limiters[name], now).limiter
      && (r.result.Ok? <==> Acquire(m.limiters[name], now).admitted)
      && (r.result.Err? ==> r.result.error == RateLimitExceeded)
    ensures Valid(m) ==> Valid(r.manager)
  {
    if name !in m.configs then Outcome(m, Err(UnknownApi(name)))
    else if name !in m.limiters then Outcome(m, Err(MissingKey(name)))
    else
      var a := Acquire(m.limiters[name], now);
      var m1 := m.(limiters := m.limiters[name := a.limiter]);
      if a.admitted then Outcome(m1, Ok(())) else Outcome(m1, Err(RateLimitExceeded))
  }

  /** `request` up to the HTTP call: the gate first, so a refused admission
      fails before any token is fetched; otherwise the token is resolved and
      attached. `headers` stands for both `None` and a dictionary; an empty
      one is falsy, so `headers or {}` then builds a fresh dictionary. */
  function Request(m: Manager, name: string, verb: string, endpoint: string,
                   headers: map<string, string>, now: int, server: TokenServer): (r: Outcome<Prepared>)
    ensures name !in m.configs ==> r == Outcome(m, Err(UnknownApi(name)))
    ensures r.manager.configs == m.configs
    ensures Admit(m, name, now).result.Err? ==> r == Outcome(Admit(m, name, now).manager, Err(Admit(m, name, now).result.error))
    ensures r.result == Err(RateLimitExceeded) <==> name in m.configs && Admit(m, name, now).result == Err(RateLimitExceeded)
    ensures r.result.Ok? ==>
      && name in m.configs
      && Admit(m, name, now).result.Ok?
      && r.result.value.call.verb == verb
      && r.result.value.call.url == JoinUrl(m.configs[name].baseUrl, endpoint)
      && r.result.value.call.timeout == m.configs[name].timeout
      && r.result.value.call.headers == WithBearer(headers, StoredToken(r.manager, name))
      // the admission is recorded, and only this service's token may change
      && r.manager.limiters == Admit(m, name, now).manager.limiters
      && r.manager.tokens - {name} == m.tokens - {name}
      // a non-empty dictionary of the caller's is the one sent, bearer header included
      && r.result.value.callerHeaders == (if |headers| > 0 then r.result.value.call.headers else headers)
    // past the gate, the token and the state are what `get_token` gives, and its error is the request's
    ensures Admit(m, name, now).result.Ok? ==>
      var t := GetToken(Admit(m, name, now).manager, name, now, server);
      && r.manager == t.manager
      && (t.result.Err? ==> r.result == Err(t.result.error))
      && (t.result.Ok? ==> r.result.Ok? && r.result.value.call.headers == WithBearer(headers, t.result.value))
  {
    var g := Admit(m, name, now);
    if g.result.Err? then Outcome(g.manager, Err(g.result.error))
    else
      var t := GetToken(g.manager, name, now, server);
      if t.result.Err? then Outcome(t.manager, Err(t.result.error))
      else
        var c := m.configs[name];
        var sent := WithBearer(headers, t.result.value);
        Outcome(t.manager, Ok(Prepared(HttpCall(verb, JoinUrl(c.baseUrl, endpoint), sent, c.timeout),
                                       if |headers| > 0 then sent else headers)))
  }

  /** A caller who passes a non-empty `headers` dictionary to a service with
      a token and reuses it for a service without one sends the first
      service's bearer token to the second. */
  lemma ReusedHeadersCarryEarlierToken(m: Manager, a: string, verb: string, endpoint: string,
                                       headers: map<string, string>, now: int, server: TokenServer,
                                       m2: Manager, b: string, verb2: string, endpoint2: string,
                                       now2: int, server2: TokenServer)
    requires |headers| > 0
    ensures var r1 := Request(m, a, verb, endpoint, headers, now, server);
      r1.result.Ok? && Truthy(StoredToken(r1.manager, a)) ==>
        var r2 := Request(m2, b, verb2, endpoint2, r1.result.value.callerHeaders, now2, server2);
        r2.result.Ok? && !Truthy(StoredToken(r2.manager, b)) ==>
          && AuthorizationHeader in r2.result.value.call.headers
          && r2.result.value.call.headers[AuthorizationHeader] == "Bearer " + StoredToken(r1.manager, a).value
  {
  }

  /** `request` keeps the manager's invariant, whatever happens. */
  lemma RequestKeepsValid(m: Manager, name: string, verb: string, endpoint: string,
                          headers: map<string, string>, now: int, server: TokenServer)
    requires Valid(m)
    ensures Valid(Request(m, name, verb, endpoint, headers, now, server).manager)
  {
    var g := Admit(m, name, now);
    if g.result.Ok? {
      var t := GetToken(g.manager, name, now, server);
    }
  }

  /** `raise_for_status()` then the body: a reply with status 400 or more fails. */
  function HandleResponse(status: int, body: string): (r: Result<string, ApiError>)
    ensures r.Ok? <==> status < 400
    ensures r.Ok? ==> r.value == body
    ensures r.Err? ==> r.error == RequestFailed(status)
  {
    if status >= 400 then Err(RequestFailed(status)) else Ok(body)
  }

  // ---- properties of the token life cycle ----

  /** A static-key service authenticates once: the first `get_token`
      returns the key and stores it for a year, and any later call within
      that year returns the same key without changing anything. */
  lemma StaticKeyAuthenticatesOnce(m: Manager, name: string, now: int, later: int, s1: TokenServer, s2: TokenServer)
    requires name in m.configs && name !in m.tokens
    requires !UsesOAuth(m.configs[name]) && Truthy(m.configs[name].apiKey)
    requires now <= later <= now + ApiKeyLifetime
    ensures var key := m.configs[name].apiKey.value;
      var o1 := GetToken(m, name, now, s1);
      && o1.result == Ok(Some(key))
      && o1.manager.tokens[name] == TokenRecord(key, now + ApiKeyLifetime)
      && GetToken(o1.manager, name, later, s2) == Outcome(o1.manager, Ok(Some(key)))
  {
  }

  /** An expired OAuth token is replaced by exactly one exchange: the first
      reply's token is stored and returned, and the second reply is never used. */
  lemma ExpiredTokenRefreshedOnce(m: Manager, name: string, now: int, server: TokenServer, other: OAuthReply,
                                  token: string, expiresIn: int)
    requires name in m.configs && UsesOAuth(m.configs[name])
    requires name in m.tokens && now > m.tokens[name].expiresAt
    requires server.first == OAuthReply(200, Some(token), Some(expiresIn))
    ensures var r := GetToken(m, name, now, server);
      && r.result == Ok(Some(token))
      && r.manager.tokens == m.tokens[name := TokenRecord(token, now + expiresIn)]
      && r == GetToken(m, name, now, server.(second := other))
  {
  }

  /** A refresh that the token endpoint refuses leaves the token map as it
      was and hands back the expired token. */
  lemma RefusedRefreshReturnsExpiredToken(m: Manager, name: string, now: int, server: TokenServer)
    requires name in m.configs && UsesOAuth(m.configs[name])
    requires name in m.tokens && now > m.tokens[name].expiresAt
    requires server.first.status != 200
    ensures GetToken(m, name, now, server) == Outcome(m, Ok(Some(m.tokens[name].token)))
  {
  }

  /** OAuth credentials win over a static key: when the exchange is refused
      the call stays anonymous even though an API key is configured. */
  lemma OAuthTakesPrecedenceOverKey(m: Manager, name: string, now: int, server: TokenServer)
    requires name in m.configs && name !in m.tokens
    requires UsesOAuth(m.configs[name]) && Truthy(m.configs[name].apiKey)
    ensures server.first.status != 200 ==> GetToken(m, name, now, server) == Outcome(m, Ok(None))
    ensures server.first.status == 200 && server.first.accessToken.Some? && server.first.expiresIn.Some?
            && server.first.expiresIn.value >= 0 ==>
      GetToken(m, name, now, server).result == Ok(server.first.accessToken)
  {
  }

  /** The first `get_token` of an OAuth service stores and returns the token
      the endpoint grants, whether or not a key is configured too. */
  lemma FirstOAuthExchangeStored(m: Manager, name: string, now: int, server: TokenServer,
                                 token: string, expiresIn: int)
    requires name in m.configs && name !in m.tokens && UsesOAuth(m.configs[name])
    requires server.first == OAuthReply(200, Some(token), Some(expiresIn)) && expiresIn >= 0
    ensures var r := GetToken(m, name, now, server);
      && r.result == Ok(Some(token))
      && r.manager.tokens == m.tokens[name := TokenRecord(token, now + expiresIn)]
  {
  }

  /** A static key whose year has run out is stored again for another year,
      and the key is returned. */
  lemma ExpiredStaticKeyRenewed(m: Manager, name: string, now: int, server: TokenServer)
    requires name in m.configs && !UsesOAuth(m.configs[name]) && Truthy(m.configs[name].apiKey)
    requires name in m.tokens && now > m.tokens[name].expiresAt
    ensures var key := m.configs[name].apiKey.value;
      var r := GetToken(m, name, now, server);
      && r.result == Ok(Some(key))
      && r.manager.tokens == m.tokens[name := TokenRecord(key, now + ApiKeyLifetime)]
  {
  }

  /** A service with neither OAuth credentials nor a key gets no token. */
  lemma NoCredentialsMeansAnonymous(m: Manager, name: string, now: int, server: TokenServer)
    requires name in m.configs && name !in m.tokens
    requires !UsesOAuth(m.configs[name]) && !Truthy(m.configs[name].apiKey)
    ensures GetToken(m, name, now, server) == Outcome(m, Ok(None))
  {
  }

  /** The first request to a registered static-key service carries the key
      as a bearer token and is addressed to the joined URL. */
  lemma FirstRequestCarriesKey(name: string, c: ApiConfig, verb: string, endpoint: string,
                               headers: map<string, string>, now: int, server: TokenServer)
    requires c.rateLimit > 0 && !UsesOAuth(c) && Truthy(c.apiKey)
    ensures var r := Request(RegisterApi(NewManager(), name, c), name, verb, endpoint, headers, now, server);
      && r.result.Ok?
      && r.result.value.call.url == JoinUrl(c.baseUrl, endpoint)
      && r.result.value.call.headers == headers[AuthorizationHeader := "Bearer " + c.apiKey.value]
  {
    var m := RegisterApi(NewManager(), name, c);
    assert Prune([], now - DefaultPeriod) == [];
    assert Acquire(m.limiters[name], now).admitted;
  }
}
