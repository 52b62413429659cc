/**
 * The bearer-token middleware of internal/auth/auth.go: where a request's
 * token is read from, how it is put back on the request handed on, which
 * tokens the verifier accepts, and the protected-resource metadata URL sent
 * with a challenge.
 *
 * A request is a value: its headers and query as maps from canonical names to
 * their values, its Host and whether it arrived over TLS. The bearer-token
 * check of the MCP SDK that calls the verifier is not part of this model.
 */
module Auth {
  import opened Wrappers
  import opened Text
  import opened Clock
  import OAuthEndpoints

  const AuthorizationHeader: string := "Authorization"
  const AccessTokenHeader: string := "X-Beeper-Access-Token"
  const QueryTokenParam: string := "dangerouslyUseTokenInQuery"
  const BearerPrefix: string := "Bearer "
  const MetadataPath: string := "/.well-known/oauth-protected-resource"
  const StaticTokenUser: string := "static-token-user"

  /** 10 * 365 * 24 hours, the lifetime given to tokens that carry none. */
  const FarFutureMs: int := 10 * 365 * 24 * 60 * 60 * 1000

  /** Header or query values by canonical name. */
  type Values = map<string, seq<string>>

  /** Header.Get / Values.Get: the first value, or "" when there is none. */
  function Get(values: Values, key: string): (r: string)
    ensures key !in values || |values[key]| == 0 ==> r == ""
    ensures key in values && |values[key]| > 0 ==> r == values[key][0]
  {
    if key in values && |values[key]| > 0 then values[key][0] else ""
  }

  /** Header.Set: `key` now holds the one value `value`. */
  function Set(values: Values, key: string, value: string): (r: Values)
    ensures Get(r, key) == value
    ensures forall k :: k != key ==> (k in r <==> k in values) && (k in r ==> r[k] == values[k])
  {
    values[key := [value]]
  }

  datatype Request = Request(header: Values, query: Values, host: string, tls: bool)

  /**
   * parseToken: a "Bearer " Authorization header wins, then the
   * X-Beeper-Access-Token header, then (only when allowed) the query
   * parameter; every token is trimmed, and "" means there is none.
   */
  function ParseToken(r: Request, allowQueryToken: bool): (token: string)
    ensures TrimSpace(token) == token
    ensures HasPrefix(Get(r.header, AuthorizationHeader), BearerPrefix) ==>
      token == TrimSpace(Get(r.header, AuthorizationHeader)[|BearerPrefix|..])
    ensures !HasPrefix(Get(r.header, AuthorizationHeader), BearerPrefix) && Get(r.header, AccessTokenHeader) != "" ==>
      token == TrimSpace(Get(r.header, AccessTokenHeader))
    ensures !HasPrefix(Get(r.header, AuthorizationHeader), BearerPrefix) && Get(r.header, AccessTokenHeader) == "" ==>
      token == (if allowQueryToken then TrimSpace(Get(r.query, QueryTokenParam)) else "")
  {
    var authz := Get(r.header, AuthorizationHeader);
    if HasPrefix(authz, BearerPrefix) then
      TrimSpaceIdempotent(TrimPrefix(authz, BearerPrefix));
      TrimSpace(TrimPrefix(authz, BearerPrefix))
    else if Get(r.header, AccessTokenHeader) != "" then
      TrimSpaceIdempotent(Get(r.header, AccessTokenHeader));
      TrimSpace(Get(r.header, AccessTokenHeader))
    else if allowQueryToken && TrimSpace(Get(r.query, QueryTokenParam)) != "" then
      TrimSpaceIdempotent(Get(r.query, QueryTokenParam));
      TrimSpace(Get(r.query, QueryTokenParam))
    else ""
  }

  /** Wrap consults the query only when both the route and the middleware allow it. */
  function QueryTokenAllowed(routeAllows: bool, middlewareAllows: bool): bool
  {
    routeAllows && middlewareAllows
  }

  /** Unless both flags are set, the query string has no say in the token. */
  lemma QueryIgnoredUnlessBothAllow(r: Request, query: Values, routeAllows: bool, middlewareAllows: bool)
    requires !routeAllows || !middlewareAllows
    ensures ParseToken(r, QueryTokenAllowed(routeAllows, middlewareAllows))
      == ParseToken(r.(query := query), QueryTokenAllowed(routeAllows, middlewareAllows))
    ensures var authz := Get(r.header, AuthorizationHeader);
      ParseToken(r, QueryTokenAllowed(routeAllows, middlewareAllows)) == "" <==>
        if HasPrefix(authz, BearerPrefix) then IsBlank(authz[|BearerPrefix|..])
        else IsBlank(Get(r.header, AccessTokenHeader))
  {
  }

  /**
   * A "Bearer " header with nothing after it yields no token at all: the
   * other header and the query are not consulted.
   */
  lemma BlankBearerHidesOtherSources(r: Request, allowQueryToken: bool)
    requires Get(r.header, AuthorizationHeader) == BearerPrefix
    ensures ParseToken(r, allowQueryToken) == ""
  {
    var authz := Get(r.header, AuthorizationHeader);
    assert HasPrefix(authz, BearerPrefix);
    assert authz[|BearerPrefix|..] == "";
  }

  /**
   * withBearerToken: a copy of the request whose Authorization header is
   * "Bearer " + token; every other header, the query, Host and TLS are
   * those of the original, which is left as it was.
   */
  function WithBearerToken(r: Request, token: string): (c: Request)
    ensures Get(c.header, AuthorizationHeader) == BearerPrefix + token
    ensures forall k :: k != AuthorizationHeader ==>
      (k in c.header <==> k in r.header) && (k in c.header ==> c.header[k] == r.header[k])
    ensures c.query == r.query && c.host == r.host && c.tls == r.tls
  {
    r.(header := Set(r.header, AuthorizationHeader, BearerPrefix + token))
  }

  /** A trimmed token put on a request reads back unchanged, whatever the other headers say. */
  lemma BearerTokenReadsBack(r: Request, token: string, allowQueryToken: bool)
    requires TrimSpace(token) == token
    ensures ParseToken(WithBearerToken(r, token), allowQueryToken) == token
  {
    var c := WithBearerToken(r, token);
    assert HasPrefix(Get(c.header, AuthorizationHeader), BearerPrefix) by {
      assert (BearerPrefix + token)[..|BearerPrefix|] == BearerPrefix;
    }
    assert (BearerPrefix + token)[|BearerPrefix|..] == token;
  }

  /**
   * The request Wrap hands on: the token it found, if any, moved into the
   * Authorization header.
   */
  function Forwarded(r: Request, allowQueryToken: bool): (f: Request)
    ensures ParseToken(r, allowQueryToken) == "" ==> f == r
    ensures ParseToken(r, allowQueryToken) != "" ==>
      Get(f.header, AuthorizationHeader) == BearerPrefix + ParseToken(r, allowQueryToken)
  {
    var token := ParseToken(r, allowQueryToken);
    if token != "" then WithBearerToken(r, token) else r
  }

  /**
   * Downstream, the token of the handed-on request is found in its
   * Authorization header, and it is the token the middleware found, even
   * where the query may no longer be consulted.
   */
  lemma ForwardedKeepsToken(r: Request, allowQueryToken: bool)
    ensures ParseToken(r, allowQueryToken) != "" ==>
      ParseToken(Forwarded(r, allowQueryToken), false) == ParseToken(r, allowQueryToken)
  {
    var token := ParseToken(r, allowQueryToken);
    if token != "" {
      BearerTokenReadsBack(r, token, false);
    }
  }

  /** The token the verifier returns for an accepted bearer token. */
  datatype TokenInfo = TokenInfo(scopes: seq<string>, expirationMs: int, userID: string)

  /** The verifier's refusal, which wraps the SDK's invalid-token error. */
  datatype VerifyError = InvalidBearerToken

  /**
   * The verifier inside Wrap: the configured static token is granted read and
   * write for ten years; otherwise a token the provider knows is accepted,
   * with ten years of validity when it has no expiry; anything else is
   * refused. `provider` is None when no provider is set, and gives None for
   * an unknown token.
   */
  function Verify(token: string, staticToken: string, provider: Option<string -> Option<TokenInfo>>,
                  nowMs: int): (r: Result<TokenInfo, VerifyError>)
    ensures token == staticToken ==>
      r == Success(TokenInfo(["read", "write"], nowMs + FarFutureMs, StaticTokenUser))
    ensures token != staticToken && (provider.None? || provider.value(token).None?) ==>
      r == Failure(InvalidBearerToken)
    ensures token != staticToken && provider.Some? && provider.value(token).Some? ==>
      r.Success? && r.value.scopes == provider.value(token).value.scopes
      && r.value.userID == provider.value(token).value.userID
      && r.value.expirationMs ==
        (if provider.value(token).value.expirationMs == ZeroTimeMs then nowMs + FarFutureMs
         else provider.value(token).value.expirationMs)
  {
    if token == staticToken then Success(TokenInfo(["read", "write"], nowMs + FarFutureMs, StaticTokenUser))
    else if provider.Some? && provider.value(token).Some? then
      var info := provider.value(token).value;
      if info.expirationMs == ZeroTimeMs then Success(info.(expirationMs := nowMs + FarFutureMs))
      else Success(info)
    else Failure(InvalidBearerToken)
  }

  /** Every token the verifier accepts carries a real (non-zero) expiry. */
  lemma AcceptedTokensExpire(token: string, staticToken: string, provider: Option<string -> Option<TokenInfo>>,
                             nowMs: int)
    requires nowMs > ZeroTimeMs
    requires Verify(token, staticToken, provider, nowMs).Success?
    ensures Verify(token, staticToken, provider, nowMs).value.expirationMs != ZeroTimeMs
  {
  }

  /**
   * The URL of the protected-resource metadata: the first forwarded
   * protocol (else https under TLS, else http) and the first forwarded host
   * (else the Host), or the bare path when there is no host at all.
   */
  function MetadataURL(r: Request): (url: string)
    ensures var host := MetadataHost(r);
      (host == "" ==> url == MetadataPath)
      && (host != "" ==>
        url == OAuthEndpoints.RequestScheme(Get(r.header, "X-Forwarded-Proto"), r.tls) + "://" + host + MetadataPath)
  {
    var scheme := OAuthEndpoints.RequestScheme(Get(r.header, "X-Forwarded-Proto"), r.tls);
    var host := MetadataHost(r);
    if host == "" then MetadataPath else scheme + "://" + host + MetadataPath
  }

  /** The host protectedResourceMetadataURL uses: forwarded first, then Host, both trimmed. */
  function MetadataHost(r: Request): (host: string)
    ensures TrimSpace(host) == host
    ensures host == "" <==>
      OAuthEndpoints.FirstForwarded(Get(r.header, "X-Forwarded-Host")) == "" && IsBlank(r.host)
  {
    var forwarded := OAuthEndpoints.FirstForwarded(Get(r.header, "X-Forwarded-Host"));
    TrimSpaceIdempotent(BeforeChar(Get(r.header, "X-Forwarded-Host"), ','));
    TrimSpaceIdempotent(r.host);
    if forwarded != "" then forwarded else TrimSpace(r.host)
  }

  /**
   * The metadata URL is absolute exactly when the request names a host, and
   * its path is always the well-known one.
   */
  lemma MetadataURLShape(r: Request)
    ensures HasSuffix(MetadataURL(r), MetadataPath)
    ensures MetadataURL(r) == MetadataPath <==> MetadataHost(r) == ""
    ensures MetadataHost(r) != "" ==>
      HasPrefix(MetadataURL(r), OAuthEndpoints.RequestScheme(Get(r.header, "X-Forwarded-Proto"), r.tls) + "://")
  {
    var url := MetadataURL(r);
    assert url[|url| - |MetadataPath|..] == MetadataPath;
    if MetadataHost(r) != "" {
      var scheme := OAuthEndpoints.RequestScheme(Get(r.header, "X-Forwarded-Proto"), r.tls);
      assert url[..|scheme + "://"|] == scheme + "://";
      assert |url| > |MetadataPath|;
    }
  }
}
