/**
 * The public OAuth endpoints (internal/server/connect_public.go): the base URL
 * a request was addressed to, protected-resource metadata paths, the
 * authorization-code grant with PKCE (RFC 6749 section 4.1, RFC 7636 sections
 * 4.2 to 4.6), token revocation (RFC 7009 section 2.2) and dynamic client
 * registration.
 *
 * A request is given by the values the handler reads from it; HTML bodies and
 * JSON encoding of replies are not modelled, only which reply is chosen and
 * what it carries.
 */
module OAuthEndpoints {
  import opened Wrappers
  import opened Text
  import opened JsonValues
  import opened OAuthScopes
  import opened OAuthState
  import opened Clock

  const CallbackRedirectURI: string := "urn:beeper:oauth:callback"
  const UnregisteredClientID: string := "unregistered-client"
  const DefaultClientName: string := "Unknown Client"
  const CodeChallengeMethodS256: string := "S256"
  const ProtectedResourcePrefix: string := "/.well-known/oauth-protected-resource"
  const AccessTokenTtlSeconds: int := 24 * 60 * 60

  /* ---------- requestBaseURL ---------- */

  /** The first comma-separated entry of a forwarding header, trimmed. */
  function FirstForwarded(header: string): string
  {
    TrimSpace(BeforeChar(header, ','))
  }

  /** The scheme: the forwarded protocol when given, else https under TLS, else http. */
  function RequestScheme(forwardedProto: string, tls: bool): (r: string)
    ensures r != ""
    ensures FirstForwarded(forwardedProto) != "" ==> r == FirstForwarded(forwardedProto)
    ensures FirstForwarded(forwardedProto) == "" ==> (r == "https" <==> tls) && (r == "http" <==> !tls)
  {
    var proto := FirstForwarded(forwardedProto);
    if proto != "" then proto else if tls then "https" else "http"
  }

  /** The host: the forwarded host when given, else the Host header, else the listen address. */
  function RequestHost(forwardedHost: string, host: string, listenAddr: string): (r: string)
    ensures FirstForwarded(forwardedHost) != "" ==> r == FirstForwarded(forwardedHost)
    ensures FirstForwarded(forwardedHost) == "" && TrimSpace(host) != "" ==> r == TrimSpace(host)
    ensures FirstForwarded(forwardedHost) == "" && TrimSpace(host) == "" ==> r == listenAddr
  {
    var h := FirstForwarded(forwardedHost);
    if h != "" then h
    else if TrimSpace(host) != "" then TrimSpace(host)
    else listenAddr
  }

  /** A concatenation of three parts starts with the first two and ends with the last two. */
  lemma ConcatEnds(a: string, b: string, c: string)
    ensures HasPrefix(a + b + c, a + b) && HasSuffix(a + b + c, b + c)
  {
    assert (a + b + c)[..|a + b|] == a + b;
    assert (a + b + c)[|a|..] == b + c;
  }

  /** requestBaseURL: scheme://host. */
  function RequestBaseURL(forwardedProto: string, tls: bool, forwardedHost: string, host: string, listenAddr: string): (r: string)
    ensures HasPrefix(r, RequestScheme(forwardedProto, tls) + "://")
    ensures HasSuffix(r, "://" + RequestHost(forwardedHost, host, listenAddr))
  {
    var scheme := RequestScheme(forwardedProto, tls);
    var h := RequestHost(forwardedHost, host, listenAddr);
    ConcatEnds(scheme, "://", h);
    scheme + "://" + h
  }

  /* ---------- protected-resource metadata ---------- */

  /**
   * The resource path oauthProtectedResourceMetadata serves for a request path:
   * the suffix after the well-known prefix, with one leading and one trailing
   * slash normalised; only `/` (served as `/v1`), `/v0` and `/v1` are known.
   */
  function ProtectedResourcePath(path: string): (r: Option<string>)
    ensures r.Some? ==> r.value == "/v0" || r.value == "/v1"
  {
    var suffix := TrimPrefix(path, ProtectedResourcePrefix);
    var trimmed := TrimSuffix("/" + TrimPrefix(suffix, "/"), "/");
    var normalized := if trimmed == "" then "/" else trimmed;
    if normalized == "/" then Some("/v1")
    else if normalized == "/v0" || normalized == "/v1" then Some(normalized)
    else None
  }

  /** The bare prefix, the prefix with a slash, and the two version paths with or without a trailing slash are served. */
  lemma ProtectedResourcePathsServed()
    ensures ProtectedResourcePath(ProtectedResourcePrefix) == Some("/v1")
    ensures ProtectedResourcePath(ProtectedResourcePrefix + "/") == Some("/v1")
    ensures ProtectedResourcePath(ProtectedResourcePrefix + "/v1") == Some("/v1")
    ensures ProtectedResourcePath(ProtectedResourcePrefix + "/v0/") == Some("/v0")
    ensures ProtectedResourcePath(ProtectedResourcePrefix + "/v2") == None
  {
    ServedUnder("", "/v1");
    ServedUnder("/", "/v1");
    ServedUnder("/v1", "/v1");
    ServedUnder("/v0/", "/v0");
    RefusedUnder("/v2");
  }

  /** The path after the prefix, with its slashes normalised as the handler does. */
  lemma ServedUnder(suffix: string, version: string)
    requires || ((suffix == "" || suffix == "/" || suffix == "/v1") && version == "/v1")
             || (suffix == "/v0/" && version == "/v0")
    ensures ProtectedResourcePath(ProtectedResourcePrefix + suffix) == Some(version)
  {
    PrefixStripped(suffix);
    if suffix == "" {
      assert TrimPrefix(suffix, "/") == "";
      assert TrimSuffix("/", "/") == "" by { assert HasSuffix("/", "/"); }
    } else if suffix == "/" {
      assert HasPrefix(suffix, "/") && TrimPrefix(suffix, "/") == "";
      assert TrimSuffix("/", "/") == "" by { assert HasSuffix("/", "/"); }
    } else if suffix == "/v1" {
      assert HasPrefix(suffix, "/") && TrimPrefix(suffix, "/") == "v1";
      assert !HasSuffix("/v1", "/");
    } else {
      assert HasPrefix(suffix, "/") && TrimPrefix(suffix, "/") == "v0/";
      assert HasSuffix("/v0/", "/") && TrimSuffix("/v0/", "/") == "/v0";
    }
  }

  /** A version the handler does not know is refused. */
  lemma RefusedUnder(suffix: string)
    requires suffix == "/v2"
    ensures ProtectedResourcePath(ProtectedResourcePrefix + suffix) == None
  {
    PrefixStripped(suffix);
    assert HasPrefix(suffix, "/") && TrimPrefix(suffix, "/") == "v2";
    assert !HasSuffix("/v2", "/");
  }

  /** The metadata prefix is stripped from every path that extends it. */
  lemma PrefixStripped(suffix: string)
    ensures TrimPrefix(ProtectedResourcePrefix + suffix, ProtectedResourcePrefix) == suffix
  {
    var p := ProtectedResourcePrefix;
    assert (p + suffix)[..|p|] == p;
    assert HasPrefix(p + suffix, p);
  }

  /* ---------- oauthAuthorize ---------- */

  /** The query parameters oauthAuthorize reads, as sent. */
  datatype AuthorizeQuery = AuthorizeQuery(
    clientID: string,
    redirectURI: string,
    responseType: string,
    scope: string,
    state: string,
    codeChallenge: string,
    codeChallengeMethod: string,
    resource: string)

  datatype AuthorizeOutcome =
    | AuthorizeRejected(message: string)
    | AuthorizeFailed(error: string)
    | Redirected(code: string, state: string)

  /** An empty challenge method means S256. */
  function ChallengeMethod(requested: string): string
  {
    var m := TrimSpace(requested);
    if m == "" then CodeChallengeMethodS256 else m
  }

  /** A registered client lists no redirect URIs (any is allowed) or lists this one. */
  predicate RedirectRegistered(redirectURIs: seq<string>, uri: string)
  {
    |redirectURIs| == 0 || uri in redirectURIs
  }

  /**
   * The first check oauthAuthorize fails, in the handler's order, or None:
   * response type, client and redirect, challenge, challenge method, redirect
   * syntax (`redirectParses` stands for url.Parse), registered redirect.
   */
  function AuthorizeRejection(q: AuthorizeQuery, clients: map<string, OAuthClient>, redirectParses: bool): Option<string>
  {
    var clientID := TrimSpace(q.clientID);
    var redirectURI := TrimSpace(q.redirectURI);
    if TrimSpace(q.responseType) != "code" then Some("Only response_type=\"code\" is supported.")
    else if clientID == "" || redirectURI == "" then Some("Missing required client_id or redirect_uri.")
    else if TrimSpace(q.codeChallenge) == "" then Some("PKCE code_challenge is required.")
    else if ChallengeMethod(q.codeChallengeMethod) != CodeChallengeMethodS256 then Some("Only S256 code_challenge_method is supported.")
    else if !redirectParses then Some("Invalid redirect_uri.")
    else if clientID in clients && !RedirectRegistered(clients[clientID].redirectURIs, redirectURI) then Some("redirect_uri does not match registered client.")
    else None
  }

  /** An authorization request passes exactly when every requirement of RFC 6749 section 4.1.1 and RFC 7636 section 4.3 that the server enforces holds. */
  lemma AuthorizeAcceptedIff(q: AuthorizeQuery, clients: map<string, OAuthClient>, redirectParses: bool)
    ensures AuthorizeRejection(q, clients, redirectParses).None? <==>
      TrimSpace(q.responseType) == "code"
      && TrimSpace(q.clientID) != "" && TrimSpace(q.redirectURI) != ""
      && TrimSpace(q.codeChallenge) != ""
      && (TrimSpace(q.codeChallengeMethod) == "" || TrimSpace(q.codeChallengeMethod) == CodeChallengeMethodS256)
      && redirectParses
      && (TrimSpace(q.clientID) in clients ==> RedirectRegistered(clients[TrimSpace(q.clientID)].redirectURIs, TrimSpace(q.redirectURI)))
  {
  }

  /** The allowedRedirect loop: true for an empty list, else exactly when some entry equals `uri`. */
  method RedirectAllowed(redirectURIs: seq<string>, uri: string) returns (allowed: bool)
    ensures allowed <==> RedirectRegistered(redirectURIs, uri)
  {
    allowed := |redirectURIs| == 0;
    var i := 0;
    while i < |redirectURIs|
      invariant 0 <= i <= |redirectURIs|
      invariant allowed <==> |redirectURIs| == 0 || uri in redirectURIs[..i]
    {
      if redirectURIs[i] == uri {
        allowed := true;
        assert uri in redirectURIs[..i + 1];
        break;
      }
      assert redirectURIs[..i + 1] == redirectURIs[..i] + [redirectURIs[i]];
      i := i + 1;
    }
    assert allowed || redirectURIs[..i] == redirectURIs;
  }

  /**
   * The checks at the head of oauthAuthorize, in their order: the message of
   * the first that fails, or None when the request may have a code.
   */
  method CheckAuthorize(q: AuthorizeQuery, clients: map<string, OAuthClient>, redirectParses: bool)
    returns (rejection: Option<string>)
    ensures rejection == AuthorizeRejection(q, clients, redirectParses)
  {
    var clientID := TrimSpace(q.clientID);
    var redirectURI := TrimSpace(q.redirectURI);
    var codeChallengeMethod := TrimSpace(q.codeChallengeMethod);
    if TrimSpace(q.responseType) != "code" {
      return Some("Only response_type=\"code\" is supported.");
    }
    if clientID == "" || redirectURI == "" {
      return Some("Missing required client_id or redirect_uri.");
    }
    if TrimSpace(q.codeChallenge) == "" {
      return Some("PKCE code_challenge is required.");
    }
    if codeChallengeMethod == "" {
      codeChallengeMethod := CodeChallengeMethodS256;
    }
    if codeChallengeMethod != CodeChallengeMethodS256 {
      return Some("Only S256 code_challenge_method is supported.");
    }
    if !redirectParses {
      return Some("Invalid redirect_uri.");
    }
    if clientID in clients {
      var allowed := RedirectAllowed(clients[clientID].redirectURIs, redirectURI);
      if !allowed {
        return Some("redirect_uri does not match registered client.");
      }
    }
    return None;
  }

  /** oauthAuthorize: on success, a 5-minute code for the normalised scopes, and a redirect carrying it. */
  method Authorize(s: OAuthStore, q: AuthorizeQuery, redirectParses: bool, generated: Result<string, string>, now: int)
    returns (out: AuthorizeOutcome)
    modifies s
    ensures AuthorizeRejection(q, old(s.clients), redirectParses).Some? ==>
      out == AuthorizeRejected(AuthorizeRejection(q, old(s.clients), redirectParses).value) && s.codes == old(s.codes)
    ensures AuthorizeRejection(q, old(s.clients), redirectParses).None? && generated.Failure? ==>
      out == AuthorizeFailed("failed to create authorization code: " + generated.error) && s.codes == old(s.codes)
    ensures AuthorizeRejection(q, old(s.clients), redirectParses).None? && generated.Success? ==>
      out == Redirected(generated.value, TrimSpace(q.state))
      && s.codes == old(s.codes)[generated.value := AuthorizationCode(generated.value, TrimSpace(q.clientID),
           TrimSpace(q.redirectURI), ScopesOf(TrimSpace(q.scope)), TrimSpace(q.state), TrimSpace(q.codeChallenge),
           CodeChallengeMethodS256, TrimSpace(q.resource), now, now + AuthorizationCodeTtlMs)]
    ensures s.clients == old(s.clients) && s.tokens == old(s.tokens) && s.statePath == old(s.statePath)
  {
    var rejection := CheckAuthorize(q, s.clients, redirectParses);
    if rejection.Some? {
      return AuthorizeRejected(rejection.value);
    }
    var scopes := NormalizeScopes(TrimSpace(q.scope));
    var state := TrimSpace(q.state);
    var code := s.CreateAuthorizationCode(TrimSpace(q.clientID), TrimSpace(q.redirectURI), scopes, state,
                                          TrimSpace(q.codeChallenge), CodeChallengeMethodS256,
                                          TrimSpace(q.resource), generated, now);
    if code.Failure? {
      return AuthorizeFailed("failed to create authorization code: " + code.error);
    }
    return Redirected(code.value.code, state);
  }

  /* ---------- oauthAuthorizeCallback ---------- */

  /** oauthAuthorizeCallback: a code for the callback URN, for the named client or `unregistered-client`. */
  method AuthorizeCallback(s: OAuthStore, clientID: string, scopes: seq<string>, state: string, codeChallenge: string,
                           codeChallengeMethod: string, resource: string, generated: Result<string, string>, now: int)
    returns (r: Result<(string, string), string>)
    modifies s
    ensures generated.Failure? ==> r == Failure("failed to create authorization code: " + generated.error) && s.codes == old(s.codes)
    ensures generated.Success? ==> (r == Success((generated.value, state))
      && s.codes == old(s.codes)[generated.value := AuthorizationCode(generated.value,
           if TrimSpace(clientID) == "" then UnregisteredClientID else TrimSpace(clientID),
           CallbackRedirectURI, ScopesOf(Join(scopes, " ")), state, TrimSpace(codeChallenge),
           ChallengeMethod(codeChallengeMethod), TrimSpace(resource), now, now + AuthorizationCodeTtlMs)])
    ensures s.clients == old(s.clients) && s.tokens == old(s.tokens) && s.statePath == old(s.statePath)
  {
    var id := TrimSpace(clientID);
    if id == "" {
      id := UnregisteredClientID;
    }
    var granted := NormalizeScopes(Join(scopes, " "));
    var challengeMethod := TrimSpace(codeChallengeMethod);
    if challengeMethod == "" {
      challengeMethod := CodeChallengeMethodS256;
    }
    var code := s.CreateAuthorizationCode(id, CallbackRedirectURI, granted, state, TrimSpace(codeChallenge), challengeMethod,
                                          TrimSpace(resource), generated, now);
    if code.Failure? {
      return Failure("failed to create authorization code: " + code.error);
    }
    return Success((code.value.code, state));
  }

  /* ---------- parseBodyValues ---------- */

  /** A request body as it decoded: a JSON object, or form fields with all their values. */
  datatype Body = JsonBody(decoded: Result<map<string, Json>, string>) | FormBody(parsed: Result<map<string, seq<string>>, string>)

  /** The media type of a Content-Type header: the part before `;`, trimmed and lower-cased. */
  function MediaType(contentType: string): string
  {
    ToLower(TrimSpace(BeforeChar(contentType, ';')))
  }

  /** How one decoded JSON value is kept as a string: strings as they are, numbers and booleans formatted, others dropped. */
  function BodyValue(v: Json): (r: Option<string>)
    ensures r.Some? <==> v.JString? || v.JNumber? || v.JBool?
    ensures v.JString? ==> r == Some(v.s)
    ensures v.JBool? ==> r.Some? && ParseBool(r.value) == Some(v.b)
    ensures v.JNumber? && MinInt64 <= v.n <= MaxInt64 ==> r.Some? && Atoi(r.value) == Some(v.n)
  {
    match v
    case JString(s) => Some(s)
    case JNumber(n) =>
      if MinInt64 <= n <= MaxInt64 then AtoiFormatInt(n); Some(FormatInt(n))
      else Some(FormatInt(n))
    case JBool(b) => Some(FormatBool(b))
    case _ => None
  }

  /** The string values parseBodyValues keeps from a decoded JSON object. */
  function JsonBodyValues(raw: map<string, Json>): map<string, string>
  {
    map k | k in raw && BodyValue(raw[k]).Some? :: BodyValue(raw[k]).value
  }

  /** The first value of each form field that has one. */
  function FormBodyValues(form: map<string, seq<string>>): map<string, string>
  {
    map k | k in form && |form[k]| > 0 :: form[k][0]
  }

  /**
   * parseBodyValues: a JSON body when the media type is application/json,
   * else a form. `body` is how the request body decoded in the format that
   * the media type selects.
   */
  method ParseBodyValues(contentType: string, body: Body) returns (r: Result<map<string, string>, string>)
    requires MediaType(contentType) == "application/json" <==> body.JsonBody?
    ensures body.JsonBody? && body.decoded.Failure? ==> r == Failure(body.decoded.error)
    ensures body.JsonBody? && body.decoded.Success? ==> r == Success(JsonBodyValues(body.decoded.value))
    ensures body.FormBody? && body.parsed.Failure? ==> r == Failure(body.parsed.error)
    ensures body.FormBody? && body.parsed.Success? ==> r == Success(FormBodyValues(body.parsed.value))
  {
    match body
    case JsonBody(decoded) =>
      if decoded.Failure? {
        return Failure(decoded.error);
      }
      var values := CollectJsonValues(decoded.value);
      return Success(values);
    case FormBody(parsed) =>
      if parsed.Failure? {
        return Failure(parsed.error);
      }
      var values := CollectFormValues(parsed.value);
      return Success(values);
  }

  /** The loop over a decoded JSON object: strings kept, numbers and booleans formatted. */
  method CollectJsonValues(raw: map<string, Json>) returns (values: map<string, string>)
    ensures values == JsonBodyValues(raw)
  {
    values := map[];
    var rest := raw.Keys;
    while rest != {}
      invariant rest <= raw.Keys
      invariant values == map k | k in raw && k !in rest && BodyValue(raw[k]).Some? :: BodyValue(raw[k]).value
      decreases |rest|
    {
      var key :| key in rest;
      var value := raw[key];
      if value.JString? {
        values := values[key := value.s];
      } else if value.JNumber? {
        values := values[key := FormatInt(value.n)];
      } else if value.JBool? {
        values := values[key := FormatBool(value.b)];
      }
      rest := rest - {key};
    }
  }

  /** The loop over a parsed form: the first value of every field that has one. */
  method CollectFormValues(form: map<string, seq<string>>) returns (values: map<string, string>)
    ensures values == FormBodyValues(form)
  {
    values := map[];
    var rest := form.Keys;
    while rest != {}
      invariant rest <= form.Keys
      invariant values == map k | k in form && k !in rest && |form[k]| > 0 :: form[k][0]
      decreases |rest|
    {
      var key :| key in rest;
      if |form[key]| > 0 {
        values := values[key := form[key][0]];
      }
      rest := rest - {key};
    }
  }


  /** A missing body field reads as "". */
  function Field(body: map<string, string>, key: string): string
  {
    if key in body then body[key] else ""
  }

  /* ---------- oauthToken ---------- */

  datatype TokenReply =
    | TokenRejected(error: string, description: string)
    | TokenFailed(message: string)
    | TokenIssued(accessToken: string, tokenType: string, expiresIn: int, scope: string)

  /**
   * The checks oauthToken makes on a consumed code, in order (RFC 6749
   * section 4.1.3, RFC 7636 section 4.6): the client when both sides name one,
   * the redirect URI unless either side is empty or the code came from the
   * callback, and PKCE whenever the code carries a challenge.
   */
  function ExchangeRejection(code: AuthorizationCode, clientID: string, redirectURI: string, verifier: string,
                             s256: string -> string): Option<(string, string)>
  {
    if clientID != "" && code.clientID != "" && code.clientID != clientID then Some(("invalid_client", "client_id mismatch"))
    else if redirectURI != "" && code.redirectURI != "" && code.redirectURI != CallbackRedirectURI && redirectURI != code.redirectURI
    then Some(("invalid_grant", "redirect_uri mismatch"))
    else if code.codeChallenge != "" && (code.codeChallengeMethod != CodeChallengeMethodS256 || !VerifyPKCES256(verifier, code.codeChallenge, s256))
    then Some(("invalid_grant", "PKCE validation failed"))
    else None
  }

  /** A code that carries a challenge is exchanged only with a verifier whose S256 transform is that challenge. */
  lemma ExchangeEnforcesPKCE(code: AuthorizationCode, clientID: string, redirectURI: string, verifier: string, s256: string -> string)
    requires ExchangeRejection(code, clientID, redirectURI, verifier, s256).None?
    requires code.codeChallenge != ""
    ensures code.codeChallengeMethod == CodeChallengeMethodS256 && verifier != "" && s256(verifier) == code.codeChallenge
  {
  }

  /** The client check never fires when either side leaves the client unnamed, and always fires on two different names. */
  lemma ExchangeClientCheck(code: AuthorizationCode, clientID: string, redirectURI: string, verifier: string, s256: string -> string)
    ensures (clientID != "" && code.clientID != "" && code.clientID != clientID) <==>
      ExchangeRejection(code, clientID, redirectURI, verifier, s256) == Some(("invalid_client", "client_id mismatch"))
  {
  }

  /**
   * oauthToken: only the authorization-code grant; the code is consumed before
   * any other check, so a failed exchange also uses it up.
   */
  method Token(s: OAuthStore, body: map<string, string>, s256: string -> string, generated: Result<string, string>, now: int)
    returns (reply: TokenReply)
    modifies s
    ensures TrimSpace(Field(body, "grant_type")) != "authorization_code" ==>
      reply == TokenRejected("unsupported_grant_type", "only authorization_code is supported")
      && s.codes == old(s.codes) && s.tokens == old(s.tokens)
    ensures TrimSpace(Field(body, "grant_type")) == "authorization_code" ==>
      s.codes == old(s.codes) - {TrimSpace(Field(body, "code"))}
    ensures reply.TokenIssued? ==>
      var codeValue := TrimSpace(Field(body, "code"));
      codeValue in old(s.codes) && !After(now, old(s.codes)[codeValue].expiresAt)
      && var code := old(s.codes)[codeValue];
      ExchangeRejection(code, TrimSpace(Field(body, "client_id")), TrimSpace(Field(body, "redirect_uri")),
                        TrimSpace(Field(body, "code_verifier")), s256).None?
      && generated.Success? && reply.accessToken == generated.value
      && reply.tokenType == TokenTypeBearer && reply.expiresIn == AccessTokenTtlSeconds
      && reply.scope == ScopeString(code.scopes)
      && generated.value in s.tokens && s.tokens[generated.value].clientID == code.clientID
      && s.tokens[generated.value].scopes == code.scopes
      && s.tokens == old(s.tokens)[generated.value := s.tokens[generated.value]]
    ensures !reply.TokenIssued? ==> s.tokens == old(s.tokens)
    ensures (TrimSpace(Field(body, "grant_type")) == "authorization_code"
      && (TrimSpace(Field(body, "code")) !in old(s.codes) || After(now, old(s.codes)[TrimSpace(Field(body, "code"))].expiresAt))) ==>
      reply == TokenRejected("invalid_grant", "authorization code is invalid or expired")
    ensures var codeValue := TrimSpace(Field(body, "code"));
      (TrimSpace(Field(body, "grant_type")) == "authorization_code"
       && codeValue in old(s.codes) && !After(now, old(s.codes)[codeValue].expiresAt)) ==>
      var rejection := ExchangeRejection(old(s.codes)[codeValue], TrimSpace(Field(body, "client_id")),
                                         TrimSpace(Field(body, "redirect_uri")), TrimSpace(Field(body, "code_verifier")), s256);
      (rejection.Some? ==> reply == TokenRejected(rejection.value.0, rejection.value.1))
      && (rejection.None? && generated.Failure? ==> reply == TokenFailed("failed to issue access token: " + generated.error))
      && (rejection.None? && generated.Success? ==> reply.TokenIssued?)
    ensures s.clients == old(s.clients) && s.statePath == old(s.statePath)
  {
    var grantType := TrimSpace(Field(body, "grant_type"));
    if grantType != "authorization_code" {
      return TokenRejected("unsupported_grant_type", "only authorization_code is supported");
    }
    var codeValue := TrimSpace(Field(body, "code"));
    var clientID := TrimSpace(Field(body, "client_id"));
    var redirectURI := TrimSpace(Field(body, "redirect_uri"));
    var codeVerifier := TrimSpace(Field(body, "code_verifier"));
    var resource := TrimSpace(Field(body, "resource"));

    var popped := s.PopAuthorizationCode(codeValue, now);
    if popped.None? {
      return TokenRejected("invalid_grant", "authorization code is invalid or expired");
    }
    var code := popped.value;
    var rejection := ExchangeRejection(code, clientID, redirectURI, codeVerifier, s256);
    if rejection.Some? {
      return TokenRejected(rejection.value.0, rejection.value.1);
    }
    var issued := s.IssueAccessToken(code.clientID, code.scopes, resource, generated, now);
    if issued.Failure? {
      return TokenFailed("failed to issue access token: " + issued.error);
    }
    return TokenIssued(issued.value.value, issued.value.tokenType, AccessTokenTtlSeconds, ScopeString(issued.value.scopes));
  }

  /* ---------- oauthRevoke ---------- */

  /**
   * oauthRevoke: the reply is always `{}`; a known non-static token is marked
   * revoked and the state persisted, which with a state path prunes it.
   */
  method Revoke(s: OAuthStore, body: Result<map<string, string>, string>, now: int)
    modifies s
    ensures body.Failure? || TrimSpace(Field(body.value, "token")) == "" ==> s.tokens == old(s.tokens) && s.codes == old(s.codes)
    ensures body.Success? ==>
      var t := TrimSpace(Field(body.value, "token"));
      (t != "" && t in old(s.tokens) && !old(s.tokens)[t].isStatic ==>
        var revoked := old(s.tokens)[t := old(s.tokens)[t].(revokedAt := Some(now))];
        (IsBlank(s.statePath) ==> s.tokens == revoked && s.codes == old(s.codes))
        && (!IsBlank(s.statePath) ==> s.tokens == PrunedTokens(revoked, now) && s.codes == PrunedCodes(old(s.codes), now)))
      && (t !in old(s.tokens) || old(s.tokens)[t].isStatic ==> s.tokens == old(s.tokens) && s.codes == old(s.codes))
    ensures (body.Success? && TrimSpace(Field(body.value, "token")) in old(s.tokens)
      && !old(s.tokens)[TrimSpace(Field(body.value, "token"))].isStatic) ==>
      forall later :: LookupToken(s.tokens, TrimSpace(Field(body.value, "token")), later).None?
    ensures s.clients == old(s.clients) && s.statePath == old(s.statePath)
  {
    if body.Failure? {
      return;
    }
    var tokenValue := TrimSpace(Field(body.value, "token"));
    if tokenValue != "" {
      if tokenValue in s.tokens && !s.tokens[tokenValue].isStatic {
        var entry := s.tokens[tokenValue].(revokedAt := Some(now));
        s.tokens := s.tokens[tokenValue := entry];
        var _ := s.Persist(now);
      }
    }
  }

  /* ---------- oauthRegister ---------- */

  /** The fields of a registration request (RFC 7591 section 2). */
  datatype RegisterRequest = RegisterRequest(
    clientName: string,
    clientURI: string,
    grantTypes: seq<string>,
    responseTypes: seq<string>,
    redirectURIs: seq<string>,
    scope: string,
    tokenEndpointAuthMethod: string)

  /** The client oauthRegister stores, with its defaults filled in. */
  function RegisteredClient(req: RegisterRequest, clientID: string, now: int): (c: OAuthClient)
    ensures c.clientID == clientID && c.clientURI == req.clientURI && c.redirectURIs == req.redirectURIs
    ensures c.clientName == (if IsBlank(req.clientName) then DefaultClientName else req.clientName)
    ensures c.grantTypes == (if |req.grantTypes| == 0 then ["authorization_code"] else req.grantTypes)
    ensures c.responseTypes == (if |req.responseTypes| == 0 then ["code"] else req.responseTypes)
    ensures c.tokenEndpointAuthMethod == (if IsBlank(req.tokenEndpointAuthMethod) then "none" else req.tokenEndpointAuthMethod)
    ensures Fields(c.scope) == ScopesOf(if IsBlank(req.scope) then "read write" else req.scope)
    ensures c.createdAt * 1000 <= now < c.createdAt * 1000 + 1000
  {
    var scopeRequest := if IsBlank(req.scope) then "read write" else req.scope;
    var granted := ScopesOf(scopeRequest);
    ScopesWellFormed(scopeRequest);
    forall i | 0 <= i < |granted| ensures granted[i] != "" && NoSpace(granted[i]) {
      KnownIsWord(granted[i]);
    }
    OAuthClient(clientID,
                if IsBlank(req.clientName) then DefaultClientName else req.clientName,
                req.clientURI,
                req.redirectURIs,
                if |req.grantTypes| == 0 then ["authorization_code"] else req.grantTypes,
                if |req.responseTypes| == 0 then ["code"] else req.responseTypes,
                ScopeString(granted),
                if IsBlank(req.tokenEndpointAuthMethod) then "none" else req.tokenEndpointAuthMethod,
                now / 1000)
  }

  /** With no scope requested a client is registered for read and write. */
  lemma RegisterDefaultScope(req: RegisterRequest, clientID: string, now: int)
    requires IsBlank(req.scope)
    ensures Fields(RegisteredClient(req, clientID, now).scope) == ["read", "write"]
  {
    ReadWriteScopes("read write");
  }

  /** "read write" grants read and write, in that order. */
  lemma ReadWriteScopes(raw: string)
    requires raw == "read write"
    ensures ScopesOf(raw) == ["read", "write"]
  {
    var both := ["read", "write"];
    KnownIsWord("read");
    KnownIsWord("write");
    assert Join(both, " ") == raw;
    FieldsOfJoin(both);
    KnownOfDistinctKnown(both);
  }

  /**
   * oauthRegister: store the new client and persist; a failed write
   * (`writeError`) is reported, but the client stays registered.
   */
  method Register(s: OAuthStore, req: RegisterRequest, generated: Result<string, string>, now: int, writeError: Option<string>)
    returns (r: Result<OAuthClient, string>)
    modifies s
    ensures generated.Failure? ==> (r == Failure("failed to generate client id: " + generated.error)
      && s.clients == old(s.clients) && s.codes == old(s.codes) && s.tokens == old(s.tokens))
    ensures generated.Success? ==>
      var c := RegisteredClient(req, generated.value, now);
      s.clients == old(s.clients)[generated.value := c]
      && (IsBlank(s.statePath) ==> r == Success(c) && s.codes == old(s.codes) && s.tokens == old(s.tokens))
      && (!IsBlank(s.statePath) ==> (s.codes == PrunedCodes(old(s.codes), now) && s.tokens == PrunedTokens(old(s.tokens), now)
          && r == (if writeError.Some? then Failure("failed to persist oauth client: " + writeError.value) else Success(c))))
    ensures s.statePath == old(s.statePath)
  {
    if generated.Failure? {
      return Failure("failed to generate client id: " + generated.error);
    }
    var client := RegisteredClient(req, generated.value, now);
    s.clients := s.clients[client.clientID := client];
    var saved := s.Persist(now);
    if saved.Some? && writeError.Some? {
      return Failure("failed to persist oauth client: " + writeError.value);
    }
    return Success(client);
  }

  /* ---------- focusPage ---------- */

  /** focusPage: a draft without a chat is a bad request (400); anything else is served (200). */
  function FocusPageStatus(chatID: string, draft: string): (status: int)
    ensures status == 400 <==> IsBlank(chatID) && !IsBlank(draft)
    ensures status == 200 || status == 400
  {
    if TrimSpace(chatID) == "" && TrimSpace(draft) != "" then 400 else 200
  }
}
