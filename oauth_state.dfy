/**
 * The OAuth state of the server (internal/server/connect_oauth.go,
 * internal/server/connect_oauth_store.go): registered clients, pending
 * authorization codes and access tokens, each a map keyed by its value, plus
 * the optional state file that keeps them across restarts.
 *
 * Random token values come in as `Result` parameters (the random source can
 * fail); the state file comes in as an already-decoded `StateFile`, and
 * persisting returns the state that would be written.
 */
module OAuthState {
  import opened Wrappers
  import opened Text
  import opened Clock

  const AuthorizationCodeTtlMs: int := 5 * 60 * 1000
  const AccessTokenTtlMs: int := 24 * 60 * 60 * 1000
  const TokenTypeBearer: string := "Bearer"
  const StateVersion: int := 1
  const DefaultSubject: string := "local-user"
  const StaticClientID: string := "gomuks-beeper-api-static"
  const StaticClientName: string := "gomuks-beeper-api"

  /** A registered client; `createdAt` is in Unix seconds, as `client_id_issued_at` reports it. */
  datatype OAuthClient = OAuthClient(
    clientID: string,
    clientName: string,
    clientURI: string,
    redirectURIs: seq<string>,
    grantTypes: seq<string>,
    responseTypes: seq<string>,
    scope: string,
    tokenEndpointAuthMethod: string,
    createdAt: int)

  datatype AuthorizationCode = AuthorizationCode(
    code: string,
    clientID: string,
    redirectURI: string,
    scopes: seq<string>,
    state: string,
    codeChallenge: string,
    codeChallengeMethod: string,
    resource: string,
    createdAt: int,
    expiresAt: int)

  datatype AccessToken = AccessToken(
    value: string,
    tokenType: string,
    clientID: string,
    subject: string,
    scopes: seq<string>,
    createdAt: int,
    expiresAt: Option<int>,
    revokedAt: Option<int>,
    isStatic: bool,
    resource: string,
    clientName: string,
    clientVersion: string)

  /** The JSON document of the state file. */
  datatype PersistedState = PersistedState(
    version: int,
    subject: string,
    clients: map<string, OAuthClient>,
    codes: map<string, AuthorizationCode>,
    tokens: map<string, AccessToken>)

  /** What reading and decoding the state file gave. */
  datatype StateFile = Missing | Unreadable(reason: string) | Malformed(reason: string) | Decoded(state: PersistedState)

  /* ---------- expiry ---------- */

  /** A code with a zero expiry never expires; any other expires once `now` is after it. */
  predicate CodeExpired(c: AuthorizationCode, now: int)
  {
    c.expiresAt != ZeroTimeMs && After(now, c.expiresAt)
  }

  /** A token is unusable once revoked or past its expiry. */
  predicate TokenDead(t: AccessToken, now: int)
  {
    t.revokedAt.Some? || (t.expiresAt.Some? && After(now, t.expiresAt.value))
  }

  /** pruneOAuthStateLocked on the codes: drop the expired ones. */
  function PrunedCodes(codes: map<string, AuthorizationCode>, now: int): map<string, AuthorizationCode>
  {
    map k | k in codes && !CodeExpired(codes[k], now) :: codes[k]
  }

  /** pruneOAuthStateLocked on the tokens: drop the dead ones that are not static. */
  function PrunedTokens(tokens: map<string, AccessToken>, now: int): map<string, AccessToken>
  {
    map k | k in tokens && (tokens[k].isStatic || !TokenDead(tokens[k], now)) :: tokens[k]
  }

  /** The tokens the pruning loop still holds while `pending` is left to visit. */
  ghost function TokensPending(tokens: map<string, AccessToken>, pending: set<string>, now: int): map<string, AccessToken>
  {
    map k | k in tokens && (k in pending || tokens[k].isStatic || !TokenDead(tokens[k], now)) :: tokens[k]
  }

  /** Visiting one more key removes it exactly when it is a dead, non-static token. */
  lemma TokensPendingStep(tokens: map<string, AccessToken>, pending: set<string>, key: string, now: int)
    requires key in pending && pending <= tokens.Keys
    ensures key in TokensPending(tokens, pending, now)
    ensures TokensPending(tokens, pending, now)[key] == tokens[key]
    ensures TokensPending(tokens, pending - {key}, now) ==
      if !tokens[key].isStatic && TokenDead(tokens[key], now) then TokensPending(tokens, pending, now) - {key}
      else TokensPending(tokens, pending, now)
  {
  }

  /* ---------- lookup ---------- */

  /** oauthTokenByValue: the stored token for a non-blank value, unless it is dead. */
  function LookupToken(tokens: map<string, AccessToken>, token: string, now: int): (r: Option<AccessToken>)
    ensures r.Some? ==> token in tokens && r.value == tokens[token] && !TokenDead(r.value, now) && !IsBlank(token)
    ensures r.None? ==> IsBlank(token) || token !in tokens || TokenDead(tokens[token], now)
  {
    if IsBlank(token) then None
    else if token !in tokens then None
    else if tokens[token].revokedAt.Some? then None
    else if tokens[token].expiresAt.Some? && After(now, tokens[token].expiresAt.value) then None
    else Some(tokens[token])
  }

  /** Pruning never changes what a lookup at the same instant finds. */
  lemma PruneKeepsLookups(tokens: map<string, AccessToken>, token: string, now: int)
    ensures LookupToken(PrunedTokens(tokens, now), token, now) == LookupToken(tokens, token, now)
  {
    if token in tokens && !TokenDead(tokens[token], now) {
      assert token in PrunedTokens(tokens, now);
    }
  }

  /** A later prune removes everything an earlier one did: expiry is permanent. */
  lemma PruneMonotone(codes: map<string, AuthorizationCode>, tokens: map<string, AccessToken>, t1: int, t2: int)
    requires t1 <= t2
    ensures PrunedCodes(codes, t2).Keys <= PrunedCodes(codes, t1).Keys
    ensures PrunedTokens(tokens, t2).Keys <= PrunedTokens(tokens, t1).Keys
  {
    forall k | k in PrunedCodes(codes, t2) ensures k in PrunedCodes(codes, t1) {
      assert !CodeExpired(codes[k], t1);
    }
    forall k | k in PrunedTokens(tokens, t2) ensures k in PrunedTokens(tokens, t1) {
      assert tokens[k].isStatic || !TokenDead(tokens[k], t1);
    }
  }

  /* ---------- new entries ---------- */

  /** The token issueOAuthAccessToken stores: a bearer token for 24 hours. */
  function NewAccessToken(value: string, clientID: string, subject: string, scopes: seq<string>,
                          resource: string, clientName: string, now: int): AccessToken
  {
    AccessToken(value, TokenTypeBearer, clientID, subject, scopes, now, Some(now + AccessTokenTtlMs), None,
                false, resource, clientName, "")
  }

  /** The token initOAuthState stores for the configured access token: static, never expiring, read and write. */
  function StaticAccessToken(value: string, subject: string, now: int): AccessToken
  {
    AccessToken(value, TokenTypeBearer, StaticClientID, subject, ["read", "write"], now, None, None,
                true, "", StaticClientName, "")
  }

  /** An issued token is found exactly until 24 hours after issue. */
  lemma IssuedTokenLifetime(tokens: map<string, AccessToken>, value: string, clientID: string, subject: string,
                            scopes: seq<string>, resource: string, clientName: string, issuedAt: int, t: int)
    requires !IsBlank(value)
    ensures var tok := NewAccessToken(value, clientID, subject, scopes, resource, clientName, issuedAt);
      LookupToken(tokens[value := tok], value, t).Some? <==> t <= issuedAt + AccessTokenTtlMs
  {
  }

  /** The static token is found at every instant, survives every prune and is never written to the state file. */
  lemma StaticTokenLives(tokens: map<string, AccessToken>, value: string, subject: string, createdAt: int, t: int)
    requires !IsBlank(value)
    ensures var m := tokens[value := StaticAccessToken(value, subject, createdAt)];
      LookupToken(m, value, t) == Some(m[value])
      && value in PrunedTokens(m, t)
      && value !in PersistedTokens(m)
  {
  }

  /* ---------- the state file ---------- */

  predicate ClientKept(key: string, c: OAuthClient)
  {
    !IsBlank(key) && !IsBlank(c.clientID)
  }

  predicate CodeKept(key: string, c: AuthorizationCode)
  {
    !IsBlank(key) && !IsBlank(c.code)
  }

  /** Static tokens come from configuration and are never written. */
  predicate TokenKept(key: string, t: AccessToken)
  {
    !IsBlank(key) && !IsBlank(t.value) && !t.isStatic
  }

  function PersistedClients(m: map<string, OAuthClient>): map<string, OAuthClient>
  {
    map k | k in m && ClientKept(k, m[k]) :: m[k]
  }

  function PersistedCodes(m: map<string, AuthorizationCode>): map<string, AuthorizationCode>
  {
    map k | k in m && CodeKept(k, m[k]) :: m[k]
  }

  function PersistedTokens(m: map<string, AccessToken>): map<string, AccessToken>
  {
    map k | k in m && TokenKept(k, m[k]) :: m[k]
  }

  /** The codes loadOAuthState accepts: well-keyed and not expired. */
  function LoadedCodes(m: map<string, AuthorizationCode>, now: int): map<string, AuthorizationCode>
  {
    map k | k in m && CodeKept(k, m[k]) && !CodeExpired(m[k], now) :: m[k]
  }

  /** The tokens loadOAuthState accepts: well-keyed, not static, not revoked, not expired. */
  function LoadedTokens(m: map<string, AccessToken>, now: int): map<string, AccessToken>
  {
    map k | k in m && TokenKept(k, m[k]) && !TokenDead(m[k], now) :: m[k]
  }

  /** Loading, at the same instant, a state file just persisted gives back exactly what was written. */
  lemma PersistLoadRoundTrip(codes: map<string, AuthorizationCode>, tokens: map<string, AccessToken>, now: int)
    ensures var c := PersistedCodes(PrunedCodes(codes, now));
      LoadedCodes(c, now) == c && PrunedCodes(c, now) == c
    ensures var t := PersistedTokens(PrunedTokens(tokens, now));
      LoadedTokens(t, now) == t && PrunedTokens(t, now) == t
  {
    var c := PersistedCodes(PrunedCodes(codes, now));
    assert LoadedCodes(c, now) == c;
    assert PrunedCodes(c, now) == c;
    var t := PersistedTokens(PrunedTokens(tokens, now));
    assert LoadedTokens(t, now) == t;
    assert PrunedTokens(t, now) == t;
  }

  /** Whatever a state file holds, loading it adds no static, revoked or expired token. */
  lemma LoadedTokensLive(m: map<string, AccessToken>, now: int, k: string)
    requires k in LoadedTokens(m, now)
    ensures LookupToken(LoadedTokens(m, now), k, now) == Some(m[k])
  {
  }

  /* ---------- map loops ---------- */

  /** A `for key, value := range m` loop that copies the entries `keep` accepts. */
  method FilterMap<V>(m: map<string, V>, keep: (string, V) -> bool) returns (r: map<string, V>)
    ensures r == map k | k in m && keep(k, m[k]) :: m[k]
  {
    r := map[];
    var rest := m.Keys;
    while rest != {}
      invariant rest <= m.Keys
      invariant r == map k | k in m && k !in rest && keep(k, m[k]) :: m[k]
      decreases |rest|
    {
      var k :| k in rest;
      if keep(k, m[k]) {
        r := r[k := m[k]];
      }
      rest := rest - {k};
    }
  }

  /** A `for key, value := range from { into[key] = value }` loop. */
  method MergeMap<V>(into: map<string, V>, from: map<string, V>) returns (r: map<string, V>)
    ensures r == into + from
  {
    r := into;
    var rest := from.Keys;
    while rest != {}
      invariant rest <= from.Keys
      invariant r == into + map k | k in from && k !in rest :: from[k]
      decreases |rest|
    {
      var k :| k in rest;
      r := r[k := from[k]];
      rest := rest - {k};
    }
    assert from == map k | k in from && k !in rest :: from[k];
  }

  /** The filter loops of persistOAuthStateLocked and loadOAuthState, one per kind of entry. */
  method KeepClients(m: map<string, OAuthClient>) returns (r: map<string, OAuthClient>)
    ensures r == PersistedClients(m)
  {
    r := FilterMap(m, ClientKept);
  }

  method KeepCodes(m: map<string, AuthorizationCode>) returns (r: map<string, AuthorizationCode>)
    ensures r == PersistedCodes(m)
  {
    r := FilterMap(m, CodeKept);
  }

  method KeepTokens(m: map<string, AccessToken>) returns (r: map<string, AccessToken>)
    ensures r == PersistedTokens(m)
  {
    r := FilterMap(m, TokenKept);
  }

  method KeepLiveCodes(m: map<string, AuthorizationCode>, now: int) returns (r: map<string, AuthorizationCode>)
    ensures r == LoadedCodes(m, now)
  {
    r := FilterMap(m, (k, c) => CodeKept(k, c) && !CodeExpired(c, now));
  }

  method KeepLiveTokens(m: map<string, AccessToken>, now: int) returns (r: map<string, AccessToken>)
    ensures r == LoadedTokens(m, now)
  {
    r := FilterMap(m, (k, t) => TokenKept(k, t) && !TokenDead(t, now));
  }

  /* ---------- the server's OAuth maps ---------- */

  class OAuthStore {
    var clients: map<string, OAuthClient>
    var codes: map<string, AuthorizationCode>
    var tokens: map<string, AccessToken>
    var subject: string
    /** The state file path; blank means the state lives in memory only. */
    var statePath: string

    /** New: empty maps, subject `local-user`. */
    constructor(statePath: string)
      ensures clients == map[] && codes == map[] && tokens == map[]
      ensures subject == DefaultSubject && this.statePath == statePath
    {
      clients := map[];
      codes := map[];
      tokens := map[];
      subject := DefaultSubject;
      this.statePath := statePath;
    }

    /** initOAuthState: register the configured access token as a static token. */
    method InitOAuthState(staticToken: string, now: int)
      modifies this
      ensures tokens == old(tokens)[staticToken := StaticAccessToken(staticToken, subject, now)]
      ensures clients == old(clients) && codes == old(codes)
      ensures subject == old(subject) && statePath == old(statePath)
    {
      tokens := tokens[staticToken := StaticAccessToken(staticToken, subject, now)];
    }

    /** issueOAuthAccessToken: a generated 24-hour bearer token stored under its own value. */
    method IssueAccessToken(clientID: string, scopes: seq<string>, resource: string,
                            generated: Result<string, string>, now: int) returns (r: Result<AccessToken, string>)
      modifies this
      ensures generated.Failure? ==> r == Failure(generated.error) && tokens == old(tokens)
      ensures generated.Success? ==> (r.Success? && r.value.value == generated.value
        && r.value.expiresAt == Some(now + AccessTokenTtlMs) && !r.value.isStatic
        && r.value.clientName == (if clientID in clients then clients[clientID].clientName else "")
        && r.value == NewAccessToken(generated.value, clientID, subject, scopes, resource, r.value.clientName, now)
        && tokens == old(tokens)[generated.value := r.value])
      ensures clients == old(clients) && codes == old(codes)
      ensures subject == old(subject) && statePath == old(statePath)
    {
      if generated.Failure? {
        return Failure(generated.error);
      }
      var clientName := if clientID in clients then clients[clientID].clientName else "";
      var entry := NewAccessToken(generated.value, clientID, subject, scopes, resource, clientName, now);
      tokens := tokens[generated.value := entry];
      r := Success(entry);
    }

    /** createAuthorizationCode: a generated code valid for 5 minutes. */
    method CreateAuthorizationCode(clientID: string, redirectURI: string, scopes: seq<string>, state: string,
                                   codeChallenge: string, codeChallengeMethod: string, resource: string,
                                   generated: Result<string, string>, now: int) returns (r: Result<AuthorizationCode, string>)
      modifies this
      ensures generated.Failure? ==> r == Failure(generated.error) && codes == old(codes)
      ensures generated.Success? ==> (r.Success?
        && r.value == AuthorizationCode(generated.value, clientID, redirectURI, scopes, state, codeChallenge,
                                        codeChallengeMethod, resource, now, now + AuthorizationCodeTtlMs)
        && codes == old(codes)[generated.value := r.value])
      ensures clients == old(clients) && tokens == old(tokens)
      ensures subject == old(subject) && statePath == old(statePath)
    {
      if generated.Failure? {
        return Failure(generated.error);
      }
      var code := AuthorizationCode(generated.value, clientID, redirectURI, scopes, state, codeChallenge,
                                    codeChallengeMethod, resource, now, now + AuthorizationCodeTtlMs);
      codes := codes[generated.value := code];
      r := Success(code);
    }

    /** popAuthorizationCode: the code is removed whether or not it has expired, so it works at most once. */
    method PopAuthorizationCode(codeValue: string, now: int) returns (r: Option<AuthorizationCode>)
      modifies this
      ensures codes == old(codes) - {codeValue}
      ensures r.Some? <==> codeValue in old(codes) && !After(now, old(codes)[codeValue].expiresAt)
      ensures r.Some? ==> r.value == old(codes)[codeValue]
      ensures clients == old(clients) && tokens == old(tokens)
      ensures subject == old(subject) && statePath == old(statePath)
    {
      if codeValue !in codes {
        return None;
      }
      var code := codes[codeValue];
      codes := codes - {codeValue};
      if After(now, code.expiresAt) {
        return None;
      }
      return Some(code);
    }

    /** pruneOAuthStateLocked: delete expired codes and dead non-static tokens while iterating. */
    method Prune(now: int)
      modifies this
      ensures codes == PrunedCodes(old(codes), now)
      ensures tokens == PrunedTokens(old(tokens), now)
      ensures clients == old(clients) && subject == old(subject) && statePath == old(statePath)
    {
      PruneCodes(now);
      PruneTokens(now);
    }

    /** The first loop of pruneOAuthStateLocked: delete the expired codes. */
    method PruneCodes(now: int)
      modifies this
      ensures codes == PrunedCodes(old(codes), now)
      ensures tokens == old(tokens) && clients == old(clients)
      ensures subject == old(subject) && statePath == old(statePath)
    {
      var rest := codes.Keys;
      while rest != {}
        invariant rest <= old(codes).Keys
        invariant codes == map k | k in old(codes) && (k in rest || !CodeExpired(old(codes)[k], now)) :: old(codes)[k]
        invariant tokens == old(tokens) && clients == old(clients)
        invariant subject == old(subject) && statePath == old(statePath)
        decreases |rest|
      {
        var key :| key in rest;
        if codes[key].expiresAt != ZeroTimeMs && After(now, codes[key].expiresAt) {
          codes := codes - {key};
        }
        rest := rest - {key};
      }
    }

    /** The second loop of pruneOAuthStateLocked: delete the revoked or expired tokens that are not static. */
    method PruneTokens(now: int)
      modifies this
      ensures tokens == PrunedTokens(old(tokens), now)
      ensures codes == old(codes) && clients == old(clients)
      ensures subject == old(subject) && statePath == old(statePath)
    {
      var pending := tokens.Keys;
      assert TokensPending(old(tokens), pending, now) == tokens;
      while pending != {}
        invariant pending <= old(tokens).Keys
        invariant tokens == TokensPending(old(tokens), pending, now)
        invariant codes == old(codes) && clients == old(clients)
        invariant subject == old(subject) && statePath == old(statePath)
        decreases |pending|
      {
        var key :| key in pending;
        TokensPendingStep(old(tokens), pending, key, now);
        var token := tokens[key];
        if !token.isStatic {
          if token.revokedAt.Some? {
            tokens := tokens - {key};
          } else if token.expiresAt.Some? && After(now, token.expiresAt.value) {
            tokens := tokens - {key};
          }
        }
        pending := pending - {key};
      }
      assert TokensPending(old(tokens), {}, now) == PrunedTokens(old(tokens), now);
    }


    /**
     * persistOAuthStateLocked: with a state path, prune and return the document
     * to write (well-keyed entries only, no static token); without one, nothing.
     */
    method Persist(now: int) returns (saved: Option<PersistedState>)
      modifies this
      ensures IsBlank(old(statePath)) ==> saved.None? && codes == old(codes) && tokens == old(tokens)
      ensures !IsBlank(old(statePath)) ==>
        codes == PrunedCodes(old(codes), now) && tokens == PrunedTokens(old(tokens), now)
        && saved == Some(PersistedState(StateVersion, subject, PersistedClients(clients),
                                        PersistedCodes(codes), PersistedTokens(tokens)))
      ensures clients == old(clients) && subject == old(subject) && statePath == old(statePath)
    {
      if IsBlank(statePath) {
        return None;
      }
      Prune(now);
      var persistedClients := KeepClients(clients);
      var persistedCodes := KeepCodes(codes);
      var persistedTokens := KeepTokens(tokens);
      saved := Some(PersistedState(StateVersion, subject, persistedClients, persistedCodes, persistedTokens));
    }

    /**
     * loadOAuthState: with a state path and a decodable file of version 1,
     * merge its acceptable entries into the maps, then prune.
     */
    method Load(file: StateFile, now: int) returns (err: Option<string>)
      modifies this
      ensures (IsBlank(old(statePath)) || file.Missing?) ==> err.None? && clients == old(clients) && codes == old(codes) && tokens == old(tokens)
      ensures !IsBlank(old(statePath)) && file.Unreadable? ==> err == Some("failed to read oauth state: " + file.reason) && codes == old(codes) && tokens == old(tokens) && clients == old(clients)
      ensures !IsBlank(old(statePath)) && file.Malformed? ==> err == Some("failed to parse oauth state: " + file.reason) && codes == old(codes) && tokens == old(tokens) && clients == old(clients)
      ensures !IsBlank(old(statePath)) && file.Decoded? && file.state.version != StateVersion ==>
        err == Some("unsupported oauth state version: " + FormatInt(file.state.version)) && codes == old(codes) && tokens == old(tokens) && clients == old(clients)
      ensures !IsBlank(old(statePath)) && file.Decoded? && file.state.version == StateVersion ==>
        err.None?
        && clients == old(clients) + PersistedClients(file.state.clients)
        && codes == PrunedCodes(old(codes) + LoadedCodes(file.state.codes, now), now)
        && tokens == PrunedTokens(old(tokens) + LoadedTokens(file.state.tokens, now), now)
      ensures subject == old(subject) && statePath == old(statePath)
    {
      if IsBlank(statePath) {
        return None;
      }
      match file
      case Missing => return None;
      case Unreadable(reason) => return Some("failed to read oauth state: " + reason);
      case Malformed(reason) => return Some("failed to parse oauth state: " + reason);
      case Decoded(persisted) =>
        if persisted.version != StateVersion {
          return Some("unsupported oauth state version: " + FormatInt(persisted.version));
        }
        MergeLoaded(persisted, now);
        return None;
    }

    /** The merge-then-prune tail of loadOAuthState, for a file of the current version. */
    method MergeLoaded(persisted: PersistedState, now: int)
      modifies this
      ensures clients == old(clients) + PersistedClients(persisted.clients)
      ensures codes == PrunedCodes(old(codes) + LoadedCodes(persisted.codes, now), now)
      ensures tokens == PrunedTokens(old(tokens) + LoadedTokens(persisted.tokens, now), now)
      ensures subject == old(subject) && statePath == old(statePath)
    {
      var loadedClients := KeepClients(persisted.clients);
      var loadedCodes := KeepLiveCodes(persisted.codes, now);
      var loadedTokens := KeepLiveTokens(persisted.tokens, now);
      clients := MergeMap(clients, loadedClients);
      codes := MergeMap(codes, loadedCodes);
      tokens := MergeMap(tokens, loadedTokens);
      Prune(now);
    }
  }
}
