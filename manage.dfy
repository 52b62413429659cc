/**
 * The management endpoints of internal/server/manage.go: the page route,
 * the login handlers' field checks and their tolerance of an "already
 * logged in" answer, the classification of gomuks' JSON command replies,
 * and the Beeper login calls (domain normalisation, request payloads and how
 * the upstream answer is relayed).
 *
 * gomuks itself, the HTTP client and JSON decoding are outside the model:
 * the reply gomuks gives, the upstream answer and the decoders are
 * parameters.
 */
module Manage {
  import opened Wrappers
  import opened Text
  import opened JsonValues
  import opened ApiErrors
  import ServerParams

  /* ---------- page route and client state ---------- */

  /** manageUI: the page is served at "/manage" and "/manage/" only. */
  function ManagePage(path: string): (r: Option<ApiError>)
    ensures r.None? <==> path == "/manage" || path == "/manage/"
    ensures r.Some? ==> r.value.status == StatusNotFound && Error(r.value) == "Not found"
  {
    if path != "/manage" && path != "/manage/" then Some(NotFound("Not found")) else None
  }

  /** requireManageClient's failure when the gomuks runtime has no client. */
  function NotInitialized(): (e: ApiError)
    ensures e.status == StatusInternalServerError && Error(e) == "gomuks runtime is not initialized"
  {
    Internal(Some(Plain("gomuks runtime is not initialized")))
  }

  /** manageStateOutput without the client state gomuks reports. */
  datatype ManageState = ManageState(homeserverHost: string, isBeeperHomeserver: bool)

  /**
   * getManageState: `ready` says whether the runtime has a client,
   * `hostname` is the host of its homeserver URL (None when it has none).
   * `isBeeperHost` is isAllowedBeeperHomeserverHost, which manage.go calls
   * but does not define.
   */
  function GetManageState(ready: bool, hostname: Option<string>, isBeeperHost: string -> bool): (r: Result<ManageState, ApiError>)
    ensures !ready ==> r == Failure(NotInitialized())
    ensures ready && hostname.None? ==> r == Success(ManageState("", false))
    ensures ready && hostname.Some? ==>
      r.Success? && r.value.homeserverHost == ToLower(TrimSpace(hostname.value))
      && r.value.isBeeperHomeserver == isBeeperHost(r.value.homeserverHost)
  {
    if !ready then Failure(NotInitialized())
    else if hostname.None? then Success(ManageState("", false))
    else
      var host := ToLower(TrimSpace(hostname.value));
      Success(ManageState(host, isBeeperHost(host)))
  }

  /**
   * When isAllowedBeeperHomeserverHost is the allow-list requireBeeperHomeserver
   * uses, the state reports a Beeper homeserver exactly when the Beeper-only
   * endpoints would admit the same session.
   */
  lemma StateAgreesWithHomeserverCheck(hostname: string, isBeeperHost: string -> bool)
    requires forall host :: isBeeperHost(host) == ServerParams.BeeperHomeserver(host)
    ensures GetManageState(true, Some(hostname), isBeeperHost).Success?
    ensures GetManageState(true, Some(hostname), isBeeperHost).value.isBeeperHomeserver
      <==> ServerParams.RequireBeeperHomeserver(Some(hostname)).None?
  {
  }

  /* ---------- required fields ---------- */

  /** The validation error for a missing body field. */
  function FieldRequired(field: string): (e: ApiError)
    ensures e.status == StatusBadRequest && e.details == Some(FieldProblem(field, field + " is required"))
  {
    Validation(FieldProblem(field, field + " is required"))
  }

  /** A body field that must be non-blank; the trimmed value is what is used. */
  function RequiredField(field: string, value: string): (r: Result<string, ApiError>)
    ensures r.Success? <==> !IsBlank(value)
    ensures r.Success? ==> r.value == TrimSpace(value) && r.value != ""
    ensures r.Failure? ==> r.error == FieldRequired(field)
  {
    var v := TrimSpace(value);
    if v == "" then Failure(FieldRequired(field)) else Success(v)
  }

  /** A required value keeps its inner text: only white space at the ends is dropped. */
  lemma RequiredFieldTrimsOnly(field: string, value: string)
    requires NoSpace(value) && value != ""
    ensures RequiredField(field, value) == Success(value)
  {
    assert TrimLeft(value) == value;
    assert TrimRight(value) == value;
  }

  /** What a login handler hands to gomuks. */
  datatype LoginParams =
    | PasswordLogin(homeserverURL: string, username: string, password: string)
    | CustomLogin(homeserverURL: string, requestType: string)

  /**
   * manageLoginPassword's checks, in order: homeserverURL, username and
   * password; the first two are trimmed, the password is taken as given.
   */
  function ValidatePasswordLogin(homeserverURL: string, username: string, password: string): (r: Result<LoginParams, ApiError>)
    ensures r.Success? <==> !IsBlank(homeserverURL) && !IsBlank(username) && password != ""
    ensures r.Success? ==> r.value == PasswordLogin(TrimSpace(homeserverURL), TrimSpace(username), password)
    ensures IsBlank(homeserverURL) ==>
      r == Failure(FieldRequired("homeserverURL"))
    ensures !IsBlank(homeserverURL) && IsBlank(username) ==>
      r == Failure(FieldRequired("username"))
    ensures !IsBlank(homeserverURL) && !IsBlank(username) && password == "" ==>
      r == Failure(FieldRequired("password"))
  {
    var hs := RequiredField("homeserverURL", homeserverURL);
    var user := RequiredField("username", username);
    if hs.Failure? then Failure(hs.error)
    else if user.Failure? then Failure(user.error)
    else if password == "" then Failure(FieldRequired("password"))
    else Success(PasswordLogin(hs.value, user.value, password))
  }

  /** A password of white space only is accepted and passed on untouched. */
  lemma PasswordIsNotTrimmed(homeserverURL: string, username: string, password: string)
    requires !IsBlank(homeserverURL) && !IsBlank(username)
    requires password != "" && AllSpace(password)
    ensures ValidatePasswordLogin(homeserverURL, username, password).Success?
    ensures ValidatePasswordLogin(homeserverURL, username, password).value.password == password
    ensures IsBlank(password)
  {
    TrimSpaceEmptyIff(password);
  }

  /** manageLoginCustom's checks: homeserverURL, then a non-blank request type. */
  function ValidateCustomLogin(homeserverURL: string, requestType: string): (r: Result<LoginParams, ApiError>)
    ensures r.Success? <==> !IsBlank(homeserverURL) && !IsBlank(requestType)
    ensures r.Success? ==> r.value == CustomLogin(TrimSpace(homeserverURL), requestType)
    ensures IsBlank(homeserverURL) ==>
      r == Failure(FieldRequired("homeserverURL"))
    ensures !IsBlank(homeserverURL) && IsBlank(requestType) ==>
      r == Failure(Validation(FieldProblem("request", "request.type is required")))
  {
    var hs := RequiredField("homeserverURL", homeserverURL);
    if hs.Failure? then Failure(hs.error)
    else if IsBlank(requestType) then Failure(Validation(FieldProblem("request", "request.type is required")))
    else Success(CustomLogin(hs.value, requestType))
  }

  /* ---------- gomuks JSON commands ---------- */

  /** The reply SubmitJSONCommand gives, by its command name. */
  datatype HiReply =
    | NoReply
    | ErrorReply(data: string)
    | SuccessReply(data: string)
    | OtherReply(command: string, data: string)

  /**
   * The text of an error reply: the data decoded as a JSON string when that
   * works and is not blank, otherwise the raw data; trimmed; "unknown error"
   * when nothing is left. `decodeString` is json.Unmarshal into a string.
   */
  function HiErrorMessage(data: string, decodeString: string -> Option<string>): string
  {
    var decoded := decodeString(data);
    var message := if decoded.Some? && !IsBlank(decoded.value) then decoded.value else data;
    var trimmed := TrimSpace(message);
    if trimmed == "" then "unknown error" else trimmed
  }

  /** The message of an error reply is never empty and comes from the decoded string when it can. */
  lemma HiErrorMessageFacts(data: string, decodeString: string -> Option<string>)
    ensures HiErrorMessage(data, decodeString) != ""
    ensures decodeString(data).Some? && !IsBlank(decodeString(data).value) ==>
      HiErrorMessage(data, decodeString) == TrimSpace(decodeString(data).value)
    ensures (decodeString(data).None? || IsBlank(decodeString(data).value)) && !IsBlank(data) ==>
      HiErrorMessage(data, decodeString) == TrimSpace(data)
    ensures (decodeString(data).None? || IsBlank(decodeString(data).value)) && IsBlank(data) ==>
      HiErrorMessage(data, decodeString) == "unknown error"
    ensures HiErrorMessage(data, decodeString) == "unknown error"
      || TrimSpace(HiErrorMessage(data, decodeString)) == HiErrorMessage(data, decodeString)
  {
    var decoded := decodeString(data);
    var message := if decoded.Some? && !IsBlank(decoded.value) then decoded.value else data;
    TrimSpaceIdempotent(message);
  }

  /** The error runHiCommand reports for an error reply. */
  function CommandFailed(cmd: string, message: string): ApiError
  {
    Internal(Some(Plain("gomuks " + cmd + " failed: " + message)))
  }

  /**
   * runHiCommand: `encodeErr` is the failure of encoding the parameters,
   * `decodeOut` is None when the caller passes no `out`, else the decoding
   * of the success data into it (None when that works).
   */
  function RunHiCommand(cmd: string, encodeErr: Option<GoError>, reply: HiReply,
                        decodeString: string -> Option<string>,
                        decodeOut: Option<string -> Option<GoError>>): (r: Option<ApiError>)
    ensures r.None? <==>
      encodeErr.None? && reply.SuccessReply? && (decodeOut.None? || decodeOut.value(reply.data).None?)
    ensures r.Some? ==> r.value.status == StatusInternalServerError && r.value.code == "INTERNAL_ERROR"
    ensures encodeErr.None? && reply.ErrorReply? ==>
      r == Some(CommandFailed(cmd, HiErrorMessage(reply.data, decodeString)))
    ensures encodeErr.None? && reply.NoReply? ==>
      Error(r.value) == "gomuks returned empty response for " + cmd
    ensures encodeErr.None? && reply.OtherReply? ==>
      Error(r.value) == "gomuks returned unexpected response type " + reply.command + " for " + cmd
  {
    if encodeErr.Some? then Some(Internal(Some(Wrapped("failed to encode " + cmd + " params", encodeErr.value))))
    else match reply
      case NoReply => Some(Internal(Some(Plain("gomuks returned empty response for " + cmd))))
      case ErrorReply(data) => Some(CommandFailed(cmd, HiErrorMessage(data, decodeString)))
      case OtherReply(command, _) =>
        Some(Internal(Some(Plain("gomuks returned unexpected response type " + command + " for " + cmd))))
      case SuccessReply(data) =>
        if decodeOut.None? then None
        else
          var err := decodeOut.value(data);
          if err.None? then None else Some(Internal(Some(Wrapped("failed to decode " + cmd + " response", err.value))))
  }

  /** A success reply without an `out` succeeds whatever data it carries. */
  lemma SuccessWithoutOutIgnoresData(cmd: string, data1: string, data2: string,
                                     decodeString: string -> Option<string>)
    ensures RunHiCommand(cmd, None, SuccessReply(data1), decodeString, None)
      == RunHiCommand(cmd, None, SuccessReply(data2), decodeString, None)
      == None
  {
  }

  /* ---------- login handlers ---------- */

  const AlreadyLoggedInText: string := "already logged in"

  /** The error says, in any letter case, that the session is already logged in. */
  predicate AlreadyLoggedIn(e: ApiError)
  {
    Contains(ToLower(Error(e)), AlreadyLoggedInText)
  }

  /** The login handlers drop a command error that reports an existing login. */
  function TolerateLoggedIn(err: Option<ApiError>): (r: Option<ApiError>)
    ensures r.None? <==> err.None? || AlreadyLoggedIn(err.value)
    ensures r.Some? ==> r == err
  {
    if err.Some? && !AlreadyLoggedIn(err.value) then err else None
  }

  /**
   * manageLoginPassword and manageLoginCustom after decoding: validation,
   * the runtime check, the login command (its outcome for the parameters
   * sent is `run`), then the client state.
   */
  function Login(validated: Result<LoginParams, ApiError>, ready: bool,
                 run: LoginParams -> Option<ApiError>, hostname: Option<string>, isBeeperHost: string -> bool)
    : (r: Result<ManageState, ApiError>)
    ensures validated.Failure? ==> r == Failure(validated.error)
    ensures validated.Success? && !ready ==> r == Failure(NotInitialized())
    ensures validated.Success? && ready ==>
      r == (if TolerateLoggedIn(run(validated.value)).Some? then Failure(run(validated.value).value)
            else GetManageState(ready, hostname, isBeeperHost))
  {
    if validated.Failure? then Failure(validated.error)
    else if !ready then Failure(NotInitialized())
    else
      var err := TolerateLoggedIn(run(validated.value));
      if err.Some? then Failure(err.value) else GetManageState(ready, hostname, isBeeperHost)
  }

  /** A run of lower-case text stays found when lower-casing a longer text around it. */
  lemma ContainsLowerInside(a: string, m: string, sub: string)
    requires Contains(ToLower(m), sub)
    ensures Contains(ToLower(a + m), sub)
  {
    assert ToLower(a + m) == ToLower(a) + ToLower(m);
    var j :| 0 <= j <= |ToLower(m)| - |sub| && OccursAt(ToLower(m), sub, j);
    assert OccursAt(ToLower(a + m), sub, |a| + j) by {
      assert ToLower(a + m)[|a| + j..|a| + j + |sub|] == ToLower(m)[j..j + |sub|];
    }
  }

  /**
   * When gomuks answers a login with an error whose text says "already
   * logged in" in any letter case, the handler answers with the client
   * state as if the login had succeeded.
   */
  lemma AlreadyLoggedInIsSuccess(validated: Result<LoginParams, ApiError>, cmd: string, data: string,
                                 decodeString: string -> Option<string>, hostname: Option<string>,
                                 run: LoginParams -> Option<ApiError>, isBeeperHost: string -> bool)
    requires validated.Success?
    requires Contains(ToLower(HiErrorMessage(data, decodeString)), AlreadyLoggedInText)
    requires run(validated.value) == RunHiCommand(cmd, None, ErrorReply(data), decodeString, None)
    ensures Login(validated, true, run, hostname, isBeeperHost) == GetManageState(true, hostname, isBeeperHost)
  {
    var message := HiErrorMessage(data, decodeString);
    var e := CommandFailed(cmd, message);
    assert Error(e) == ("gomuks " + cmd + " failed: ") + message;
    ContainsLowerInside("gomuks " + cmd + " failed: ", message, AlreadyLoggedInText);
  }

  /** Any other command failure reaches the caller unchanged. */
  lemma OtherLoginErrorsSurface(validated: Result<LoginParams, ApiError>, e: ApiError,
                                hostname: Option<string>, run: LoginParams -> Option<ApiError>, isBeeperHost: string -> bool)
    requires validated.Success? && run(validated.value) == Some(e) && !AlreadyLoggedIn(e)
    ensures Login(validated, true, run, hostname, isBeeperHost) == Failure(e)
  {
  }

  /* ---------- Beeper login ---------- */

  const BeeperDomains: set<string> := {"beeper.com", "beeper-staging.com", "beeper-dev.com"}
  const DomainProblem: string := "must be one of: beeper.com, beeper-staging.com, beeper-dev.com"

  /** The steps of normalizeBeeperDomain before the allow-list. */
  function StripDomain(raw: string): string
  {
    var lowered := ToLower(TrimSpace(raw));
    var noHttps := TrimPrefix(lowered, "https://");
    var noHttp := TrimPrefix(noHttps, "http://");
    var noMatrix := TrimPrefix(noHttp, "matrix.");
    var noApi := TrimPrefix(noMatrix, "api.");
    TrimSuffix(noApi, "/")
  }

  /** normalizeBeeperDomain. */
  function NormalizeBeeperDomain(raw: string): (r: Result<string, string>)
    ensures r.Success? <==> StripDomain(raw) in BeeperDomains
    ensures r.Success? ==> r.value == StripDomain(raw) && r.value in BeeperDomains
    ensures r.Failure? ==> r.error == DomainProblem
  {
    var domain := StripDomain(raw);
    if domain in BeeperDomains then Success(domain) else Failure(DomainProblem)
  }

  /** What every accepted domain looks like: lower-case, from `b` to `m`. */
  lemma AcceptedDomainShape(d: string)
    requires d in BeeperDomains
    ensures |d| >= 10 && d[0] == 'b' && d[|d| - 1] == 'm'
    ensures forall i :: 0 <= i < |d| ==> LowerChar(d[i]) == d[i]
  {
  }

  /** An accepted domain is left as it is by every step. */
  lemma AcceptedDomainIsFixed(d: string)
    requires d in BeeperDomains
    ensures StripDomain(d) == d
  {
    AcceptedDomainShape(d);
    TrimSpaceUntouched(d);
    assert ToLower(d) == d;
    TrimPrefixMismatch(d, "https://", 0);
    TrimPrefixMismatch(d, "http://", 0);
    TrimPrefixMismatch(d, "matrix.", 0);
    TrimPrefixMismatch(d, "api.", 0);
    TrimSuffixMismatch(d, "/");
  }

  /** Normalising a normalised domain changes nothing. */
  lemma NormalizeIdempotent(raw: string)
    ensures NormalizeBeeperDomain(raw).Success? ==>
      NormalizeBeeperDomain(NormalizeBeeperDomain(raw).value) == NormalizeBeeperDomain(raw)
  {
    if NormalizeBeeperDomain(raw).Success? {
      AcceptedDomainIsFixed(NormalizeBeeperDomain(raw).value);
    }
  }

  /** The scheme steps remove an `https://` or `http://` in front of a host, and nothing else. */
  lemma SchemeStripped(scheme: string, rest: string)
    requires scheme == "" || scheme == "https://" || scheme == "http://"
    requires rest != "" && rest[0] != 'h'
    ensures TrimPrefix(TrimPrefix(scheme + rest, "https://"), "http://") == rest
  {
    if scheme == "https://" {
      TrimPrefixOfConcat("https://", rest);
    } else if scheme == "http://" {
      TrimPrefixMismatch("http://" + rest, "https://", 4);
      TrimPrefixOfConcat("http://", rest);
    } else {
      assert scheme + rest == rest;
      TrimPrefixMismatch(rest, "https://", 0);
    }
    TrimPrefixMismatch(rest, "http://", 0);
  }

  /** The host steps remove `matrix.`, `api.` or `matrix.api.` in front of a domain starting with `b`. */
  lemma HostStripped(host: string, domain: string)
    requires host == "" || host == "matrix." || host == "api." || host == "matrix.api."
    requires domain != "" && domain[0] == 'b'
    ensures TrimPrefix(TrimPrefix(host + domain, "matrix."), "api.") == domain
  {
    var api := if host == "api." || host == "matrix.api." then "api." else "";
    var tail := api + domain;
    if host == "matrix." || host == "matrix.api." {
      assert host + domain == "matrix." + tail;
      TrimPrefixOfConcat("matrix.", tail);
    } else {
      assert host + domain == tail;
      TrimPrefixMismatch(tail, "matrix.", 0);
    }
    if api == "api." {
      TrimPrefixOfConcat("api.", domain);
    } else {
      assert tail == domain;
      TrimPrefixMismatch(domain, "api.", 0);
    }
  }

  /** The last step removes one trailing slash after a domain ending in `m`. */
  lemma SlashStripped(d: string, slash: string)
    requires slash == "" || slash == "/"
    requires d != "" && d[|d| - 1] == 'm'
    ensures TrimSuffix(d + slash, "/") == d
  {
    if slash == "/" {
      TrimSuffixOfConcat(d, "/");
    } else {
      assert d + slash == d;
      TrimSuffixMismatch(d, "/");
    }
  }

  /** Regrouping a concatenation of four parts. */
  lemma ConcatRegroup(a: string, b: string, c: string, e: string)
    ensures a + b + c + e == a + (b + (c + e))
  {
  }

  /**
   * Every spelling the steps undo is accepted: after trimming and
   * lower-casing, an optional `https://` or `http://`, then `matrix.`,
   * `api.` or both in that order, the domain, and an optional trailing slash.
   */
  lemma AcceptedSpellings(raw: string, scheme: string, host: string, d: string, slash: string)
    requires d in BeeperDomains
    requires scheme == "" || scheme == "https://" || scheme == "http://"
    requires host == "" || host == "matrix." || host == "api." || host == "matrix.api."
    requires slash == "" || slash == "/"
    requires ToLower(TrimSpace(raw)) == scheme + host + d + slash
    ensures NormalizeBeeperDomain(raw) == Success(d)
  {
    AcceptedDomainShape(d);
    var domain := d + slash;
    var rest := host + domain;
    ConcatRegroup(scheme, host, d, slash);
    assert rest[0] != 'h' by {
      if host == "" {
        assert rest[0] == d[0];
      } else {
        assert rest[0] == host[0];
      }
    }
    SchemeStripped(scheme, rest);
    HostStripped(host, domain);
    SlashStripped(d, slash);
  }

  /**
   * `api.` is stripped only once and only after `matrix.`, so
   * `api.matrix.` in front of an accepted domain is refused.
   */
  lemma ApiThenMatrixRefused(raw: string, d: string)
    requires d in BeeperDomains
    requires ToLower(TrimSpace(raw)) == "api.matrix." + d
    ensures StripDomain(raw) == "matrix." + d
    ensures NormalizeBeeperDomain(raw) == Failure(DomainProblem)
  {
    AcceptedDomainShape(d);
    var m := "matrix." + d;
    assert "api.matrix." + d == "api." + m;
    TrimPrefixMismatch("api." + m, "https://", 0);
    TrimPrefixMismatch("api." + m, "http://", 0);
    TrimPrefixMismatch("api." + m, "matrix.", 0);
    TrimPrefixOfConcat("api.", m);
    TrimSuffixMismatch(m, "/");
    assert m[0] == 'm';
  }

  /** A request beeperAPIPost is about to send: the URL and the JSON object body. */
  datatype BeeperCall = BeeperCall(url: string, payload: map<string, string>)

  /** The first half of beeperAPIPost: the domain check and the target URL. */
  function BeeperPost(rawDomain: string, endpoint: string, payload: map<string, string>): (r: Result<BeeperCall, ApiError>)
    ensures r.Success? <==> NormalizeBeeperDomain(rawDomain).Success?
    ensures r.Success? ==>
      exists d :: d in BeeperDomains && r.value == BeeperCall("https://api." + d + endpoint, payload)
    ensures r.Failure? ==> r.error == Validation(FieldProblem("domain", DomainProblem))
  {
    match NormalizeBeeperDomain(rawDomain)
    case Failure(problem) => Failure(Validation(FieldProblem("domain", problem)))
    case Success(domain) => Success(BeeperCall("https://api." + domain + endpoint, payload))
  }

  /** manageBeeperStartLogin's request: an empty object to /user/login. */
  function StartLoginCall(rawDomain: string): (r: Result<BeeperCall, ApiError>)
    ensures r.Success? ==> r.value.payload == map[] && HasSuffix(r.value.url, "/user/login")
  {
    BeeperPost(rawDomain, "/user/login", map[])
  }

  /** manageBeeperRequestCode's request: request and email are required, then the domain is checked. */
  function RequestCodeCall(rawDomain: string, request: string, email: string): (r: Result<BeeperCall, ApiError>)
    ensures IsBlank(request) ==> r == Failure(FieldRequired("request"))
    ensures !IsBlank(request) && IsBlank(email) ==>
      r == Failure(FieldRequired("email"))
    ensures r.Success? ==>
      r.value.payload == map["request" := TrimSpace(request), "email" := TrimSpace(email)]
      && HasSuffix(r.value.url, "/user/login/email")
  {
    var req := RequiredField("request", request);
    var mail := RequiredField("email", email);
    if req.Failure? then Failure(req.error)
    else if mail.Failure? then Failure(mail.error)
    else BeeperPost(rawDomain, "/user/login/email", map["request" := req.value, "email" := mail.value])
  }

  /**
   * manageBeeperSubmitCode's request: request and response are required,
   * and every space is taken out of the trimmed response before it is sent.
   */
  function SubmitCodeCall(rawDomain: string, request: string, response: string): (r: Result<BeeperCall, ApiError>)
    ensures IsBlank(request) ==> r == Failure(FieldRequired("request"))
    ensures !IsBlank(request) && IsBlank(response) ==>
      r == Failure(FieldRequired("response"))
    ensures r.Success? ==>
      r.value.payload == map["request" := TrimSpace(request), "response" := RemoveChar(TrimSpace(response), ' ')]
      && HasSuffix(r.value.url, "/user/login/response")
  {
    var req := RequiredField("request", request);
    var resp := RequiredField("response", response);
    if req.Failure? then Failure(req.error)
    else if resp.Failure? then Failure(resp.error)
    else BeeperPost(rawDomain, "/user/login/response", map["request" := req.value, "response" := RemoveChar(resp.value, ' ')])
  }

  /** A code typed in groups reaches the Beeper API as one word with the same characters in order. */
  lemma SubmittedCodeHasNoSpaces(rawDomain: string, request: string, response: string)
    requires SubmitCodeCall(rawDomain, request, response).Success?
    ensures ' ' !in SubmitCodeCall(rawDomain, request, response).value.payload["response"]
    ensures SubmitCodeCall(rawDomain, request, response).value.payload["response"]
      == RemoveChar(TrimSpace(response), ' ')
  {
  }

  /** A space-free code is sent exactly as entered; grouped digits are joined. */
  lemma {:induction false} RemoveSpaceKeepsOthers(a: string, b: string)
    requires ' ' !in a
    ensures RemoveChar(a, ' ') == a
    ensures RemoveChar(a + " " + b, ' ') == a + RemoveChar(b, ' ')
  {
    if |a| > 0 {
      RemoveSpaceKeepsOthers(a[1..], b);
      assert (a + " " + b)[1..] == a[1..] + " " + b;
    } else {
      assert a + " " + b == [' '] + b;
    }
  }

  /** A response body as it comes off the wire. */
  type Bytes = seq<bv8>

  /** The most of an upstream body beeperAPIPost reads: 1 MiB, counted in bytes. */
  const MaxBeeperBody: nat := 0x10_0000

  /**
   * What json.Unmarshal into a `map[string]any` leaves behind: an object, a
   * nil map for the document `null` (which decodes without error), or an error.
   */
  datatype DecodedBody = DecodedObject(fields: map<string, Json>) | DecodedNull | NotAnObject

  /**
   * The data beeperAPIPost returns for an upstream body: None for an empty
   * body and for `null`, the decoded object when it decodes, otherwise the
   * text under "raw". `decode` is json.Unmarshal into a map and `text` is
   * Go's conversion of the bytes to a string.
   */
  function ResponseData(body: Bytes, decode: Bytes -> DecodedBody, text: Bytes -> string): (r: Option<map<string, Json>>)
    ensures r.None? <==> body == [] || decode(ReadLimited(body)).DecodedNull?
    ensures body != [] && decode(ReadLimited(body)).DecodedObject? ==> r == Some(decode(ReadLimited(body)).fields)
    ensures body != [] && decode(ReadLimited(body)).NotAnObject? ==>
      r == Some(map["raw" := JString(text(ReadLimited(body)))])
  {
    var read := ReadLimited(body);
    if read == [] then None
    else match decode(read)
      case DecodedObject(fields) => Some(fields)
      case DecodedNull => None
      case NotAnObject => Some(map["raw" := JString(text(read))])
  }

  /** io.ReadAll of io.LimitReader: the first MaxBeeperBody bytes. */
  function ReadLimited(body: Bytes): (r: Bytes)
    ensures |r| <= MaxBeeperBody && |r| <= |body| && r == body[..|r|]
    ensures |r| == if |body| < MaxBeeperBody then |body| else MaxBeeperBody
  {
    if |body| <= MaxBeeperBody then body else body[..MaxBeeperBody]
  }

  /** dataOrFallback: the data when there is any, else the fallback. */
  function DataOrFallback(data: Option<map<string, Json>>, fallback: map<string, Json>): map<string, Json>
  {
    if data.Some? then data.value else fallback
  }

  /** What the server gets back from the Beeper API. */
  datatype Upstream = RequestFailed(err: GoError) | Answered(status: int, body: Bytes)

  /**
   * How the Beeper handlers relay the answer: a transport failure is a 500;
   * a status of 300 or more is passed on with the data or an error object
   * naming `failure`; anything else is a 200 with the data or `{}`.
   */
  function RelayBeeper(upstream: Upstream, decode: Bytes -> DecodedBody, text: Bytes -> string,
                       failure: string): (r: Result<(int, map<string, Json>), ApiError>)
    ensures upstream.RequestFailed? ==>
      r == Failure(Internal(Some(Wrapped("beeper API request failed", upstream.err))))
    ensures upstream.Answered? ==> r.Success?
    ensures upstream.Answered? && upstream.status >= 300 ==> r.value.0 == upstream.status
    ensures upstream.Answered? && upstream.status < 300 ==> r.value.0 == 200
    ensures upstream.Answered? ==>
      var data := ResponseData(upstream.body, decode, text);
      r.value.1 == (if data.Some? then data.value else if upstream.status >= 300 then map["error" := JString(failure)] else map[])
  {
    match upstream
    case RequestFailed(err) => Failure(Internal(Some(Wrapped("beeper API request failed", err))))
    case Answered(status, body) =>
      var data := ResponseData(body, decode, text);
      if status >= 300 then Success((status, DataOrFallback(data, map["error" := JString(failure)])))
      else Success((200, DataOrFallback(data, map[])))
  }

  /**
   * An answer whose body holds an object is relayed as that object, and any
   * other non-empty body that is not `null` as its text under "raw"; an empty
   * or `null` failing answer becomes an error object naming the failure, and
   * an empty or `null` successful one an empty object.
   */
  lemma RelayedBody(status: int, body: Bytes, decode: Bytes -> DecodedBody, text: Bytes -> string, failure: string)
    ensures var r := RelayBeeper(Answered(status, body), decode, text, failure);
      var decoded := decode(ReadLimited(body));
      r.Success?
      && (body != [] && decoded.DecodedObject? ==> r.value.1 == decoded.fields)
      && (body != [] && decoded.NotAnObject? ==> r.value.1 == map["raw" := JString(text(ReadLimited(body)))])
      && ((body == [] || decoded.DecodedNull?) && status >= 300 ==> r.value.1 == map["error" := JString(failure)])
      && ((body == [] || decoded.DecodedNull?) && status < 300 ==> r.value.1 == map[])
  {
  }
}
