/**
 * The OAuth2 introspection verifier: the bearer-token reader shared with the
 * JWT verifier, the decision over the introspection endpoint's decoded JSON
 * reply, and the middleware that stores the resulting `AuthInfo` under the
 * string key "AuthInfo".
 */
module OryAuth {
  import opened Wrappers
  import opened GoStrings
  import opened Credentials
  import opened User
  import opened Http

  const AuthorizationHeader: string := "Authorization"
  const BearerScheme: string := "Bearer"
  const AuthInfoKey: string := "AuthInfo"

  const EmptyToken: string := "Empty auth token"
  const InvalidAuthToken: string := "Invalid auth token"
  const ExpiredAuthToken: string := "Expired auth token"
  const InvalidToken: string := "Invalid token"

  /** `Auther`: the introspection endpoint and the client id tokens must name. */
  datatype Auther = Auther(introspectUrl: string, clientID: string)

  /**
   * The introspection call: `http.PostForm(url, token=<token>)` followed by
   * decoding the body as a JSON object, giving the decoded object or the
   * transport or decoding error.
   */
  type Introspector = (string, string) -> Result<map<string, JsonValue>>

  /** `NewAuther`: the endpoint and client id, stored as given. */
  function NewAuther(introspectUrl: string, clientID: string): (a: Auther)
    ensures a.introspectUrl == introspectUrl && a.clientID == clientID
  {
    Auther(introspectUrl, clientID)
  }

  /** `getBearerAuthHeader`: the credential after the only "Bearer", or "". */
  function GetBearerAuthHeader(authHeader: string): (token: string) {
    ExtractToken(authHeader, BearerScheme)
  }

  /** "Bearer" is a scheme word: its occurrences never overlap. */
  lemma BearerIsSchemeWord()
    ensures IsSchemeWord(BearerScheme)
  {
  }

  /** The empty header carries no bearer token. */
  lemma BearerEmptyHeader()
    ensures GetBearerAuthHeader("") == ""
  {
  }

  /**
   * `getBearerAuthHeader` yields "" unless "Bearer" occurs exactly once,
   * anywhere in the header and case-sensitively, and otherwise the trimmed
   * text after it; any result it yields is trimmed.
   */
  lemma BearerHeaderSpec(authHeader: string)
    ensures Count(authHeader, BearerScheme) != 1 ==> GetBearerAuthHeader(authHeader) == ""
    ensures Count(authHeader, BearerScheme) == 1 ==>
      && Index(authHeader, BearerScheme) != -1
      && GetBearerAuthHeader(authHeader)
         == TrimSpace(authHeader[Index(authHeader, BearerScheme) + |BearerScheme|..])
    ensures IsTrimmed(GetBearerAuthHeader(authHeader))
  {
    BearerIsSchemeWord();
    ExtractTokenSpec(authHeader, BearerScheme);
  }

  /**
   * Round trip: a non-empty trimmed token without "Bearer" inside it comes
   * back out of "Bearer " + token.
   */
  lemma BearerRoundTrip(token: string)
    requires token != [] && IsTrimmed(token) && Count(token, BearerScheme) == 0
    ensures GetBearerAuthHeader("Bearer " + token) == token
  {
    ExtractTokenRoundTrip(BearerScheme, token);
    assert BearerScheme + " " + token == "Bearer " + token;
  }

  /**
   * A token that itself contains "Bearer" is not extracted: the header then
   * holds the word twice.
   */
  lemma BearerInsideToken()
    ensures GetBearerAuthHeader("Bearer abcBearer") == ""
  {
    var h := "Bearer abcBearer";
    assert OccursAt(h, BearerScheme, 0);
    assert OccursAt(h, BearerScheme, 10);
    TwiceYieldsNothing(h, BearerScheme, 0, 10);
  }

  /**
   * The checks on the decoded reply, in the source's order: `active` must
   * be a boolean, then true; `sub` must be the client id; `username` and
   * `client_id` are taken when they are strings.
   */
  function CheckIntrospection(a: Auther, tokenInfo: map<string, JsonValue>): Result<AuthInfo> {
    if "active" !in tokenInfo || !tokenInfo["active"].JBool? then Failure(InvalidAuthToken)
    else if !tokenInfo["active"].b then Failure(ExpiredAuthToken)
    else if "sub" !in tokenInfo || tokenInfo["sub"] != JString(a.clientID) then Failure(InvalidToken)
    else
      var user := if "username" in tokenInfo && tokenInfo["username"].JString? then tokenInfo["username"].s else "";
      var clientId := if "client_id" in tokenInfo && tokenInfo["client_id"].JString? then tokenInfo["client_id"].s else "";
      Success(AuthInfo(user, clientId, ""))
  }

  /** `Auther.validateAuthToken`: the empty check, the remote call, the checks. */
  function ValidateAuthToken(a: Auther, introspect: Introspector, authToken: string): Result<AuthInfo> {
    if authToken == "" then Failure(EmptyToken)
    else
      match introspect(a.introspectUrl, authToken)
      case Failure(e) => Failure(e)
      case Success(tokenInfo) => CheckIntrospection(a, tokenInfo)
  }

  /** The bearer token the middleware reads from a request. */
  function RequestToken(r: Request): (token: string)
    ensures token == GetBearerAuthHeader(HeaderGet(r, "Authorization"))
  {
    GetBearerAuthHeader(HeaderGet(r, AuthorizationHeader))
  }

  /** The introspection middleware's decision for one request. */
  function Decide(a: Auther, introspect: Introspector, r: Request): Outcome {
    var authToken := RequestToken(r);
    if authToken == "" then Forward(r)
    else
      match ValidateAuthToken(a, introspect, authToken)
      case Success(authInfo) => Forward(WithValue(r, StrKey(AuthInfoKey), AuthInfoValue(authInfo)))
      case Failure(e) => Respond(Unauthorized(e))
  }

  /** `Auther.AuthVerify`: the middleware in front of `next`. */
  function AuthVerify(a: Auther, introspect: Introspector, next: Handler): Handler {
    Wrap(r => Decide(a, introspect, r), next)
  }

  /** A request without an "Authorization" header goes on untouched. */
  lemma NoHeaderForwards(a: Auther, introspect: Introspector, r: Request)
    requires "Authorization" !in r.header
    ensures Decide(a, introspect, r) == Forward(r)
  {
    BearerEmptyHeader();
  }

  /** An empty token fails before the endpoint is called: no reply matters. */
  lemma EmptyTokenNoCall(a: Auther, introspect1: Introspector, introspect2: Introspector)
    ensures ValidateAuthToken(a, introspect1, "") == Failure("Empty auth token")
    ensures ValidateAuthToken(a, introspect1, "") == ValidateAuthToken(a, introspect2, "")
  {
  }

  /**
   * A non-empty token is sent to the configured endpoint: a transport or
   * decoding error comes back unchanged, and a decoded reply is judged by
   * the checks alone.
   */
  lemma ValidateCallsEndpoint(a: Auther, introspect: Introspector, authToken: string)
    requires authToken != ""
    ensures introspect(a.introspectUrl, authToken).Failure? ==>
      ValidateAuthToken(a, introspect, authToken) == Failure(introspect(a.introspectUrl, authToken).error)
    ensures introspect(a.introspectUrl, authToken).Success? ==>
      ValidateAuthToken(a, introspect, authToken) == CheckIntrospection(a, introspect(a.introspectUrl, authToken).value)
  {
  }

  /**
   * `active` is checked first: missing or not a boolean is "Invalid auth
   * token", false is "Expired auth token", whatever `sub` says.
   */
  lemma ActiveChecks(a: Auther, tokenInfo: map<string, JsonValue>)
    ensures ("active" !in tokenInfo || !tokenInfo["active"].JBool?) ==>
      CheckIntrospection(a, tokenInfo) == Failure("Invalid auth token")
    ensures ("active" in tokenInfo && tokenInfo["active"] == JBool(false)) ==>
      CheckIntrospection(a, tokenInfo) == Failure("Expired auth token")
  {
  }

  /** With `active` true, a `sub` that is not the client id is "Invalid token". */
  lemma SubCheck(a: Auther, tokenInfo: map<string, JsonValue>)
    requires "active" in tokenInfo && tokenInfo["active"] == JBool(true)
    ensures CheckIntrospection(a, tokenInfo).Success? <==>
      "sub" in tokenInfo && tokenInfo["sub"] == JString(a.clientID)
    ensures CheckIntrospection(a, tokenInfo).Failure? ==>
      CheckIntrospection(a, tokenInfo) == Failure("Invalid token")
  {
  }

  /**
   * A reply is accepted exactly when `active` is true and `sub` is the
   * client id. The identity then carries `username` and `client_id` when
   * they are strings, "" otherwise, and never a domain.
   */
  lemma AcceptedReply(a: Auther, tokenInfo: map<string, JsonValue>)
    ensures CheckIntrospection(a, tokenInfo).Success? <==>
      && "active" in tokenInfo && tokenInfo["active"] == JBool(true)
      && "sub" in tokenInfo && tokenInfo["sub"] == JString(a.clientID)
    ensures CheckIntrospection(a, tokenInfo).Success? ==>
      var info := CheckIntrospection(a, tokenInfo).value;
      && (if "username" in tokenInfo && tokenInfo["username"].JString?
          then info.user == tokenInfo["username"].s else info.user == "")
      && (if "client_id" in tokenInfo && tokenInfo["client_id"].JString?
          then info.clientId == tokenInfo["client_id"].s else info.clientId == "")
      && info.domain == ""
  {
  }

  /**
   * The middleware: no bearer token forwards the request untouched; a
   * verified one forwards it with the `AuthInfo` under "AuthInfo" and nothing
   * else changed; a failed one answers 401 "ERR: <message>\n".
   */
  lemma MiddlewareOutcomes(a: Auther, introspect: Introspector, r: Request)
    ensures RequestToken(r) == "" ==> Decide(a, introspect, r) == Forward(r)
    ensures RequestToken(r) != "" ==>
      match ValidateAuthToken(a, introspect, RequestToken(r))
      case Success(info) =>
        var out := Decide(a, introspect, r);
        && out.Forward?
        && out.req.header == r.header && out.req.remoteAddr == r.remoteAddr
        && out.req.ctx == r.ctx[StrKey("AuthInfo") := AuthInfoValue(info)]
      case Failure(e) =>
        Decide(a, introspect, r) == Respond(Response(401, "ERR: " + e + "\n"))
  {
  }
}
