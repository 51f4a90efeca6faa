/**
 * The API-key verifier: a table from API key to the user and domain it was
 * issued for, loaded once, and a middleware that reads
 * `X-Authorization: Apikey <key>`, looks the key up, checks where the request
 * comes from when the key is bound to a domain, and either forwards the
 * request with the user attached under `ctxAuthAccessTokenKey{}` or answers
 * 401.
 */
module ApiKeyAuth {
  import opened Wrappers
  import opened GoStrings
  import opened Credentials
  import opened User
  import opened Http

  const ApiKeyHeader: string := "X-Authorization"
  const ApiKeyScheme: string := "Apikey"
  const NotAuthorized: string := "Not authorized"

  /** One record of the key list: the user, the key, and an optional domain. */
  datatype ApiKey = ApiKey(user: string, apiKey: string, domain: string)

  /** The verifier's trust material: key to identity, read-only once built. */
  datatype ApiKeyVerifier = ApiKeyVerifier(apiKeys: map<string, AuthInfo>)

  /**
   * `net.SplitHostPort` reduced to what the verifier uses: the host part of
   * a `host:port` address, or `None` when the address does not split.
   */
  type HostSplitter = string -> Option<string>

  /**
   * The table a record list gives when its records are entered in list
   * order, each entry holding the record's user and domain and no client id.
   */
  function KeyTable(records: seq<ApiKey>): map<string, AuthInfo>
    decreases |records|
  {
    if records == [] then map[]
    else
      var last := records[|records| - 1];
      KeyTable(records[..|records| - 1])[last.apiKey := AuthInfo(last.user, "", last.domain)]
  }

  /** A key is in the table exactly when some record carries it. */
  lemma {:induction false} KeyTableKeys(records: seq<ApiKey>, key: string)
    ensures key in KeyTable(records) <==> exists i :: 0 <= i < |records| && records[i].apiKey == key
    decreases |records|
  {
    if records != [] {
      var n := |records| - 1;
      KeyTableKeys(records[..n], key);
      if key in KeyTable(records[..n]) {
        var i :| 0 <= i < n && records[..n][i].apiKey == key;
        assert records[i].apiKey == key;
      }
      if exists i :: 0 <= i < |records| && records[i].apiKey == key {
        var i :| 0 <= i < |records| && records[i].apiKey == key;
        if i < n {
          assert records[..n][i].apiKey == key;
        }
      }
    }
  }

  /**
   * When keys repeat, the last record in list order wins: a record no later
   * record shares a key with is what the table holds for its key.
   */
  lemma {:induction false} KeyTableLastWins(records: seq<ApiKey>, i: int)
    requires 0 <= i < |records|
    requires forall j :: i < j < |records| ==> records[j].apiKey != records[i].apiKey
    ensures records[i].apiKey in KeyTable(records)
    ensures KeyTable(records)[records[i].apiKey] == AuthInfo(records[i].user, "", records[i].domain)
    decreases |records|
  {
    var n := |records| - 1;
    if i < n {
      forall j | i < j < n
        ensures records[..n][j].apiKey != records[..n][i].apiKey
      {
      }
      KeyTableLastWins(records[..n], i);
    }
  }

  /**
   * `NewApiKeyVerifier`: the error of reading or decoding the key list, or a
   * verifier whose table is the list's `KeyTable`. `loaded` stands for what
   * `os.ReadFile` and `yaml.Unmarshal` produced.
   */
  method NewApiKeyVerifier(loaded: Result<seq<ApiKey>>) returns (r: Result<ApiKeyVerifier>)
    ensures loaded.Failure? ==> r == Failure(loaded.error)
    ensures loaded.Success? ==> r == Success(ApiKeyVerifier(KeyTable(loaded.value)))
  {
    if loaded.Failure? {
      return Failure(loaded.error);
    }
    var apiKeys := loaded.value;
    var apiKeysMap: map<string, AuthInfo> := map[];
    for n := 0 to |apiKeys|
      invariant apiKeysMap == KeyTable(apiKeys[..n])
    {
      var ak := apiKeys[n];
      apiKeysMap := apiKeysMap[ak.apiKey := AuthInfo(ak.user, "", ak.domain)];
      assert apiKeys[..n + 1][..n] == apiKeys[..n];
    }
    assert apiKeys[..|apiKeys|] == apiKeys;
    return Success(ApiKeyVerifier(apiKeysMap));
  }

  /** `getApiKeyAuthHeader`: the credential after the only "Apikey", or "". */
  function GetApiKeyAuthHeader(authHeader: string): (token: string) {
    ExtractToken(authHeader, ApiKeyScheme)
  }

  /**
   * Whether a key bound to `domain` may be used from `remoteHost`: any host
   * when the domain is empty, a loopback address for "localhost", the domain
   * itself otherwise, and never from an address that did not split.
   */
  function DomainAllows(domain: string, remoteHost: Option<string>): bool {
    if domain == "" then true
    else
      match remoteHost
      case None => false
      case Some(host) =>
        if domain == "localhost" then host == "127.0.0.1" || host == "::1"
        else host == domain
  }

  /** The credential the API-key middleware reads from a request. */
  function RequestKey(r: Request): (key: string)
    ensures key == GetApiKeyAuthHeader(HeaderGet(r, "X-Authorization"))
  {
    GetApiKeyAuthHeader(HeaderGet(r, ApiKeyHeader))
  }

  /** What the API-key middleware does with the credential `token` read from `r`. */
  function Admit(v: ApiKeyVerifier, splitHost: HostSplitter, r: Request, token: string): Outcome {
    if token == "" then Forward(r)
    else if token in v.apiKeys && DomainAllows(v.apiKeys[token].domain, splitHost(r.remoteAddr)) then
      Forward(WithValue(r, AccessTokenKey, UserInfoValue(NewUserInfo(v.apiKeys[token].user))))
    else Respond(Unauthorized(NotAuthorized))
  }

  /** The API-key middleware's decision for one request. */
  function Decide(v: ApiKeyVerifier, splitHost: HostSplitter, r: Request): Outcome {
    Admit(v, splitHost, r, RequestKey(r))
  }

  /** `ApiKeyVerifier.AuthVerify`: the middleware in front of `next`. */
  function AuthVerify(v: ApiKeyVerifier, splitHost: HostSplitter, next: Handler): Handler {
    Wrap(r => Decide(v, splitHost, r), next)
  }

  /** "Apikey" is a scheme word: its occurrences never overlap. */
  lemma ApikeyIsSchemeWord()
    ensures IsSchemeWord(ApiKeyScheme)
  {
  }

  /**
   * `getApiKeyAuthHeader` yields "" unless "Apikey" occurs exactly once, and
   * otherwise the trimmed text after it; any result it yields is trimmed.
   */
  lemma ApiKeyHeaderSpec(authHeader: string)
    ensures Count(authHeader, ApiKeyScheme) != 1 ==> GetApiKeyAuthHeader(authHeader) == ""
    ensures Count(authHeader, ApiKeyScheme) == 1 ==>
      && Index(authHeader, ApiKeyScheme) != -1
      && GetApiKeyAuthHeader(authHeader)
         == TrimSpace(authHeader[Index(authHeader, ApiKeyScheme) + |ApiKeyScheme|..])
    ensures IsTrimmed(GetApiKeyAuthHeader(authHeader))
  {
    ApikeyIsSchemeWord();
    ExtractTokenSpec(authHeader, ApiKeyScheme);
  }

  /** Without a credential the request goes on untouched. */
  lemma NoKeyForwardsUnchanged(v: ApiKeyVerifier, splitHost: HostSplitter, r: Request)
    ensures Admit(v, splitHost, r, "") == Forward(r)
    ensures RequestKey(r) == "" ==> Decide(v, splitHost, r) == Forward(r)
  {
  }

  /** A request without an "X-Authorization" header goes on untouched. */
  lemma NoHeaderForwards(v: ApiKeyVerifier, splitHost: HostSplitter, r: Request)
    requires "X-Authorization" !in r.header
    ensures Decide(v, splitHost, r) == Forward(r)
  {
    ApiKeyHeaderSpec("");
  }

  /** An unknown key is answered with 401 "ERR: Not authorized\n". */
  lemma UnknownKeyRejected(v: ApiKeyVerifier, splitHost: HostSplitter, r: Request, token: string)
    requires token != "" && token !in v.apiKeys
    ensures Admit(v, splitHost, r, token) == Respond(Response(401, "ERR: Not authorized\n"))
  {
    NotAuthorizedAnswer();
  }

  /** The answer to a refused credential, written out. */
  lemma NotAuthorizedAnswer()
    ensures Unauthorized(NotAuthorized) == Response(401, "ERR: Not authorized\n")
  {
  }

  /**
   * A credential is refused exactly when it is not empty and either unknown
   * or not allowed from the peer's address; every refusal, whatever its
   * cause, is answered with 401 "ERR: Not authorized\n".
   */
  lemma AdmitRefusal(v: ApiKeyVerifier, splitHost: HostSplitter, r: Request, token: string)
    ensures Admit(v, splitHost, r, token).Respond? <==>
      token != "" && (token !in v.apiKeys || !DomainAllows(v.apiKeys[token].domain, splitHost(r.remoteAddr)))
    ensures Admit(v, splitHost, r, token).Respond? ==>
      Admit(v, splitHost, r, token) == Respond(Response(401, "ERR: Not authorized\n"))
  {
    NotAuthorizedAnswer();
  }

  /** A known key with an empty domain is accepted from any address. */
  lemma EmptyDomainAccepted(v: ApiKeyVerifier, splitHost: HostSplitter, r: Request, token: string)
    requires token in v.apiKeys && token != ""
    requires v.apiKeys[token].domain == ""
    ensures Admit(v, splitHost, r, token).Forward?
  {
  }

  /** A key bound to "localhost" is accepted iff the peer is a loopback address. */
  lemma LocalhostDomain(v: ApiKeyVerifier, splitHost: HostSplitter, r: Request, token: string)
    requires token in v.apiKeys && token != ""
    requires v.apiKeys[token].domain == "localhost"
    ensures Admit(v, splitHost, r, token).Forward? <==>
      splitHost(r.remoteAddr) == Some("127.0.0.1") || splitHost(r.remoteAddr) == Some("::1")
  {
  }

  /**
   * A key bound to any other domain is accepted iff the peer's host is that
   * domain; an address that does not split is always refused.
   */
  lemma OtherDomain(v: ApiKeyVerifier, splitHost: HostSplitter, r: Request, token: string)
    requires token in v.apiKeys && token != ""
    requires v.apiKeys[token].domain != "" && v.apiKeys[token].domain != "localhost"
    ensures Admit(v, splitHost, r, token).Forward? <==> splitHost(r.remoteAddr) == Some(v.apiKeys[token].domain)
    ensures splitHost(r.remoteAddr).None? ==>
      Admit(v, splitHost, r, token) == Respond(Response(401, "ERR: Not authorized\n"))
  {
    NotAuthorizedAnswer();
  }

  /**
   * An accepted key adds exactly one context entry, under
   * `ctxAuthAccessTokenKey{}`: a user record with the key's user and no
   * claims. Headers, address and every other entry stay as they were; the
   * domain is not passed on.
   */
  lemma AcceptedCarriesUser(v: ApiKeyVerifier, splitHost: HostSplitter, r: Request, token: string)
    requires token != "" && Admit(v, splitHost, r, token).Forward?
    ensures token in v.apiKeys
    ensures var out := Admit(v, splitHost, r, token).req;
      && out.header == r.header && out.remoteAddr == r.remoteAddr
      && out.ctx.Keys == r.ctx.Keys + {AccessTokenKey}
      && (forall k :: k in r.ctx && k != AccessTokenKey ==> out.ctx[k] == r.ctx[k])
      && out.ctx[AccessTokenKey].UserInfoValue?
      && out.ctx[AccessTokenKey].user.username == v.apiKeys[token].user
      && out.ctx[AccessTokenKey].user.claims == map[]
  {
  }
}
