/**
 * The JWT verifier. Construction optionally extends the trust store with a
 * CA certificate, fetches the key set once, and binds the first key whose
 * key id is the issuer. Each request's bearer token is then checked by
 * `jwt.Parse` against that key, the issuer and the audience, and a verified
 * token is stored under the string key "access_token".
 */
module JwtAuth {
  import opened Wrappers
  import opened User
  import opened Http
  import OryAuth

  const CaAppendError: string := "Unable to add cert to trust CA"
  const NoVerifyKey: string := "Unable to load signature verification key"

  /** A raw verification key, as `key.Raw` extracts it. */
  datatype RawKey = RawKey(material: seq<int>)

  /** A JSON Web Key: its key id and what extracting its raw key gives. */
  datatype Jwk = Jwk(keyId: string, raw: Result<RawKey>)

  /** An entry of the fetched key set: a key, or something that is not one. */
  datatype SetEntry = KeyEntry(key: Jwk) | NonKeyEntry

  /** The HTTP client the key set is fetched with. */
  datatype FetchClient = DefaultClient | TrustingCA(caPem: string)

  /** `jwk.Fetch(ctx, url, client)`: the key set's entries in iteration order, or an error. */
  type Fetcher = (FetchClient, string) -> Result<seq<SetEntry>>

  /**
   * `jwt.Parse(token, RS256 key, issuer, audience)` with validation on: the
   * verified token, or the reason it was refused.
   */
  type JwtParser = (string, RawKey, string, string) -> Result<JwtToken>

  /** `JwtAuther`: issuer, client id, key-set URL and the bound verification key. */
  datatype JwtAuther = JwtAuther(issuer: string, clientId: string, jwksUrl: string, verifyKey: RawKey)

  /** The entry is a key whose key id is `issuer`. */
  predicate MatchesIssuer(e: SetEntry, issuer: string) {
    e.KeyEntry? && e.key.keyId == issuer
  }

  /**
   * The key the constructor binds: the raw key of the first entry that is a
   * key with key id `issuer` (or the error extracting it), and an error when
   * there is no such entry.
   */
  function SelectVerifyKey(entries: seq<SetEntry>, issuer: string): Result<RawKey>
    decreases |entries|
  {
    if entries == [] then Failure(NoVerifyKey)
    else if MatchesIssuer(entries[0], issuer) then entries[0].key.raw
    else SelectVerifyKey(entries[1..], issuer)
  }

  /** The trust store is ready: no CA given, or the pool loaded and took the CA. */
  predicate TrustReady(jwksUrlCert: string, poolError: Option<string>, appendCerts: string -> bool) {
    jwksUrlCert == "" || (poolError.None? && appendCerts(jwksUrlCert))
  }

  /** The client the key set is fetched with: one trusting the CA when one is given. */
  function ClientFor(jwksUrlCert: string): FetchClient {
    if jwksUrlCert == "" then DefaultClient else TrustingCA(jwksUrlCert)
  }

  /**
   * `NewJwtAuther`. `poolError` is `x509.SystemCertPool`'s error,
   * `appendCerts` is `AppendCertsFromPEM` and `fetch` is `jwk.Fetch`; the
   * unused `signVerifyKeyPem` is kept for the signature's sake. A CA that
   * cannot be added fails before any key set is fetched; otherwise the
   * result is the fetch error, the key-selection error, or an auther that
   * stores the issuer, client id and URL unchanged with the selected key.
   */
  method NewJwtAuther(
    issuer: string, clientId: string, jwksUrl: string, jwksUrlCert: string, signVerifyKeyPem: string,
    poolError: Option<string>, appendCerts: string -> bool, fetch: Fetcher)
    returns (r: Result<JwtAuther>)
    ensures jwksUrlCert != "" && poolError.Some? ==> r == Failure(poolError.value)
    ensures jwksUrlCert != "" && poolError.None? && !appendCerts(jwksUrlCert) ==> r == Failure(CaAppendError)
    ensures TrustReady(jwksUrlCert, poolError, appendCerts) ==>
      var fetched := fetch(ClientFor(jwksUrlCert), jwksUrl);
      if fetched.Failure? then r == Failure(fetched.error)
      else
        var key := SelectVerifyKey(fetched.value, issuer);
        if key.Failure? then r == Failure(key.error)
        else r == Success(JwtAuther(issuer, clientId, jwksUrl, key.value))
    ensures r.Success? ==> r.value.issuer == issuer && r.value.clientId == clientId && r.value.jwksUrl == jwksUrl
  {
    var fetched: Result<seq<SetEntry>>;
    if jwksUrlCert != "" {
      if poolError.Some? {
        return Failure(poolError.value);
      }
      if !appendCerts(jwksUrlCert) {
        return Failure(CaAppendError);
      }
      fetched := fetch(TrustingCA(jwksUrlCert), jwksUrl);
    } else {
      fetched := fetch(DefaultClient, jwksUrl);
    }
    if fetched.Failure? {
      return Failure(fetched.error);
    }
    var entries := fetched.value;

    var keyLoaded := false;
    var verifyKey := RawKey([]);
    var i := 0;
    while i < |entries|
      invariant 0 <= i <= |entries|
      invariant SelectVerifyKey(entries[i..], issuer) == SelectVerifyKey(entries, issuer)
      invariant !keyLoaded
    {
      var entry := entries[i];
      if entry.NonKeyEntry? {
        i := i + 1;
        continue;
      }
      if entry.key.keyId == issuer {
        if entry.key.raw.Failure? {
          return Failure(entry.key.raw.error);
        }
        verifyKey := entry.key.raw.value;
        keyLoaded := true;
        break;
      }
      i := i + 1;
    }

    if !keyLoaded {
      return Failure(NoVerifyKey);
    }
    return Success(JwtAuther(issuer, clientId, jwksUrl, verifyKey));
  }

  /**
   * The first matching key decides: entries before it do not match, and
   * whatever follows it, a later match included, is never looked at.
   */
  lemma {:induction false} SelectFirstMatch(entries: seq<SetEntry>, issuer: string, i: int)
    requires 0 <= i < |entries| && MatchesIssuer(entries[i], issuer)
    requires forall j :: 0 <= j < i ==> !MatchesIssuer(entries[j], issuer)
    ensures SelectVerifyKey(entries, issuer) == entries[i].key.raw
    decreases i
  {
    if i > 0 {
      SelectFirstMatch(entries[1..], issuer, i - 1);
    }
  }

  /** Without a key whose id is the issuer, construction fails with NoVerifyKey. */
  lemma {:induction false} SelectNoMatch(entries: seq<SetEntry>, issuer: string)
    requires forall j :: 0 <= j < |entries| ==> !MatchesIssuer(entries[j], issuer)
    ensures SelectVerifyKey(entries, issuer) == Failure(NoVerifyKey)
    decreases |entries|
  {
    if entries != [] {
      SelectNoMatch(entries[1..], issuer);
    }
  }

  /**
   * Entries after a match are never examined: appending entries, even a
   * second matching key with a good raw key, changes nothing. In particular
   * a first match whose raw key fails is not made good by a later one.
   */
  lemma {:induction false} SelectIgnoresLater(entries: seq<SetEntry>, more: seq<SetEntry>, issuer: string, i: int)
    requires 0 <= i < |entries| && MatchesIssuer(entries[i], issuer)
    ensures SelectVerifyKey(entries + more, issuer) == SelectVerifyKey(entries, issuer)
    decreases |entries|
  {
    if !MatchesIssuer(entries[0], issuer) {
      assert (entries + more)[1..] == entries[1..] + more;
      SelectIgnoresLater(entries[1..], more, issuer, i - 1);
    }
  }

  /** A set entry that is not a key is skipped, wherever it stands. */
  lemma {:induction false} SelectSkipsNonKeys(entries: seq<SetEntry>, k: int, issuer: string)
    requires 0 <= k <= |entries|
    ensures SelectVerifyKey(entries[..k] + [NonKeyEntry] + entries[k..], issuer) == SelectVerifyKey(entries, issuer)
    decreases k
  {
    var withGap := entries[..k] + [NonKeyEntry] + entries[k..];
    if k == 0 {
      assert withGap[1..] == entries;
    } else {
      assert withGap[0] == entries[0];
      assert withGap[1..] == entries[1..][..k - 1] + [NonKeyEntry] + entries[1..][k - 1..];
      SelectSkipsNonKeys(entries[1..], k - 1, issuer);
    }
  }

  /** `JwtAuther.validateAuthToken`: the empty check, then `jwt.Parse`. */
  function ValidateAuthToken(a: JwtAuther, parse: JwtParser, authToken: string): Result<JwtToken> {
    if authToken == "" then Failure(OryAuth.EmptyToken)
    else parse(authToken, a.verifyKey, a.issuer, a.clientId)
  }

  /**
   * An empty token fails with "Empty auth token" whatever the parser; any
   * other token is judged by the parser against the bound key, the
   * configured issuer and the client id as audience.
   */
  lemma ValidateSpec(a: JwtAuther, parse: JwtParser, other: JwtParser, authToken: string)
    ensures ValidateAuthToken(a, parse, "") == Failure("Empty auth token")
    ensures ValidateAuthToken(a, parse, "") == ValidateAuthToken(a, other, "")
    ensures authToken != "" ==>
      ValidateAuthToken(a, parse, authToken) == parse(authToken, a.verifyKey, a.issuer, a.clientId)
  {
  }

  /** The JWT middleware's decision for one request. */
  function Decide(a: JwtAuther, parse: JwtParser, r: Request): Outcome {
    var authToken := OryAuth.RequestToken(r);
    if authToken == "" then Forward(r)
    else
      match ValidateAuthToken(a, parse, authToken)
      case Success(token) => Forward(WithValue(r, StrKey(AuthUserContextKey), TokenValue(token)))
      case Failure(e) => Respond(Unauthorized(e))
  }

  /** `JwtAuther.AuthVerify`: the middleware in front of `next`. */
  function AuthVerify(a: JwtAuther, parse: JwtParser, next: Handler): Handler {
    Wrap(r => Decide(a, parse, r), next)
  }

  /** A request without an "Authorization" header goes on untouched. */
  lemma NoHeaderForwards(a: JwtAuther, parse: JwtParser, r: Request)
    requires "Authorization" !in r.header
    ensures Decide(a, parse, r) == Forward(r)
  {
    OryAuth.BearerEmptyHeader();
  }

  /**
   * The middleware: no bearer token forwards the request untouched; a token
   * the parser accepts forwards it with the token under "access_token" and
   * nothing else changed; a refused one answers 401 "ERR: <message>\n".
   */
  lemma MiddlewareOutcomes(a: JwtAuther, parse: JwtParser, r: Request)
    ensures OryAuth.RequestToken(r) == "" ==> Decide(a, parse, r) == Forward(r)
    ensures OryAuth.RequestToken(r) != "" ==>
      match ValidateAuthToken(a, parse, OryAuth.RequestToken(r))
      case Success(token) =>
        var out := Decide(a, parse, r);
        && out.Forward?
        && out.req.header == r.header && out.req.remoteAddr == r.remoteAddr
        && out.req.ctx == r.ctx[StrKey("access_token") := TokenValue(token)]
      case Failure(e) =>
        Decide(a, parse, r) == Respond(Response(401, "ERR: " + e + "\n"))
  {
  }
}
