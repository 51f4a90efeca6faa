# Request authentication middleware, modelled in Dafny

This project models `middleware/auth` of go-servicepack. The package holds
the HTTP middleware that authenticates incoming requests before they reach
an application handler. It has four verification strategies behind one
`AuthVerifier` interface:

- **no-op**: hands the next handler back unchanged;
- **API key**: reads `X-Authorization: Apikey <key>`, looks the key up in a
  table loaded at start-up, and checks the peer's host when the key is bound
  to a domain;
- **introspection**: reads `Authorization: Bearer <token>` and asks an
  OAuth2 introspection endpoint whether the token is active and was issued
  for the configured client;
- **JWT**: reads the same bearer token and verifies it locally, against a
  key selected at start-up from a JWKS document by key id.

A separate **enforcement** stage, when switched on, refuses every request
whose context yields `nil` for the package's private key
`ctxAuthAccessTokenKey{}`.

Each Go file becomes one Dafny module:

| module | file | models |
|---|---|---|
| `GoStrings` | `go_strings.dfy` | `strings.Index`, `strings.Split` and `strings.TrimSpace`, with occurrence counting |
| `Credentials` | `credentials.dfy` | the shared shape of `getApiKeyAuthHeader` and `getBearerAuthHeader` |
| `User` | `user.dfy` | `user.go`: `UserInfo`, claim values, the "access_token" key; also `AuthInfo`, declared in `apikeysauth.go` |
| `Http` | `http.dfy` | requests, context keys and values, responses, handlers, and a stage that forwards or answers |
| `ApiKeyAuth` | `apikeysauth.dfy` | `apikeysauth.go` |
| `OryAuth` | `oryauth.dfy` | `oryauth.go` |
| `JwtAuth` | `jwtauth.dfy` | `jwtauth.go` |
| `EnforceAuth` | `enforceauth.dfy` | `enforceauth.go` |
| `NoopAuth` | `noopauth.dfy` | `noopauth.go`: the interface, dispatched over the four strategies |
| `Pipeline` | `pipeline.dfy` | a verifier placed in front of the enforcement stage |

How the Go code is represented:

- A handler is a function from request to response.
- A middleware stage is a function from a request to an `Outcome`: either
  forward a request, possibly enriched, to `next`, or answer it alone.
- The API-key decision is split in two steps. `RequestKey` reads the
  credential from the header, and `Admit` decides on that credential.
  `Decide` is the two steps composed, and the decision lemmas hold for any
  credential.
- `context.WithValue` is a map update. `Context().Value(key)` gives the
  stored value, or Go's `nil` for a key the context does not hold. `nil` is
  the value `OtherValue(JNull)`, so a `nil` stored under a key reads the same
  as a missing key.
- `ctxAuthAccessTokenKey{}` is a key constructor distinct from every string
  key, as Go's typed context keys are.
- All verifier state is fixed at construction and never updated. The
  verifiers are therefore immutable datatypes rather than classes.
- The two loops the source runs are imperative methods with loop
  invariants, each proved against a specification function:
  - the key-table construction in `NewApiKeyVerifier`;
  - the JWKS key scan in `NewJwtAuther`.

Library and I/O calls are parameters of the model:

- `net.SplitHostPort` is a host splitter;
- the introspection `POST` and its JSON decoding form one introspector;
- `jwt.Parse` is a parser;
- `jwk.Fetch` is a fetcher;
- `x509.SystemCertPool`'s error and `AppendCertsFromPEM` are inputs of
  `NewJwtAuther`;
- reading and unmarshalling the API-key file is the `Result` that
  `NewApiKeyVerifier` receives.

The main cross-module result is in `Pipeline`. Each verifier stores its
identity under a different context key:

- the API-key verifier uses `ctxAuthAccessTokenKey{}`;
- the JWT verifier uses the string "access_token";
- the introspection verifier uses the string "AuthInfo".

The enforcement stage reads only `ctxAuthAccessTokenKey{}`. As a result,
under enforcement a request authenticated by a valid JWT or by an active
introspected token is still refused with an empty 401. Only API-key
identities get through.

## Model

| member | source | states |
|---|---|---|
| `GoStrings.IndexFrom` | middleware/auth/apikeysauth.go:108 | the search from a position yields -1 or an occurrence at or after it, and no occurrence lies between the start and the result |
| `GoStrings.Index` | middleware/auth/apikeysauth.go:108 | `strings.Index`: -1 when the separator does not occur, otherwise the first position where it occurs |
| `GoStrings.Split` | middleware/auth/apikeysauth.go:108 | `strings.Split` with a non-empty separator always yields at least one part |
| `GoStrings.SplitCount` | middleware/auth/apikeysauth.go:108-111 | for a separator whose first character does not recur in it, `Split` yields exactly one part more than the separator has occurrences, so "two parts" means "exactly one occurrence" |
| `GoStrings.SplitSecondPart` | middleware/auth/apikeysauth.go:108-113 | with exactly one occurrence, the split has two parts and the second is everything after that occurrence |
| `GoStrings.TwoOccurrences` | middleware/auth/apikeysauth.go:108-111 | two distinct occurrences make the count at least two |
| `GoStrings.TrimLeft` | middleware/auth/apikeysauth.go:113 | the result is a suffix of the input, everything cut is white space, and it starts with a non-space or is empty |
| `GoStrings.TrimRight` | middleware/auth/apikeysauth.go:113 | the result is a prefix of the input, everything cut is white space, and it ends with a non-space or is empty |
| `GoStrings.TrimSpace` | middleware/auth/apikeysauth.go:113 | `strings.TrimSpace`: the result is trimmed at both ends; it is empty exactly when the input is all white space; a trimmed input is returned unchanged |
| `GoStrings.TrimSpaceIsSlice` | middleware/auth/apikeysauth.go:113 | `strings.TrimSpace` cuts only the ends: its result is the slice `s[i..j]`, and everything before `i` and from `j` on is white space |
| `GoStrings.TrimSpaceSkipsLeadingSpace` | middleware/auth/apikeysauth.go:113 | leading white space does not change the trimmed result |
| `Credentials.ExtractToken` | middleware/auth/apikeysauth.go:103-119 | the extracted credential is always trimmed, so it never starts or ends with white space |
| `Credentials.ExtractTokenSpec` | middleware/auth/apikeysauth.go:103-119 | the credential is "" unless the scheme word occurs exactly once; otherwise it is the trimmed text after that occurrence |
| `Credentials.TwiceYieldsNothing` | middleware/auth/oryauth.go:108-111 | a header in which the scheme word occurs twice yields no credential |
| `Credentials.SchemeThenTokenOnce` | middleware/auth/apikeysauth.go:108-109 | in "<scheme> <token>", for a token that does not contain the scheme, the scheme occurs exactly once, at position 0 |
| `Credentials.ExtractAfterLeadingScheme` | middleware/auth/apikeysauth.go:108-118 | a header that starts with the scheme and contains it nowhere else yields the trimmed rest |
| `Credentials.ExtractTokenRoundTrip` | middleware/auth/apikeysauth.go:103-119 | round trip: "<scheme> <token>" yields `token` back for every non-empty trimmed token that does not contain the scheme |
| `User.NewUserInfo` | middleware/auth/user.go:14-20 | the user record carries the given name and an empty claim set |
| `ApiKeyAuth.KeyTableKeys` | middleware/auth/apikeysauth.go:43-49 | a key is in the table exactly when some record of the list carries it |
| `ApiKeyAuth.KeyTableLastWins` | middleware/auth/apikeysauth.go:44-48 | for a duplicated key, the table holds the last record's user and domain, with no client id |
| `ApiKeyAuth.NewApiKeyVerifier` | middleware/auth/apikeysauth.go:31-56 | a load error is returned as it is; otherwise the verifier's table is the list entered in order (the loop's invariant) |
| `ApiKeyAuth.ApikeyIsSchemeWord` | middleware/auth/apikeysauth.go:108 | occurrences of "Apikey" never overlap; `ApiKeyAuth.ApiKeyHeaderSpec` uses it to apply the count lemmas |
| `ApiKeyAuth.ApiKeyHeaderSpec` | middleware/auth/apikeysauth.go:103-119 | `getApiKeyAuthHeader` yields "" unless "Apikey" occurs exactly once, and otherwise the trimmed text after it |
| `ApiKeyAuth.NoKeyForwardsUnchanged` | middleware/auth/apikeysauth.go:60-61 | without an API-key credential the request is forwarded untouched |
| `ApiKeyAuth.NoHeaderForwards` | middleware/auth/apikeysauth.go:60-61 | a request with no "X-Authorization" header at all is forwarded untouched |
| `ApiKeyAuth.UnknownKeyRejected` | middleware/auth/apikeysauth.go:64-96 | an unknown key is answered with status 401 and body "ERR: Not authorized\n" |
| `ApiKeyAuth.AdmitRefusal` | middleware/auth/apikeysauth.go:61-96 | a credential is refused exactly when it is non-empty and unknown or not allowed from the peer's address (including a host that splits but does not match), and every refusal is 401 "ERR: Not authorized\n" |
| `ApiKeyAuth.NotAuthorizedAnswer` | middleware/auth/apikeysauth.go:91-94 | the refusal answer is status 401 with body "ERR: Not authorized\n" |
| `ApiKeyAuth.RequestKey` | middleware/auth/apikeysauth.go:60 | the API key is read from the "X-Authorization" header through `getApiKeyAuthHeader` |
| `ApiKeyAuth.EmptyDomainAccepted` | middleware/auth/apikeysauth.go:66-87 | a known key without a domain is accepted from any address |
| `ApiKeyAuth.LocalhostDomain` | middleware/auth/apikeysauth.go:68-74 | a key bound to "localhost" is accepted if and only if the peer host is 127.0.0.1 or ::1 |
| `ApiKeyAuth.OtherDomain` | middleware/auth/apikeysauth.go:68-78 | a key bound to another domain is accepted if and only if the peer host equals it; an address that does not split is refused with 401 |
| `ApiKeyAuth.AcceptedCarriesUser` | middleware/auth/apikeysauth.go:83-87 | acceptance adds exactly one entry, under `ctxAuthAccessTokenKey{}`: the key's user with no claims; headers, address and other entries are kept |
| `OryAuth.NewAuther` | middleware/auth/oryauth.go:19-25 | the auther keeps the introspection URL and the client id it was given |
| `OryAuth.BearerIsSchemeWord` | middleware/auth/oryauth.go:108 | occurrences of "Bearer" never overlap; `OryAuth.BearerHeaderSpec` uses it to apply the count lemmas |
| `OryAuth.BearerEmptyHeader` | middleware/auth/oryauth.go:104-106 | an empty Authorization header yields no token |
| `OryAuth.BearerHeaderSpec` | middleware/auth/oryauth.go:103-119 | `getBearerAuthHeader` yields "" unless "Bearer" occurs exactly once, and otherwise the trimmed text after it |
| `OryAuth.BearerRoundTrip` | middleware/auth/oryauth.go:101-119 | "Bearer <token>" yields the token back when it is non-empty, trimmed and free of "Bearer" |
| `OryAuth.BearerInsideToken` | middleware/auth/oryauth.go:108-111 | a token that itself contains "Bearer" is lost: "Bearer abcBearer" yields "" |
| `OryAuth.EmptyTokenNoCall` | middleware/auth/oryauth.go:50-52 | an empty token fails with "Empty auth token", whatever the endpoint would reply |
| `OryAuth.ValidateCallsEndpoint` | middleware/auth/oryauth.go:54-68 | a non-empty token is sent to the configured `introspectUrl`; a `PostForm` or decoding error is returned unchanged, and a decoded reply is judged by `CheckIntrospection` alone |
| `OryAuth.RequestToken` | middleware/auth/oryauth.go:29 | the bearer token is read from the "Authorization" header through `getBearerAuthHeader` (the JWT middleware reads it the same way, `jwtauth.go:111`) |
| `Http.Unauthorized` | middleware/auth/oryauth.go:37-38 | a failure is answered with status 401 and body "ERR: " + message + "\n", from which the message can be read back (also `apikeysauth.go:93-94`, `jwtauth.go:119-120`) |
| `Http.HeaderGet` | middleware/auth/apikeysauth.go:60 | `r.Header.Get`: the header's value, and "" when the request has no such header (also `oryauth.go:29`, `jwtauth.go:111`) |
| `Http.ContextValue` | middleware/auth/enforceauth.go:22 | `r.Context().Value(key)`: the stored value, and `nil` for a key the context does not hold |
| `Http.WithValue` | middleware/auth/apikeysauth.go:85-86 | `context.WithValue` plus `r.WithContext`: headers and address are kept, the context yields the new value for the key and its old value for every other key (also `oryauth.go:33-34`, `jwtauth.go:115-116`) |
| `Http.Serve` | middleware/auth/apikeysauth.go:90-100 | a stage either answers on its own, and `next` is not consulted, or hands its forwarded request to `next.ServeHTTP` |
| `Http.WrapApply` | middleware/auth/apikeysauth.go:59 | `http.HandlerFunc` around a stage answers each request with the stage's outcome served in front of `next` |
| `OryAuth.ActiveChecks` | middleware/auth/oryauth.go:71-81 | a missing or non-boolean `active` gives "Invalid auth token"; `active` false gives "Expired auth token" |
| `OryAuth.SubCheck` | middleware/auth/oryauth.go:83-86 | with `active` true, the reply is accepted if and only if `sub` is the client id, and is otherwise refused with "Invalid token" |
| `OryAuth.AcceptedReply` | middleware/auth/oryauth.go:71-98 | a reply is accepted if and only if it is active and its `sub` is the client id; the identity then takes `username` and `client_id` when they are strings, "" otherwise, and no domain |
| `OryAuth.MiddlewareOutcomes` | middleware/auth/oryauth.go:27-45 | no token forwards untouched; a verified token forwards with the identity under "AuthInfo" and nothing else changed; a failure answers 401 "ERR: <message>\n" |
| `OryAuth.NoHeaderForwards` | middleware/auth/oryauth.go:29-30 | a request with no "Authorization" header at all is forwarded untouched by the introspection middleware |
| `JwtAuth.NewJwtAuther` | middleware/auth/jwtauth.go:26-107 | CA errors come before any fetch; then the result is the fetch error, the key-selection result (whose loop invariant ties it to `SelectVerifyKey`), or an auther that keeps issuer, client id and URL |
| `JwtAuth.SelectFirstMatch` | middleware/auth/jwtauth.go:65-87 | the first key whose id is the issuer decides, and its raw key or raw-key error is the result |
| `JwtAuth.SelectNoMatch` | middleware/auth/jwtauth.go:89-91 | without a key whose id is the issuer, the result is "Unable to load signature verification key" |
| `JwtAuth.SelectIgnoresLater` | middleware/auth/jwtauth.go:78-85 | entries after the first match are never examined, so a later good key does not rescue a failing first match |
| `JwtAuth.SelectSkipsNonKeys` | middleware/auth/jwtauth.go:72-76 | a set entry that is not a key is skipped, wherever it stands |
| `JwtAuth.ValidateSpec` | middleware/auth/jwtauth.go:129-144 | an empty token fails with "Empty auth token" whatever the parser; any other token is judged by the parser against the stored key, the issuer and the client id as audience |
| `JwtAuth.MiddlewareOutcomes` | middleware/auth/jwtauth.go:109-127 | no token forwards untouched; an accepted token forwards with the parsed token under "access_token" and nothing else changed; a failure answers 401 "ERR: <message>\n" |
| `JwtAuth.NoHeaderForwards` | middleware/auth/jwtauth.go:111-112 | a request with no "Authorization" header at all is forwarded untouched by the JWT middleware |
| `EnforceAuth.NewEnforceAuther` | middleware/auth/enforceauth.go:12-17 | the stage keeps the flag it was given |
| `EnforceAuth.GateSpec` | middleware/auth/enforceauth.go:19-33 | a request passes unchanged if and only if enforcement is off or its context holds a non-nil value under `ctxAuthAccessTokenKey{}`; otherwise the answer is 401 with an empty body and `next` is not run |
| `EnforceAuth.NilIdentityRejected` | middleware/auth/enforceauth.go:22-25 | a `nil` stored under `ctxAuthAccessTokenKey{}` is refused with an empty 401, as a missing entry is |
| `EnforceAuth.DisabledPassesAll` | middleware/auth/enforceauth.go:21-31 | with enforcement off every request reaches `next` as it is |
| `EnforceAuth.StringKeysIgnored` | middleware/auth/enforceauth.go:22 | entries under string keys neither satisfy nor disturb the gate |
| `NoopAuth.AuthVerifyRunsStage` | middleware/auth/noopauth.go:5-7 | every strategy's handler runs its decision in front of `next`, a refusal is answered without `next`, and each strategy's decision is that of the verifier it stands for (`ApiKeyAuth.Decide`, `JwtAuth.Decide`, `OryAuth.Decide`) |
| `NoopAuth.NoopIsIdentity` | middleware/auth/noopauth.go:11-17 | the no-op verifier returns `next` itself and forwards every request untouched |
| `Pipeline.ChainSteps` | middleware/auth/enforceauth.go:19-33 | verifier then gate: the verifier's refusal is the answer; otherwise the gate decides on the forwarded request |
| `Pipeline.EnforcementOffTransparent` | middleware/auth/enforceauth.go:21-31 | with enforcement off the chain answers what the verifier alone answers |
| `Pipeline.NoopEnforcedRejects` | middleware/auth/noopauth.go:15-17 | no-op verification under enforcement refuses with an empty 401 every request whose context yields `nil` for the struct key |
| `Pipeline.ApiKeyIdentityPasses` | middleware/auth/apikeysauth.go:83-87 | an accepted API key reaches `next` under enforcement, with a non-nil identity under the key the gate checks |
| `Pipeline.JwtIdentityRejected` | middleware/auth/jwtauth.go:114-116 | a JWT the parser accepts is still refused under enforcement with an empty 401, because it is stored under "access_token": the gate refuses the request the JWT middleware forwards, and so does the whole chain |
| `Pipeline.IntrospectionIdentityRejected` | middleware/auth/oryauth.go:32-34 | an active introspected token is still refused under enforcement with an empty 401, because it is stored under "AuthInfo": the gate refuses the request the introspection middleware forwards, and so does the whole chain |
| `Pipeline.EnforcedChainNeedsStructKey` | middleware/auth/enforceauth.go:21-25 | under enforcement, a forwarded request whose context yields `nil` for the struct key never reaches `next` |
| `Pipeline.BearerVerifiersKeepStructKey` | middleware/auth/jwtauth.go:115 | the no-op, JWT and introspection verifiers leave the value under the struct key exactly as it was |
| `ApiKeyAuth.KeyTable` | middleware/auth/apikeysauth.go:43-49 | the key table built from the records; no contract of its own, characterised by `ApiKeyAuth.KeyTableKeys` and `ApiKeyAuth.KeyTableLastWins` |
| `ApiKeyAuth.GetApiKeyAuthHeader` | middleware/auth/apikeysauth.go:103-119 | `getApiKeyAuthHeader`; no contract of its own, characterised by `ApiKeyAuth.ApiKeyHeaderSpec` |
| `ApiKeyAuth.DomainAllows` | middleware/auth/apikeysauth.go:66-82 | the domain check; no contract of its own, characterised by `ApiKeyAuth.EmptyDomainAccepted`, `ApiKeyAuth.LocalhostDomain` and `ApiKeyAuth.OtherDomain` |
| `ApiKeyAuth.Admit` | middleware/auth/apikeysauth.go:61-97 | the decision on an extracted key; no contract of its own, characterised by `ApiKeyAuth.AdmitRefusal`, `ApiKeyAuth.NoKeyForwardsUnchanged`, `ApiKeyAuth.UnknownKeyRejected`, the three domain lemmas and `ApiKeyAuth.AcceptedCarriesUser` |
| `ApiKeyAuth.Decide` | middleware/auth/apikeysauth.go:58-101 | header extraction then `Admit`; no contract of its own, characterised by `ApiKeyAuth.NoKeyForwardsUnchanged` and the lemmas on `Admit` |
| `ApiKeyAuth.AuthVerify` | middleware/auth/apikeysauth.go:58-101 | the middleware handler; no contract of its own, characterised by `NoopAuth.AuthVerifyRunsStage` |
| `OryAuth.GetBearerAuthHeader` | middleware/auth/oryauth.go:103-119 | `getBearerAuthHeader`; no contract of its own, characterised by `OryAuth.BearerHeaderSpec` and `OryAuth.BearerRoundTrip` |
| `OryAuth.CheckIntrospection` | middleware/auth/oryauth.go:71-98 | the checks on the decoded reply; no contract of its own, characterised by `OryAuth.ActiveChecks`, `OryAuth.SubCheck` and `OryAuth.AcceptedReply` |
| `OryAuth.ValidateAuthToken` | middleware/auth/oryauth.go:47-99 | `validateAuthToken`; no contract of its own, characterised by `OryAuth.EmptyTokenNoCall` (empty token) and `OryAuth.ValidateCallsEndpoint` (the call and its error path), with `OryAuth.CheckIntrospection` pinned by `OryAuth.ActiveChecks`, `OryAuth.SubCheck` and `OryAuth.AcceptedReply` |
| `OryAuth.Decide` | middleware/auth/oryauth.go:28-44 | the introspection decision; no contract of its own, characterised by `OryAuth.MiddlewareOutcomes` |
| `OryAuth.AuthVerify` | middleware/auth/oryauth.go:27-45 | the middleware handler; no contract of its own, characterised by `NoopAuth.AuthVerifyRunsStage` |
| `JwtAuth.SelectVerifyKey` | middleware/auth/jwtauth.go:65-91 | the key scan as a function; no contract of its own, characterised by `JwtAuth.SelectFirstMatch`, `JwtAuth.SelectNoMatch`, `JwtAuth.SelectIgnoresLater` and `JwtAuth.SelectSkipsNonKeys` |
| `JwtAuth.ValidateAuthToken` | middleware/auth/jwtauth.go:129-153 | `validateAuthToken`; no contract of its own, characterised by `JwtAuth.ValidateSpec` |
| `JwtAuth.Decide` | middleware/auth/jwtauth.go:110-126 | the JWT decision; no contract of its own, characterised by `JwtAuth.MiddlewareOutcomes` |
| `JwtAuth.AuthVerify` | middleware/auth/jwtauth.go:109-127 | the middleware handler; no contract of its own, characterised by `NoopAuth.AuthVerifyRunsStage` |
| `EnforceAuth.Decide` | middleware/auth/enforceauth.go:21-31 | the gate's decision; no contract of its own, characterised by `EnforceAuth.GateSpec` and `EnforceAuth.NilIdentityRejected` |
| `EnforceAuth.EnforceAuth` | middleware/auth/enforceauth.go:19-33 | the gate in front of `next`; no contract of its own, characterised by `EnforceAuth.GateSpec` and `EnforceAuth.DisabledPassesAll` |
| `NoopAuth.NewNoopVerifier` | middleware/auth/noopauth.go:11-13 | the no-op verifier; no contract of its own, characterised by `NoopAuth.NoopIsIdentity` |
| `NoopAuth.AuthVerify` | middleware/auth/noopauth.go:5-17 | `AuthVerify` dispatched on the strategy; no contract of its own, characterised by `NoopAuth.AuthVerifyRunsStage` and `NoopAuth.NoopIsIdentity` |

## Left out

- Logging (`log.Printf`, `log.Print`, `log.Println`) is left out; it has no effect on the responses.
- The API-key file is not read and its YAML is not parsed. `NewApiKeyVerifier` receives the outcome of both as a `Result`.
- The `Origin` header read at apikeysauth.go:62 is only logged, so it is not modelled.
- `net.SplitHostPort` is a parameter. Only its host part and its failure are used.
- The introspection endpoint is a parameter covering `http.PostForm` and the JSON decoding. Both of their errors come back as `Failure(message)`.
- JSON numbers are `real`. No decoding precision is modelled.
- `jwt.Parse` is a parameter. RS256 signatures and the validation of expiry, issuer and audience are not modelled.
- `jwk.Fetch`, `key.Raw`, `x509.SystemCertPool`, `AppendCertsFromPEM` and the TLS client are parameters or plain inputs. The model only records which client the fetch uses.
- JwtAuth.ValidateAuthToken: the `json.MarshalIndent` failure at jwtauth.go:146-149 is not modelled. When marshalling the parsed token fails, the source returns that error and the middleware answers 401 "ERR: <error>\n". The model treats every parsed token as marshallable, because encoding a token that `jwt.Parse` has just decoded and validated fails only on internal errors of the JSON library, which lie outside this package. The marshalled text itself is only logged.
- The unused `signVerifyKeyPem` argument and the commented-out RSA code are not modelled.
- Headers are one value per name (`Header.Get` returns the first value). Repeated header lines are not modelled.
- Strings are sequences of code points. Go works on UTF-8 bytes, so invalid UTF-8 is not modelled.
- `strings.Split` is modelled for non-empty separators only, which are the only kind the source uses.
- Side effects of `next`, writing the response in several calls, and concurrent requests are not modelled.
- The Go `AuthVerifier` interface is a datatype of its four implementations. Implementations from outside the package are not modelled.
- The declaration of `ctxAuthAccessTokenKey` is not part of this model. It is taken to be an unexported struct type, which no string key equals.
- `logger/logger.go` and the files under `telemetry/` are not part of this model.
