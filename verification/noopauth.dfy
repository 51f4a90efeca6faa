/**
 * The `AuthVerifier` interface — one operation, `AuthVerify(next)`, that
 * wraps a handler — with its four implementations as the variants of one
 * datatype, and the no-op verifier, which hands `next` back as it is.
 */
module NoopAuth {
  import opened Http
  import ApiKeyAuth
  import OryAuth
  import JwtAuth

  /** The verification strategy chosen at start-up, with its trust material. */
  datatype AuthVerifier =
    | NoopVerifier
    | ApiKeyStrategy(apiKeys: ApiKeyAuth.ApiKeyVerifier)
    | JwtStrategy(jwt: JwtAuth.JwtAuther)
    | IntrospectionStrategy(auther: OryAuth.Auther)

  /**
   * What the strategies consult outside themselves: host/port splitting,
   * the introspection endpoint and the JWT parser.
   */
  datatype Env = Env(
    splitHost: ApiKeyAuth.HostSplitter,
    introspect: OryAuth.Introspector,
    parse: JwtAuth.JwtParser)

  /** `NewNoopVerifier`. */
  function NewNoopVerifier(): AuthVerifier {
    NoopVerifier
  }

  /** `AuthVerify(next)`, dispatched on the strategy. */
  function AuthVerify(v: AuthVerifier, env: Env, next: Handler): Handler {
    match v
    case NoopVerifier => next
    case ApiKeyStrategy(k) => ApiKeyAuth.AuthVerify(k, env.splitHost, next)
    case JwtStrategy(a) => JwtAuth.AuthVerify(a, env.parse, next)
    case IntrospectionStrategy(a) => OryAuth.AuthVerify(a, env.introspect, next)
  }

  /** The decision a strategy takes for one request; the no-op one always forwards it. */
  function Stage(v: AuthVerifier, env: Env, r: Request): Outcome {
    match v
    case NoopVerifier => Forward(r)
    case ApiKeyStrategy(k) => ApiKeyAuth.Decide(k, env.splitHost, r)
    case JwtStrategy(a) => JwtAuth.Decide(a, env.parse, r)
    case IntrospectionStrategy(a) => OryAuth.Decide(a, env.introspect, r)
  }

  /**
   * Every strategy's handler runs its decision in front of `next`: `next`
   * sees the forwarded request, and a refusal is answered without it. The
   * decision is the one of the verifier the strategy stands for.
   */
  lemma AuthVerifyRunsStage(v: AuthVerifier, env: Env, next: Handler, other: Handler, r: Request)
    ensures AuthVerify(v, env, next)(r) == Serve(Stage(v, env, r), next)
    ensures Stage(v, env, r).Respond? ==> AuthVerify(v, env, next)(r) == AuthVerify(v, env, other)(r)
    ensures v.ApiKeyStrategy? ==> Stage(v, env, r) == ApiKeyAuth.Decide(v.apiKeys, env.splitHost, r)
    ensures v.JwtStrategy? ==> Stage(v, env, r) == JwtAuth.Decide(v.jwt, env.parse, r)
    ensures v.IntrospectionStrategy? ==> Stage(v, env, r) == OryAuth.Decide(v.auther, env.introspect, r)
  {
    match v
    case NoopVerifier =>
    case ApiKeyStrategy(k) =>
      WrapApply(r' => ApiKeyAuth.Decide(k, env.splitHost, r'), next, r);
      WrapApply(r' => ApiKeyAuth.Decide(k, env.splitHost, r'), other, r);
    case JwtStrategy(a) =>
      WrapApply(r' => JwtAuth.Decide(a, env.parse, r'), next, r);
      WrapApply(r' => JwtAuth.Decide(a, env.parse, r'), other, r);
    case IntrospectionStrategy(a) =>
      WrapApply(r' => OryAuth.Decide(a, env.introspect, r'), next, r);
      WrapApply(r' => OryAuth.Decide(a, env.introspect, r'), other, r);
  }

  /**
   * The no-op verifier hands back `next` itself: it reads no header, writes
   * no response and adds no context entry.
   */
  lemma NoopIsIdentity(env: Env, next: Handler, r: Request)
    ensures AuthVerify(NewNoopVerifier(), env, next) == next
    ensures Stage(NewNoopVerifier(), env, r) == Forward(r)
  {
  }
}
