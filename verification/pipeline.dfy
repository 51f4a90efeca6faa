/**
 * A verifier in front of the enforcement stage, in front of the
 * application: the chain the server builds. The three verifiers store the
 * identity they establish under three different context keys, and the
 * enforcement stage looks only at `ctxAuthAccessTokenKey{}`; the lemmas
 * below state what the chain then lets through.
 */
module Pipeline {
  import opened Http
  import ApiKeyAuth
  import OryAuth
  import JwtAuth
  import EnforceAuth
  import NoopAuth

  /** `verifier.AuthVerify(enforcer.EnforceAuth(next))`. */
  function Chain(v: NoopAuth.AuthVerifier, e: EnforceAuth.EnforceAuther, env: NoopAuth.Env, next: Handler): Handler {
    NoopAuth.AuthVerify(v, env, EnforceAuth.EnforceAuth(e, next))
  }

  /** The chain answers what the verifier's decision, then the gate's, make of the request. */
  lemma ChainSteps(v: NoopAuth.AuthVerifier, e: EnforceAuth.EnforceAuther, env: NoopAuth.Env, next: Handler, r: Request)
    ensures NoopAuth.Stage(v, env, r).Respond? ==>
      Chain(v, e, env, next)(r) == NoopAuth.Stage(v, env, r).resp
    ensures NoopAuth.Stage(v, env, r).Forward? ==>
      var r1 := NoopAuth.Stage(v, env, r).req;
      Chain(v, e, env, next)(r) == Serve(EnforceAuth.Decide(e, r1), next)
  {
    var inner := EnforceAuth.EnforceAuth(e, next);
    NoopAuth.AuthVerifyRunsStage(v, env, inner, inner, r);
    if NoopAuth.Stage(v, env, r).Forward? {
      var r1 := NoopAuth.Stage(v, env, r).req;
      WrapApply(r' => EnforceAuth.Decide(e, r'), next, r1);
    }
  }

  /** With enforcement off the gate is transparent: the chain is the verifier alone. */
  lemma EnforcementOffTransparent(v: NoopAuth.AuthVerifier, env: NoopAuth.Env, next: Handler, r: Request)
    ensures Chain(v, EnforceAuth.NewEnforceAuther(false), env, next)(r) == NoopAuth.AuthVerify(v, env, next)(r)
  {
    var e := EnforceAuth.NewEnforceAuther(false);
    ChainSteps(v, e, env, next, r);
    NoopAuth.AuthVerifyRunsStage(v, env, next, next, r);
  }

  /**
   * With the no-op verifier and enforcement on, a request whose context
   * yields `nil` for the struct key is refused with an empty 401.
   */
  lemma NoopEnforcedRejects(env: NoopAuth.Env, next: Handler, r: Request)
    requires ContextValue(r, AccessTokenKey) == Nil
    ensures Chain(NoopAuth.NewNoopVerifier(), EnforceAuth.NewEnforceAuther(true), env, next)(r) == Response(401, "")
  {
    ChainSteps(NoopAuth.NewNoopVerifier(), EnforceAuth.NewEnforceAuther(true), env, next, r);
  }

  /**
   * An API key the verifier accepts reaches the application under
   * enforcement: the identity sits under the struct key the gate checks.
   */
  lemma ApiKeyIdentityPasses(k: ApiKeyAuth.ApiKeyVerifier, env: NoopAuth.Env, next: Handler, r: Request)
    requires ApiKeyAuth.RequestKey(r) != ""
    requires ApiKeyAuth.Decide(k, env.splitHost, r).Forward?
    ensures ContextValue(ApiKeyAuth.Decide(k, env.splitHost, r).req, AccessTokenKey) != Nil
    ensures Chain(NoopAuth.ApiKeyStrategy(k), EnforceAuth.NewEnforceAuther(true), env, next)(r)
      == next(ApiKeyAuth.Decide(k, env.splitHost, r).req)
  {
    ChainSteps(NoopAuth.ApiKeyStrategy(k), EnforceAuth.NewEnforceAuther(true), env, next, r);
  }

  /**
   * A bearer token the JWT verifier accepts does not get past enforcement:
   * the token is stored under the string key "access_token", which the gate
   * does not look at, so a request arriving with `nil` under the struct key is
   * refused with an empty 401 and the application never sees it.
   */
  lemma JwtIdentityRejected(a: JwtAuth.JwtAuther, env: NoopAuth.Env, next: Handler, r: Request)
    requires ContextValue(r, AccessTokenKey) == Nil
    requires OryAuth.RequestToken(r) != ""
    requires JwtAuth.ValidateAuthToken(a, env.parse, OryAuth.RequestToken(r)).Success?
    ensures JwtAuth.Decide(a, env.parse, r).Forward?
    ensures EnforceAuth.Decide(EnforceAuth.NewEnforceAuther(true), JwtAuth.Decide(a, env.parse, r).req)
      == Respond(Response(401, ""))
    ensures Chain(NoopAuth.JwtStrategy(a), EnforceAuth.NewEnforceAuther(true), env, next)(r) == Response(401, "")
  {
    JwtAuth.MiddlewareOutcomes(a, env.parse, r);
    ChainSteps(NoopAuth.JwtStrategy(a), EnforceAuth.NewEnforceAuther(true), env, next, r);
  }

  /**
   * The same holds for introspection: the active token's `AuthInfo` is
   * stored under the string key "AuthInfo", and the gate refuses the request.
   */
  lemma IntrospectionIdentityRejected(a: OryAuth.Auther, env: NoopAuth.Env, next: Handler, r: Request)
    requires ContextValue(r, AccessTokenKey) == Nil
    requires OryAuth.RequestToken(r) != ""
    requires OryAuth.ValidateAuthToken(a, env.introspect, OryAuth.RequestToken(r)).Success?
    ensures OryAuth.Decide(a, env.introspect, r).Forward?
    ensures EnforceAuth.Decide(EnforceAuth.NewEnforceAuther(true), OryAuth.Decide(a, env.introspect, r).req)
      == Respond(Response(401, ""))
    ensures Chain(NoopAuth.IntrospectionStrategy(a), EnforceAuth.NewEnforceAuther(true), env, next)(r) == Response(401, "")
  {
    OryAuth.MiddlewareOutcomes(a, env.introspect, r);
    ChainSteps(NoopAuth.IntrospectionStrategy(a), EnforceAuth.NewEnforceAuther(true), env, next, r);
  }

  /**
   * Under enforcement, the application is reached only by requests whose
   * forwarded context holds a non-nil value under the struct key; for the JWT and
   * introspection verifiers that value was there before they ran.
   */
  lemma EnforcedChainNeedsStructKey(v: NoopAuth.AuthVerifier, env: NoopAuth.Env, next: Handler, r: Request)
    requires NoopAuth.Stage(v, env, r).Forward?
    requires ContextValue(NoopAuth.Stage(v, env, r).req, AccessTokenKey) == Nil
    ensures Chain(v, EnforceAuth.NewEnforceAuther(true), env, next)(r) == Response(401, "")
  {
    ChainSteps(v, EnforceAuth.NewEnforceAuther(true), env, next, r);
  }

  /** The no-op, JWT and introspection verifiers leave the value under the struct key as it was. */
  lemma BearerVerifiersKeepStructKey(v: NoopAuth.AuthVerifier, env: NoopAuth.Env, r: Request)
    requires v.JwtStrategy? || v.IntrospectionStrategy? || v.NoopVerifier?
    requires NoopAuth.Stage(v, env, r).Forward?
    ensures ContextValue(NoopAuth.Stage(v, env, r).req, AccessTokenKey) == ContextValue(r, AccessTokenKey)
  {
    match v
    case NoopVerifier =>
    case JwtStrategy(a) => JwtAuth.MiddlewareOutcomes(a, env.parse, r);
    case IntrospectionStrategy(a) => OryAuth.MiddlewareOutcomes(a, env.introspect, r);
  }
}
