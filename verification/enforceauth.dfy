/**
 * The enforcement stage: a flag fixed at construction; when it is on, a
 * request whose context yields `nil` for `ctxAuthAccessTokenKey{}` is
 * answered 401 with an empty body, and every other request goes on
 * unchanged.
 */
module EnforceAuth {
  import opened Http

  /** `EnforceAuther`: whether authentication is enforced. Nothing updates it. */
  datatype EnforceAuther = EnforceAuther(enforceAuth: bool)

  /** `NewEnforceAuther`: a stage with the given flag. */
  function NewEnforceAuther(enforceAuth: bool): (a: EnforceAuther)
    ensures a.enforceAuth == enforceAuth
  {
    EnforceAuther(enforceAuth)
  }

  /** The enforcement stage's decision for one request. */
  function Decide(a: EnforceAuther, r: Request): Outcome {
    if a.enforceAuth && ContextValue(r, AccessTokenKey) == Nil then Respond(Response(StatusUnauthorized, ""))
    else Forward(r)
  }

  /** `EnforceAuther.EnforceAuth`: the stage in front of `next`. */
  function EnforceAuth(a: EnforceAuther, next: Handler): Handler {
    Wrap(r => Decide(a, r), next)
  }

  /**
   * The gate: a request passes, unchanged, exactly when enforcement is off
   * or its context holds a non-nil value under `ctxAuthAccessTokenKey{}`;
   * otherwise the answer is 401 with an empty body and `next` is not run.
   */
  lemma GateSpec(a: EnforceAuther, r: Request, next: Handler)
    ensures Decide(a, r).Forward? <==>
      !a.enforceAuth || (AccessTokenKey in r.ctx && r.ctx[AccessTokenKey] != Nil)
    ensures Decide(a, r).Forward? ==> Decide(a, r).req == r && EnforceAuth(a, next)(r) == next(r)
    ensures Decide(a, r).Respond? ==> EnforceAuth(a, next)(r) == Response(401, "")
  {
    WrapApply(r' => Decide(a, r'), next, r);
  }

  /** A `nil` stored under the struct key is no identity: it is refused like a missing one. */
  lemma NilIdentityRejected(r: Request, next: Handler)
    requires AccessTokenKey in r.ctx && r.ctx[AccessTokenKey] == Nil
    ensures Decide(NewEnforceAuther(true), r) == Respond(Response(401, ""))
    ensures EnforceAuth(NewEnforceAuther(true), next)(r) == Response(401, "")
  {
    GateSpec(NewEnforceAuther(true), r, next);
  }

  /** With enforcement off, the context is not consulted: every request passes as it is. */
  lemma DisabledPassesAll(r: Request, next: Handler)
    ensures Decide(NewEnforceAuther(false), r) == Forward(r)
    ensures EnforceAuth(NewEnforceAuther(false), next)(r) == next(r)
  {
    GateSpec(NewEnforceAuther(false), r, next);
  }

  /**
   * Only the struct key counts: entries under string keys, such as
   * "access_token" or "AuthInfo", neither satisfy nor disturb the gate.
   */
  lemma StringKeysIgnored(a: EnforceAuther, r: Request, name: string, v: CtxValue)
    ensures Decide(a, WithValue(r, StrKey(name), v)).Forward? == Decide(a, r).Forward?
  {
  }
}
