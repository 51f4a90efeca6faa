/**
 * The slice of `net/http` and `context` the middleware touches: a request
 * with its headers, remote address and context values, a response, and
 * handlers. A middleware stage decides between forwarding a (possibly
 * enriched) request to the next handler and answering on its own.
 */
module Http {
  import opened User

  /**
   * Keys of the request context: the package's private struct key
   * `ctxAuthAccessTokenKey{}`, or a plain string key. A struct key never
   * equals a string key.
   */
  datatype CtxKey = AccessTokenKey | StrKey(name: string)

  /** Jwt tokens as `jwt.Parse` hands them back: their claim set. */
  datatype JwtToken = JwtToken(claims: Claims)

  /** Values the middleware stores in the context, or anything stored before it. */
  datatype CtxValue =
    | UserInfoValue(user: UserInfo)
    | AuthInfoValue(info: AuthInfo)
    | TokenValue(token: JwtToken)
    | OtherValue(json: JsonValue)

  /**
   * An incoming request: its headers (canonical name to first value), the
   * peer's `host:port` address and the values its context carries.
   */
  datatype Request = Request(
    header: map<string, string>,
    remoteAddr: string,
    ctx: map<CtxKey, CtxValue>)

  /** What a handler writes: a status code and a body. */
  datatype Response = Response(status: int, body: string)

  /** The outcome of a middleware stage: forward to `next`, or answer. */
  datatype Outcome = Forward(req: Request) | Respond(resp: Response)

  /** `http.Handler`: the response a handler writes for each request. */
  type Handler = Request -> Response

  const StatusUnauthorized: int := 401

  /** `r.Header.Get(name)`: the header's value, or "" when it is absent. */
  function HeaderGet(r: Request, name: string): (value: string)
    ensures name !in r.header ==> value == ""
    ensures name in r.header ==> value == r.header[name]
  {
    if name in r.header then r.header[name] else ""
  }

  /** Go's `nil`, as the context hands it back for a key it does not hold. */
  const Nil: CtxValue := OtherValue(JNull)

  /** `r.Context().Value(key)`: the value stored under `key`, or `nil`. */
  function ContextValue(r: Request, key: CtxKey): (value: CtxValue)
    ensures key !in r.ctx ==> value == Nil
    ensures key in r.ctx ==> value == r.ctx[key]
  {
    if key in r.ctx then r.ctx[key] else Nil
  }

  /**
   * `r.WithContext(context.WithValue(r.Context(), key, v))`: the same request
   * whose context yields `v` for `key` and what it yielded before for every
   * other key.
   */
  function WithValue(r: Request, key: CtxKey, v: CtxValue): (out: Request)
    ensures out.header == r.header && out.remoteAddr == r.remoteAddr
    ensures ContextValue(out, key) == v
    ensures forall k :: k != key ==> ContextValue(out, k) == ContextValue(r, k)
  {
    r.(ctx := r.ctx[key := v])
  }

  /**
   * The 401 a verifier writes for an error: body "ERR: <message>\n", from
   * which the message can be read back between the prefix and the newline.
   */
  function Unauthorized(message: string): (resp: Response)
    ensures resp.status == 401
    ensures |resp.body| == |message| + 6 && resp.body[..5] == "ERR: " && resp.body[|resp.body| - 1] == '\n'
    ensures resp.body[5..|resp.body| - 1] == message
  {
    Response(StatusUnauthorized, "ERR: " + message + "\n")
  }

  /** Runs a stage's outcome: forwarding calls `next`, answering does not. */
  function Serve(o: Outcome, next: Handler): (resp: Response)
    ensures o.Forward? ==> resp == next(o.req)
    ensures o.Respond? ==> resp == o.resp
  {
    match o
    case Forward(r) => next(r)
    case Respond(resp) => resp
  }

  /** The handler that runs `stage` in front of `next`. */
  function Wrap(stage: Request -> Outcome, next: Handler): Handler {
    r => Serve(stage(r), next)
  }

  /** A wrapped handler answers what the stage's outcome, served, answers. */
  lemma WrapApply(stage: Request -> Outcome, next: Handler, r: Request)
    ensures Wrap(stage, next)(r) == Serve(stage(r), next)
  {
  }
}
