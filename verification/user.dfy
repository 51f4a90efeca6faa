/**
 * The identity records of the auth package: the user record the API-key and
 * JWT paths speak of (user.go), the `AuthInfo` record the API-key table and
 * the introspection verifier produce (apikeysauth.go), and the decoded JSON
 * values claims and introspection replies are made of.
 */
module User {

  /** The context key under which user.go says the user record lives. */
  const AuthUserContextKey: string := "access_token"

  /** A decoded JSON value, as Go's `encoding/json` yields it into `any`. */
  datatype JsonValue =
    | JNull
    | JBool(b: bool)
    | JNumber(n: real)
    | JString(s: string)
    | JArray(items: seq<JsonValue>)
    | JObject(fields: map<string, JsonValue>)

  /** `Claims`: a map from claim name to any JSON value. */
  type Claims = map<string, JsonValue>

  /** `UserInfo`: the user name and its claims. */
  datatype UserInfo = UserInfo(username: string, claims: Claims)

  /** `AuthInfo`: who was authenticated, for which client, from which domain. */
  datatype AuthInfo = AuthInfo(user: string, clientId: string, domain: string)

  /**
   * `NewUserInfo`: a user record that gives back the name it was made from
   * and carries no claims.
   */
  function NewUserInfo(username: string): (u: UserInfo)
    ensures u.username == username && |u.claims| == 0
  {
    UserInfo(username, map[])
  }
}
