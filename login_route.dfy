/** `POST /api/auth/login` (src/app/api/auth/login/route.ts): both fields
    required, lookup by the lower-cased email, the password compared with the
    stored digest, one generic answer for an unknown email and a wrong password,
    then the last-login time recorded and a session cookie set. */
module LoginRoute {
  import opened Common
  import opened Types
  import opened Credentials
  import opened Http
  import opened Users

  const MsgRequired := "Email and password are required"
  const MsgInvalid := "Invalid email or password"
  const MsgLoggedIn := "Login successful"
  const CookieName := "auth-token"

  /** The success body: a message, the user as read before the update, minus
      the password, and the token, which the cookie carries as well. */
  datatype LoggedIn = LoggedIn(message: string, user: PublicUser, token: string)

  /** `const { rememberMe = false } = body`: absent means false. */
  function RememberMe(body: UserLogin): (r: bool)
    ensures body.rememberMe.None? ==> !r
    ensures body.rememberMe.Some? ==> r == body.rememberMe.value
  {
    body.rememberMe.GetOr(false)
  }

  /** The cookie lifetime in seconds: 30 days when remembered, else 1 day. */
  function MaxAge(rememberMe: bool): (seconds: int)
    ensures rememberMe ==> seconds == 2592000
    ensures !rememberMe ==> seconds == 86400
  {
    if rememberMe then 60 * 60 * 24 * 30 else 60 * 60 * 24
  }

  /** The session cookie: HTTP-only, SameSite lax, path "/", secure exactly in
      production. `nodeEnv` is `process.env.NODE_ENV`. */
  function SessionCookie(token: string, rememberMe: bool, nodeEnv: string): (c: Cookie)
    ensures c.name == "auth-token" && c.value == token
    ensures c.httpOnly && c.sameSite == "lax" && c.path == "/"
    ensures c.secure <==> nodeEnv == "production"
    ensures c.maxAge == (if rememberMe then 30 else 1) * 86400
  {
    Cookie(CookieName, token, true, nodeEnv == "production", "lax", MaxAge(rememberMe), "/")
  }

  /** A user who checks "remember me" keeps the session thirty times longer. */
  lemma RememberedCookieOutlivesDefault(token: string, nodeEnv: string)
    ensures SessionCookie(token, true, nodeEnv).maxAge == 30 * SessionCookie(token, false, nodeEnv).maxAge
    ensures SessionCookie(token, true, nodeEnv).(maxAge := 0) == SessionCookie(token, false, nodeEnv).(maxAge := 0)
  {
  }

  /** Whether the login succeeds against the store's rows `users`. */
  predicate Accepts(users: map<string, User>, body: UserLogin) {
    Truthy(body.email) && Truthy(body.password)
    && ToLower(body.email.value) in users
    && Compare(body.password.value, users[ToLower(body.email.value)].password)
  }

  /** The handler. `createToken` stands for the token issuer, `nodeEnv` for
      the environment and `now` for CURRENT_TIMESTAMP. The cookie is the one
      set on the response, if any. */
  method Post(store: UserStore, body: UserLogin, createToken: (string, string) -> string, nodeEnv: string, now: int)
    returns (resp: Response<LoggedIn>, cookie: Option<Cookie>)
    requires store.Valid()
    modifies store
    ensures store.Valid()
    ensures !(Truthy(body.email) && Truthy(body.password)) ==> resp == ErrorResponse(400, MsgRequired)
    ensures Truthy(body.email) && Truthy(body.password) && !Accepts(old(store.users), body) ==>
      resp == ErrorResponse(401, MsgInvalid)
    ensures resp.OkResponse? <==> Accepts(old(store.users), body)
    ensures resp.ErrorResponse? ==> store.users == old(store.users) && cookie == None
    ensures resp.OkResponse? ==>
      var u := old(store.users)[ToLower(body.email.value)];
      var token := createToken(u.id, u.email);
      && store.users == old(store.users)[u.email := u.(lastLoginAt := Some(now))]
      && resp == OkResponse(200, LoggedIn(MsgLoggedIn, WithoutPassword(u), token))
      && cookie == Some(SessionCookie(token, RememberMe(body), nodeEnv))
  {
    var rememberMe := RememberMe(body);
    if !Truthy(body.email) || !Truthy(body.password) {
      return ErrorResponse(400, MsgRequired), None;
    }
    var key := ToLower(body.email.value);
    if key !in store.users {
      return ErrorResponse(401, MsgInvalid), None;
    }
    var u := store.users[key];
    if !Compare(body.password.value, u.password) {
      return ErrorResponse(401, MsgInvalid), None;
    }
    ghost var before := store.users;
    store.SetLastLoginAt(u.id, now);
    UpdateByIdTouchesOneRow(before, store.users, key, now);
    var token := createToken(u.id, u.email);
    resp := OkResponse(200, LoggedIn(MsgLoggedIn, WithoutPassword(u), token));
    cookie := Some(SessionCookie(token, rememberMe, nodeEnv));
  }

  /** An email typed in any case logs in to the same account: the response
      depends on the email only through its lower-cased form. */
  lemma LoginIgnoresEmailCase(users: map<string, User>, body: UserLogin, other: string)
    requires body.email.Some? && other != "" && ToLower(other) == ToLower(body.email.value)
    ensures Accepts(users, body) <==> Accepts(users, body.(email := Some(other)))
  {
  }
}
