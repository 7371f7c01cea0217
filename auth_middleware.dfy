/**
 * Authentication and role authorisation (src/middleware/auth.middleware.js).
 * `jwt.verify` with the access-token secret is a parameter of the model; the
 * user collection is a map from `_id` to document.
 */
module AuthMiddleware {
  import opened Wrappers
  import opened JsBuiltins
  import opened ApiErrors
  import opened UserModel
  import ErrorMiddleware

  const BearerPrefix := "Bearer "
  const NotLoggedIn := "User not authorized, Please login first"
  const InvalidAccessToken := "Invalid access token"
  const AccessDenied := "Access denied: You don't have permission to perform this action"

  /** A payload `jwt.verify` returns: falsy, or claims whose `_id` may be missing. */
  datatype Payload = FalsyPayload | Claims(id: Option<UserId>)

  /** `jwt.verify(token, secret)`: it throws (bad signature, expired, malformed) or returns the payload. */
  datatype Verification = VerifyFailed(name: string, message: string) | Decoded(payload: Payload)

  /** `req.cookies?.accessToken || req.header("Authorization")?.replace("Bearer ", "")`. */
  function IncomingToken(cookies: map<string, string>, authorization: Option<string>): (t: Option<string>)
    ensures Truthy(Lookup(cookies, "accessToken")) ==> t == Some(cookies["accessToken"])
    ensures t.None? <==> !Truthy(Lookup(cookies, "accessToken")) && authorization.None?
    ensures !Truthy(Lookup(cookies, "accessToken")) && authorization.Some? ==>
      t.Some? && |t.value| <= |authorization.value| &&
      (|t.value| == |authorization.value| <==> forall j :: 0 <= j <= |authorization.value| ==> !OccursAt(authorization.value, BearerPrefix, j))
    ensures !Truthy(Lookup(cookies, "accessToken")) && authorization.Some? ==>
      t == Some(ReplaceFirst(authorization.value, BearerPrefix, ""))
  {
    var cookie := Lookup(cookies, "accessToken");
    if Truthy(cookie) then cookie
    else match authorization
      case None => None
      case Some(header) => Some(ReplaceFirst(header, BearerPrefix, ""))
  }

  /** A truthy `accessToken` cookie wins over any header. */
  lemma CookieWins(cookies: map<string, string>, authorization: Option<string>)
    requires Truthy(Lookup(cookies, "accessToken"))
    ensures IncomingToken(cookies, authorization) == Some(cookies["accessToken"])
  {
  }

  /** Without a truthy cookie, the header "Bearer " + t yields exactly t. */
  lemma BearerHeaderYieldsToken(cookies: map<string, string>, t: string)
    requires !Truthy(Lookup(cookies, "accessToken"))
    ensures IncomingToken(cookies, Some(BearerPrefix + t)) == Some(t)
  {
    ReplacePrefix(BearerPrefix, t);
  }

  /** The removal is not anchored: the first "Bearer " anywhere in the header is cut out. */
  lemma BearerRemovedAnywhere(cookies: map<string, string>)
    requires !Truthy(Lookup(cookies, "accessToken"))
    ensures IncomingToken(cookies, Some("Basic Bearer xyz")) == Some("Basic xyz")
  {
    var h := "Basic Bearer xyz";
    assert OccursAt(h, BearerPrefix, 6) by { assert h[6..13] == BearerPrefix; }
    assert !OccursAt(h, BearerPrefix, 0) by { assert h[0..7][1] != BearerPrefix[1]; }
    forall j | 1 <= j < 6 ensures !OccursAt(h, BearerPrefix, j) {
      assert h[j..j + 7][0] == h[j] != BearerPrefix[0];
    }
    assert IndexOf(h, BearerPrefix, 0) == Some(6);
    assert h[..6] + "" + h[13..] == "Basic xyz";
  }

  /** The decision `verifyUserAuth` reaches: the user it attaches, or the error it throws. */
  function Authenticate(cookies: map<string, string>, authorization: Option<string>,
                        verify: string -> Verification, users: map<UserId, User>): (r: Result<User, Error>)
    ensures !Truthy(IncomingToken(cookies, authorization)) ==> r == Err(ApiError(401, NotLoggedIn))
    ensures r.Ok? <==>
      Truthy(IncomingToken(cookies, authorization)) &&
      verify(IncomingToken(cookies, authorization).value).Decoded? &&
      verify(IncomingToken(cookies, authorization).value).payload.Claims? &&
      verify(IncomingToken(cookies, authorization).value).payload.id.Some? &&
      verify(IncomingToken(cookies, authorization).value).payload.id.value in users
    ensures r.Ok? ==> r.value == WithoutSecrets(users[verify(IncomingToken(cookies, authorization).value).payload.id.value])
    ensures r.Err? && r.error.ApiError? ==> r.error.statusCode in {401, 404} && r.error.message in {NotLoggedIn, InvalidAccessToken}
  {
    var token := IncomingToken(cookies, authorization);
    if !Truthy(token) then Err(ApiError(401, NotLoggedIn))
    else match verify(token.value)
      case VerifyFailed(name, message) => Err(Thrown(name, message, None, [], "", ""))
      case Decoded(FalsyPayload) => Err(ApiError(404, InvalidAccessToken))
      case Decoded(Claims(id)) =>
        if id.Some? && id.value in users then Ok(WithoutSecrets(users[id.value]))
        else Err(ApiError(401, InvalidAccessToken))
  }

  /** A verification failure is passed on as the token library's own error, unchanged. */
  lemma VerificationErrorPropagates(cookies: map<string, string>, authorization: Option<string>,
                                    verify: string -> Verification, users: map<UserId, User>)
    requires Truthy(IncomingToken(cookies, authorization))
    requires verify(IncomingToken(cookies, authorization).value).VerifyFailed?
    ensures var v := verify(IncomingToken(cookies, authorization).value);
      Authenticate(cookies, authorization, verify, users) == Err(Thrown(v.name, v.message, None, [], "", ""))
  {
  }

  /**
   * An expired or forged token therefore reaches the error handler as an
   * error without a status code and, assuming `AsyncHandler` forwards it with
   * `next(err)`, is answered with 500, not 401.
   */
  lemma RejectedTokenAnswers500(cookies: map<string, string>, authorization: Option<string>,
                                verify: string -> Verification, users: map<UserId, User>)
    requires Truthy(IncomingToken(cookies, authorization))
    requires verify(IncomingToken(cookies, authorization).value).VerifyFailed?
    requires verify(IncomingToken(cookies, authorization).value).name == "TokenExpiredError"
    ensures var r := Authenticate(cookies, authorization, verify, users);
      r.Err? && ErrorMiddleware.HandleError(r.error).status == 500
  {
  }

  /** A falsy payload is rejected with 404; claims naming no stored user with 401. */
  lemma PayloadRejections(cookies: map<string, string>, authorization: Option<string>,
                          verify: string -> Verification, users: map<UserId, User>)
    requires Truthy(IncomingToken(cookies, authorization))
    requires verify(IncomingToken(cookies, authorization).value).Decoded?
    ensures var p := verify(IncomingToken(cookies, authorization).value).payload;
      (p.FalsyPayload? ==> Authenticate(cookies, authorization, verify, users) == Err(ApiError(404, InvalidAccessToken))) &&
      (p.Claims? && (p.id.None? || p.id.value !in users) ==>
         Authenticate(cookies, authorization, verify, users) == Err(ApiError(401, InvalidAccessToken)))
  {
  }

  /** The request as the middleware sees it: its credentials, `req.user`, and how often `next()` ran. */
  class Request {
    const cookies: map<string, string>
    const authorization: Option<string>
    var user: Option<User>
    var nextCalls: nat

    constructor (cookies: map<string, string>, authorization: Option<string>)
      ensures this.cookies == cookies && this.authorization == authorization
      ensures user == None && nextCalls == 0
    {
      this.cookies := cookies;
      this.authorization := authorization;
      user := None;
      nextCalls := 0;
    }
  }

  /**
   * `verifyUserAuth`: on success it sets `req.user` and calls `next()` once;
   * otherwise it returns the error it throws and leaves the request alone.
   */
  method VerifyUserAuth(req: Request, verify: string -> Verification, users: map<UserId, User>)
    returns (thrown: Option<Error>)
    modifies req
    ensures var r := Authenticate(req.cookies, req.authorization, verify, users);
      (thrown.None? <==> r.Ok?) && (thrown.Some? ==> r == Err(thrown.value))
    ensures thrown.None? ==>
      req.user == Some(Authenticate(req.cookies, req.authorization, verify, users).value) &&
      req.nextCalls == old(req.nextCalls) + 1
    ensures thrown.Some? ==> req.user == old(req.user) && req.nextCalls == old(req.nextCalls)
  {
    var incomingToken := IncomingToken(req.cookies, req.authorization);
    if !Truthy(incomingToken) {
      return Some(ApiError(401, NotLoggedIn));
    }
    var decodedToken := verify(incomingToken.value);
    if decodedToken.VerifyFailed? {
      return Some(Thrown(decodedToken.name, decodedToken.message, None, [], "", ""));
    }
    if decodedToken.payload.FalsyPayload? {
      return Some(ApiError(404, InvalidAccessToken));
    }
    var id := decodedToken.payload.id;
    var user := if id.Some? && id.value in users then Some(WithoutSecrets(users[id.value])) else None;
    if user.None? {
      return Some(ApiError(401, InvalidAccessToken));
    }
    req.user := user;
    req.nextCalls := req.nextCalls + 1;
    return None;
  }

  /** What a middleware does with the request: pass it on, or throw. */
  datatype Gate = CallNext | Reject(error: Error)

  /** `authorizeRoles(...roles)` applied to `req.user`. */
  function AuthorizeRoles(roles: seq<string>, user: Option<User>): (g: Gate)
    ensures g == CallNext <==> user.Some? && user.value.role in roles
    ensures user.Some? && user.value.role !in roles ==> g == Reject(ApiError(403, AccessDenied))
    ensures user.None? ==> g.Reject? && g.error.Thrown? && g.error.name == "TypeError"
  {
    match user
    case None => Reject(TypeError("Cannot read properties of undefined (reading 'role')"))
    case Some(u) => if u.role in roles then CallNext else Reject(ApiError(403, AccessDenied))
  }

  /** An empty role list lets nobody through. */
  lemma NoRolesRejectsEveryone(user: Option<User>)
    ensures AuthorizeRoles([], user).Reject?
  {
  }
}
