/** The Express server's access gate: `authenticate` admits a request that
    carries a `Bearer` token naming a stored user and attaches that user to
    the request; `authorize(...roles)` then lets through only the roles a
    route allows. Token verification (the secret, signature and expiry
    checks) is the parameter `verify`, which yields the token's subject or
    the name of the error it raised. */
module AccessGate {
  import opened Common
  import opened Records

  const NO_TOKEN: string := "No token provided"
  const USER_NOT_FOUND: string := "User not found"
  const TOKEN_EXPIRED: string := "Token expired"
  const INVALID_TOKEN: string := "Invalid token"
  const NOT_AUTHENTICATED: string := "Not authenticated"
  const INSUFFICIENT_PERMISSIONS: string := "Insufficient permissions"

  const BEARER: string := "Bearer "

  /** What `jwt.verify` yields: the decoded `sub`, or the `name` of the error. */
  datatype Verification = Verified(sub: Id) | VerifyFailed(errorName: string)

  /** `SELECT id,name,email,address,role FROM users WHERE id=?`. */
  datatype AuthUser = AuthUser(id: Id, name: string, email: string, address: Option<string>, role: string)

  function AuthUserOf(u: User): AuthUser {
    AuthUser(u.id, u.name, u.email, u.address, u.role)
  }

  /** What a middleware does with a request: pass it on with `next()`, or
      answer it with a status and `{ message }`. */
  datatype Response = Next | Reply(status: nat, message: string)

  /** The header is present, non-empty and starts with `Bearer `. */
  predicate HasBearer(header: Option<string>) {
    header.Some? && |BEARER| <= |header.value| && header.value[..|BEARER|] == BEARER
  }

  /** The text of `s` up to its first space: `s.split(' ')[0]`. */
  function FirstField(s: string): (r: string)
    ensures |r| <= |s| && r == s[..|r|]
    ensures ' ' !in r
    ensures |r| == |s| || s[|r|] == ' '
  {
    if s == [] || s[0] == ' ' then [] else [s[0]] + FirstField(s[1..])
  }

  /** `header.split(' ')[1]` of a header that starts with `Bearer `: the
      text after the first space, up to the next one. */
  function BearerToken(header: string): string
    requires |BEARER| <= |header| && header[..|BEARER|] == BEARER
  {
    FirstField(header[|BEARER|..])
  }

  /** A field without spaces, followed by nothing or by a space, is read
      back as it was written. */
  lemma {:induction false} FirstFieldOfField(t: string, rest: string)
    requires ' ' !in t
    requires rest == [] || rest[0] == ' '
    ensures FirstField(t + rest) == t
    decreases |t|
  {
    if t != [] {
      assert (t + rest)[1..] == t[1..] + rest;
      FirstFieldOfField(t[1..], rest);
    }
  }

  /** The token of `Bearer <t>` is `t`, for a token without spaces. */
  lemma BearerTokenRoundTrip(t: string)
    requires ' ' !in t
    ensures var h := BEARER + t; |BEARER| <= |h| && h[..|BEARER|] == BEARER && BearerToken(h) == t
  {
    var h := BEARER + t;
    assert h[|BEARER|..] == t + [];
    FirstFieldOfField(t, []);
  }

  /** The decision of `authenticate`: the user to attach, or the 401 answer. */
  datatype Admission = Admit(user: AuthUser) | Deny(message: string)

  function Authenticate(users: map<Id, User>, header: Option<string>, verify: string -> Verification): (a: Admission)
    ensures a.Admit? <==>
      HasBearer(header) && verify(BearerToken(header.value)).Verified? && verify(BearerToken(header.value)).sub in users
    ensures a.Admit? ==> var sub := verify(BearerToken(header.value)).sub; a.user == AuthUserOf(users[sub])
    ensures !HasBearer(header) ==> a == Deny(NO_TOKEN)
    ensures HasBearer(header) && verify(BearerToken(header.value)).VerifyFailed? ==>
      a == Deny(if verify(BearerToken(header.value)).errorName == "TokenExpiredError" then TOKEN_EXPIRED else INVALID_TOKEN)
    ensures HasBearer(header) && verify(BearerToken(header.value)).Verified? && verify(BearerToken(header.value)).sub !in users ==>
      a == Deny(USER_NOT_FOUND)
  {
    if !HasBearer(header) then Deny(NO_TOKEN)
    else
      match verify(BearerToken(header.value))
      case VerifyFailed(name) => Deny(if name == "TokenExpiredError" then TOKEN_EXPIRED else INVALID_TOKEN)
      case Verified(sub) => if sub in users then Admit(AuthUserOf(users[sub])) else Deny(USER_NOT_FOUND)
  }

  /** The part of a request the gate reads and writes. */
  class Request {
    var authorization: Option<string>
    var user: Option<AuthUser>

    constructor(authorization: Option<string>)
      ensures this.authorization == authorization && user == None
    {
      this.authorization := authorization;
      user := None;
    }
  }

  /** `authenticate` on a request: an admitted request gets `req.user` and
      goes on; any other is answered with 401 and keeps its state. */
  method AuthenticateRequest(users: map<Id, User>, req: Request, verify: string -> Verification) returns (resp: Response)
    modifies req
    ensures req.authorization == old(req.authorization)
    ensures resp == Next <==> Authenticate(users, req.authorization, verify).Admit?
    ensures resp == Next ==> req.user == Some(Authenticate(users, req.authorization, verify).user)
    ensures resp != Next ==>
      resp == Reply(401, Authenticate(users, req.authorization, verify).message) && req.user == old(req.user)
  {
    var a := Authenticate(users, req.authorization, verify);
    if a.Deny? {
      return Reply(401, a.message);
    }
    req.user := Some(a.user);
    resp := Next;
  }

  /** `authorize(...roles)`: 401 without a user, 403 for a role the route
      does not allow, `next()` otherwise. */
  function Authorize(user: Option<AuthUser>, roles: seq<string>): (r: Response)
    ensures r == Next <==> user.Some? && user.value.role in roles
    ensures user.None? ==> r == Reply(401, NOT_AUTHENTICATED)
    ensures user.Some? && user.value.role !in roles ==> r == Reply(403, INSUFFICIENT_PERMISSIONS)
  {
    if user.None? then Reply(401, NOT_AUTHENTICATED)
    else if user.value.role !in roles then Reply(403, INSUFFICIENT_PERMISSIONS)
    else Next
  }

  /** Behind both gates a route is reached exactly by a verified token whose
      subject is a stored user with an allowed role; the role checked is the
      one stored now, not the one signed into the token. */
  lemma GatesAdmitStoredRole(users: map<Id, User>, header: Option<string>, verify: string -> Verification,
                             roles: seq<string>)
    ensures var a := Authenticate(users, header, verify);
      var attached := if a.Admit? then Some(a.user) else None;
      Authorize(attached, roles) == Next <==>
        && HasBearer(header)
        && verify(BearerToken(header.value)).Verified?
        && verify(BearerToken(header.value)).sub in users
        && users[verify(BearerToken(header.value)).sub].role in roles
  {
  }
}
