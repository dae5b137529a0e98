/** The authentication middleware: token extraction in `protect` and the role check in `authorize`. */
module Auth {
  import opened Wrappers
  import opened Text
  import opened Ids
  import opened Users
  import opened ErrorHandler

  /** The parts of a request the middleware reads. */
  datatype Request = Request(authorization: Option<string>, cookieToken: Option<string>)

  /** A present, non-empty string is truthy. */
  predicate Truthy(v: Option<string>)
  {
    v.Some? && v.value != ""
  }

  predicate HasBearerHeader(req: Request)
  {
    Truthy(req.authorization) && StartsWith(req.authorization.value, "Bearer")
  }

  /** The token `protect` finds: the second space-separated word of a header that
      starts with "Bearer", otherwise a truthy cookie token. */
  function ExtractToken(req: Request): (t: Option<string>)
    ensures HasBearerHeader(req) ==> t == SecondWord(req.authorization.value)
    ensures !HasBearerHeader(req) ==> t == (if Truthy(req.cookieToken) then req.cookieToken else None)
  {
    if HasBearerHeader(req) then SecondWord(req.authorization.value)
    else if Truthy(req.cookieToken) then req.cookieToken
    else None
  }

  /** A rejection: the status set on the response and the thrown message. */
  datatype Denial = Denial(status: int, message: string)

  const NoTokenMessage := "Not authorized to access this route"
  const TokenFailedMessage := "Not authorized, token failed"

  /** `protect`. `verify` stands for `jwt.verify`: the user id a token decodes to,
      or None when it throws. Every failure after extraction, an unknown user
      included, is reported as a failed token. */
  function Protect(req: Request, verify: string -> Option<UserId>, users: map<UserId, User>)
    : (r: Result<UserId, Denial>)
    ensures r.Success? ==> Truthy(ExtractToken(req)) && verify(ExtractToken(req).value) == Some(r.value) && r.value in users
    ensures !Truthy(ExtractToken(req)) ==> r == Failure(Denial(401, NoTokenMessage))
    ensures Truthy(ExtractToken(req)) && r.Failure? ==> r.error == Denial(401, TokenFailedMessage)
    ensures (Truthy(ExtractToken(req)) && verify(ExtractToken(req).value).Some? &&
             verify(ExtractToken(req).value).value in users) ==> r.Success?
  {
    var token := ExtractToken(req);
    if !Truthy(token) then Failure(Denial(401, NoTokenMessage))
    else match verify(token.value)
      case None => Failure(Denial(401, TokenFailedMessage))
      case Some(id) => if id in users then Success(id) else Failure(Denial(401, TokenFailedMessage))
  }

  /** A Bearer header wins over the cookie, which is then never read. */
  lemma BearerHeaderIgnoresCookie(req: Request, cookie: Option<string>)
    requires HasBearerHeader(req)
    ensures ExtractToken(req.(cookieToken := cookie)) == ExtractToken(req)
  {
  }

  /** A header "Bearer" without a space yields no token: the request is refused
      with 401 even when it also carries a valid cookie. */
  lemma BareBearerRefused(cookie: Option<string>, verify: string -> Option<UserId>, users: map<UserId, User>)
    ensures Protect(Request(Some("Bearer"), cookie), verify, users) == Failure(Denial(401, NoTokenMessage))
  {
    assert ' ' !in "Bearer";
  }

  /** `authorize(...roles)`: 401 without a user, 403 for a role not listed. */
  function Authorize(roles: seq<string>, user: Option<User>): (r: Result<User, Denial>)
    ensures user.None? ==> r == Failure(Denial(401, "User not found"))
    ensures user.Some? && user.value.role !in roles ==> r.Failure? && r.error.status == 403
    ensures user.Some? && user.value.role in roles ==> r == Success(user.value)
  {
    if user.None? then Failure(Denial(401, "User not found"))
    else if user.value.role !in roles then
      Failure(Denial(403, "User role " + user.value.role + " is not authorized to access this route"))
    else Success(user.value)
  }

  /** The middleware sets the response status before throwing, so the error
      handler answers with that status (401 or 403) and the thrown message. */
  lemma DenialsKeepTheirStatus(d: Denial, stack: string, nodeEnv: Option<string>)
    requires d.status != 200 && d.message != ""
    ensures HandleError(ThrownError(None, d.message, stack), d.status, nodeEnv).status == d.status
    ensures HandleError(ThrownError(None, d.message, stack), d.status, nodeEnv).message == d.message
  {
  }
}
