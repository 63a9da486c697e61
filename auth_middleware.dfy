/**
 * backend/middleware/authMiddleware.js: `protect` resolves the session cookie to the
 * calling user, and `authorize(...roles)` admits only the listed roles. Token
 * verification is an opaque function parameter: it yields the user id the token
 * carries, or None when verification fails.
 */
module AuthMiddleware {
  import opened Wrappers
  import opened Models

  /**
   * protect. A missing or empty `jwt` cookie is refused, and so is a token that fails
   * verification. A verified token admits the request with the record it names, which
   * may be gone: the request then goes on with no user (`req.user` is null).
   */
  function Protect(cookie: Option<string>, verify: string -> Option<UserId>, users: map<UserId, User>)
    : (r: Result<Option<Summary>>)
    ensures !TextGiven(cookie) ==> r == Err(Unauthorized("Not authorized, no token"))
    ensures TextGiven(cookie) && verify(cookie.value).None? ==>
      r == Err(Unauthorized("Not authorized, token failed"))
    ensures r.Ok? <==> TextGiven(cookie) && verify(cookie.value).Some?
    ensures r.Ok? && r.value.Some? ==>
      && r.value.value.id == verify(cookie.value).value
      && r.value.value.id in users
      && r.value.value == SummaryOf(r.value.value.id, users[r.value.value.id])
    ensures r.Ok? && r.value.None? ==> verify(cookie.value).value !in users
  {
    if !TextGiven(cookie) then Err(Unauthorized("Not authorized, no token"))
    else match verify(cookie.value)
      case None => Err(Unauthorized("Not authorized, token failed"))
      case Some(id) => Ok(if id in users then Some(SummaryOf(id, users[id])) else None)
  }

  /** authorize(...roles): the caller passes exactly when their role is listed; otherwise 403. */
  function Authorize(roles: seq<Role>, caller: Summary): (r: Result<()>)
    ensures r.Ok? <==> caller.fields.role in roles
    ensures r.Err? ==>
      r.failure == Forbidden("User role " + RoleName(caller.fields.role) + " is not authorized to access this route")
  {
    if caller.fields.role in roles then Ok(())
    else Err(Forbidden("User role " + RoleName(caller.fields.role) + " is not authorized to access this route"))
  }
}
