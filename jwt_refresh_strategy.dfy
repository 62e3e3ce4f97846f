/** src/api/auth/strategies/jwt-refresh.strategy.ts: `validate` on the request and the
    claims of a refresh token passport has already verified. */
module JwtRefreshStrategy {
  import opened Wrappers
  import opened Http
  import opened Schema
  import opened GuardTypes
  import AuthSpec

  /** What `validate` returns: the user record, or the literal `true` that the source
      returns on failure (passport takes any truthy value as the authenticated user). */
  datatype Validated = AsUser(user: UserView) | LiteralTrue

  function Validate(db: Db, req: Request, payload: Claims): (r: Result<Validated>)
    ensures r.Err? <==> RefreshCookie(req).None?
    ensures r.Err? ==> r.error == Unauthorized
    ensures r.Ok? ==>
      (r.value.AsUser? <==> ActiveConfirmed(db, payload.userId) && |TokensOf(db, payload.userId)| > 0)
    ensures r.Ok? && r.value.AsUser? ==> r.value.user == View(db, payload.userId)
  {
    if RefreshCookie(req).None? then Err(Unauthorized)
    else if !ActiveConfirmed(db, payload.userId) then Ok(LiteralTrue)
    else
      var user := View(db, payload.userId);
      if |user.tokens| == 0 then Ok(LiteralTrue) else Ok(AsUser(user))
  }

  /** After the account is removed, a request still carrying its refresh cookie is
      not refused: `validate` returns the literal `true`. */
  lemma RemovedUserYieldsTrue(db: Db, id: int, now: int, req: Request, email: string)
    requires Valid(db)
    requires AuthSpec.Remove(db, id, now).result.Ok?
    requires RefreshCookie(req).Some?
    ensures Validate(AuthSpec.Remove(db, id, now).db, req, Claims(id, email)) == Ok(LiteralTrue)
  {
  }
}
