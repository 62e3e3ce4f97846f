/** src/api/auth/guards/jwt-refresh.guard.ts: the first revision's refresh guard. It
    checks the cookie and the user table only; the token table is never consulted. */
module JwtRefreshGuard {
  import opened Wrappers
  import opened Http
  import opened Schema
  import opened GuardTypes
  import AuthSpec

  /** The decision of `canActivate`: the user record it attaches, or Unauthorized. */
  function Decide(db: Db, req: Request, verifyRefresh: Verifier): (r: Result<UserView>)
    ensures r.Err? ==> r.error == Unauthorized
    ensures
      var cookie := RefreshCookie(req);
      r.Ok? <==>
        cookie.Some? && verifyRefresh(cookie.value).Some? &&
        ActiveConfirmed(db, verifyRefresh(cookie.value).value.userId)
    ensures r.Ok? ==> r.value == View(db, verifyRefresh(RefreshCookie(req).value).value.userId)
  {
    match RefreshCookie(req)
    case None => Err(Unauthorized)
    case Some(refreshToken) =>
      match verifyRefresh(refreshToken)
      case None => Err(Unauthorized)
      case Some(payload) =>
        if !ActiveConfirmed(db, payload.userId) then Err(Unauthorized)
        else Ok(View(db, payload.userId))
  }

  /** Signing out does not revoke a refresh token at this guard: whether a request
      passes is the same before and after its row is deleted. */
  lemma SignedOutTokenStillPasses(db: Db, refreshToken: string, req: Request, verifyRefresh: Verifier)
    requires Valid(db)
    requires AuthSpec.Signout(db, refreshToken).result.Ok?
    ensures
      Decide(AuthSpec.Signout(db, refreshToken).db, req, verifyRefresh).Ok? ==
      Decide(db, req, verifyRefresh).Ok?
  {
  }

  /** A refresh token rotated away still passes this guard, but presenting it to
      `refresh` again fails with Unauthorized: the replay is stopped by the service's
      conditional update, not by the guard. */
  lemma ReplayStoppedByService(db: Db, ttl: nat, token: string, agent: Option<string>,
                               first: AuthSpec.Issued, second: AuthSpec.Issued,
                               req: Request, verifyRefresh: Verifier)
    requires Valid(db)
    requires AuthSpec.Refresh(db, ttl, token, agent, first).result.Ok?
    requires first.refreshToken != token
    requires Decide(db, req, verifyRefresh).Ok?
    ensures
      var db' := AuthSpec.Refresh(db, ttl, token, agent, first).db;
      Decide(db', req, verifyRefresh).Ok? &&
      AuthSpec.Refresh(db', ttl, token, agent, second).result == Err(Unauthorized)
  {
  }

  /** `canActivate`: reads the tables, and writes the record into `req.user` only when
      the request is accepted. */
  method CanActivate(prisma: Prisma, req: Request, state: RequestState<UserView>, verifyRefresh: Verifier)
    returns (r: Result<bool>)
    modifies state
    ensures var d := Decide(prisma.Snapshot(), req, verifyRefresh);
      && r == (if d.Ok? then Ok(true) else Err(Unauthorized))
      && state.user == (if d.Ok? then Some(d.value) else old(state.user))
  {
    var d := Decide(prisma.Snapshot(), req, verifyRefresh);
    if d.Err? {
      return Err(Unauthorized);
    }
    state.user := Some(d.value);
    r := Ok(true);
  }
}
