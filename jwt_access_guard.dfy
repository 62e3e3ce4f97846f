/** src/api/auth/guards/jwt-access.guard.ts: the first revision's request guard. It
    reads the token table and the user table and changes neither; the principal it
    attaches to the request is its result. */
module JwtAccessGuard {
  import opened Wrappers
  import opened Http
  import opened Schema
  import opened GuardTypes
  import AuthSpec

  /** The decision of `canActivate`: the user record it attaches, or Unauthorized. */
  function Decide(db: Db, req: Request, verifyAccess: Verifier): (r: Result<UserView>)
    ensures r.Err? ==> r.error == Unauthorized
    ensures
      var token := BearerToken(req.authorization);
      var cookie := RefreshCookie(req);
      r.Ok? <==>
        token.Some? && cookie.Some? && verifyAccess(token.value).Some? &&
        cookie.value in db.tokens && ActiveConfirmed(db, verifyAccess(token.value).value.userId)
    ensures r.Ok? ==> r.value == View(db, verifyAccess(BearerToken(req.authorization).value).value.userId)
  {
    match BearerToken(req.authorization)
    case None => Err(Unauthorized)
    case Some(token) =>
      match RefreshCookie(req)
      case None => Err(Unauthorized)
      case Some(refreshToken) =>
        match verifyAccess(token)
        case None => Err(Unauthorized)
        case Some(payload) =>
          if refreshToken !in db.tokens then Err(Unauthorized)
          else if !ActiveConfirmed(db, payload.userId) then Err(Unauthorized)
          else Ok(View(db, payload.userId))
  }

  /** A refresh token deleted by signout no longer opens the guard. */
  lemma SignedOutTokenRefused(db: Db, refreshToken: string, req: Request, verifyAccess: Verifier)
    requires Valid(db)
    requires AuthSpec.Signout(db, refreshToken).result.Ok?
    requires RefreshCookie(req) == Some(refreshToken)
    ensures Decide(AuthSpec.Signout(db, refreshToken).db, req, verifyAccess) == Err(Unauthorized)
  {
  }

  /** After a rotation the old refresh token no longer opens the guard, and the new one
      opens it exactly when the old one did. */
  lemma RotatedTokenRefused(db: Db, ttl: nat, oldToken: string, agent: Option<string>,
                            issued: AuthSpec.Issued, req: Request, verifyAccess: Verifier)
    requires Valid(db)
    requires AuthSpec.Refresh(db, ttl, oldToken, agent, issued).result.Ok?
    requires oldToken != "" && issued.refreshToken != "" && issued.refreshToken != oldToken
    ensures
      var db' := AuthSpec.Refresh(db, ttl, oldToken, agent, issued).db;
      var withOld := req.(cookies := req.cookies["refreshToken" := oldToken]);
      var withNew := req.(cookies := req.cookies["refreshToken" := issued.refreshToken]);
      Decide(db', withOld, verifyAccess) == Err(Unauthorized) &&
      Decide(db', withNew, verifyAccess).Ok? == Decide(db, withOld, verifyAccess).Ok?
  {
    var db' := AuthSpec.Refresh(db, ttl, oldToken, agent, issued).db;
    var withOld := req.(cookies := req.cookies["refreshToken" := oldToken]);
    var withNew := req.(cookies := req.cookies["refreshToken" := issued.refreshToken]);
    assert RefreshCookie(withNew) == Some(issued.refreshToken);
    assert RefreshCookie(withOld) == Some(oldToken);
    assert BearerToken(withNew.authorization) == BearerToken(withOld.authorization);
  }

  /** A removed account is refused whatever tokens the request carries. */
  lemma RemovedUserRefused(db: Db, id: int, now: int, req: Request, verifyAccess: Verifier)
    requires Valid(db)
    requires AuthSpec.Remove(db, id, now).result.Ok?
    requires BearerToken(req.authorization).Some?
    requires verifyAccess(BearerToken(req.authorization).value).Some?
    requires verifyAccess(BearerToken(req.authorization).value).value.userId == id
    ensures Decide(AuthSpec.Remove(db, id, now).db, req, verifyAccess) == Err(Unauthorized)
  {
  }

  /** The session row found for the cookie is never compared with the access token's
      subject: a live session of one user and an access token of another active,
      confirmed user are accepted as the latter. */
  lemma SessionOwnerNotChecked(db: Db, req: Request, verifyAccess: Verifier)
    requires Valid(db)
    requires BearerToken(req.authorization).Some?
    requires RefreshCookie(req).Some? && RefreshCookie(req).value in db.tokens
    requires verifyAccess(BearerToken(req.authorization).value).Some?
    requires
      var subject := verifyAccess(BearerToken(req.authorization).value).value.userId;
      ActiveConfirmed(db, subject) && db.tokens[RefreshCookie(req).value].userId != subject
    ensures Decide(db, req, verifyAccess).Ok?
    ensures Decide(db, req, verifyAccess).value.id != db.tokens[RefreshCookie(req).value].userId
  {
    var subject := verifyAccess(BearerToken(req.authorization).value).value.userId;
    assert db.users[subject].id == subject;
  }

  /** `canActivate`: reads the tables, and writes the record into `req.user` only when
      the request is accepted. */
  method CanActivate(prisma: Prisma, req: Request, state: RequestState<UserView>, verifyAccess: Verifier)
    returns (r: Result<bool>)
    modifies state
    ensures var d := Decide(prisma.Snapshot(), req, verifyAccess);
      && r == (if d.Ok? then Ok(true) else Err(Unauthorized))
      && state.user == (if d.Ok? then Some(d.value) else old(state.user))
  {
    var d := Decide(prisma.Snapshot(), req, verifyAccess);
    if d.Err? {
      return Err(Unauthorized);
    }
    state.user := Some(d.value);
    r := Ok(true);
  }
}
