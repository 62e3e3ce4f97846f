/** src/api/auth/strategies/jwt-access.strategy.ts: `validate` on the claims of an
    access token passport has already verified. */
module JwtAccessStrategy {
  import opened Wrappers
  import opened Schema
  import opened GuardTypes
  import AuthSpec

  /** The user (without secret and password, with its tokens), or null when there is
      no active, confirmed user with that id or the user has no token row. */
  function Validate(db: Db, payload: Claims): (r: Option<UserView>)
    ensures r.Some? <==> ActiveConfirmed(db, payload.userId) && |TokensOf(db, payload.userId)| > 0
    ensures r.Some? ==> r.value == View(db, payload.userId) && r.value.tokens != map[]
  {
    if !ActiveConfirmed(db, payload.userId) then None
    else
      var user := View(db, payload.userId);
      if |user.tokens| == 0 then None else Some(user)
  }

  /** Signing out a user's last session makes the strategy refuse that user. */
  lemma LastSignoutRefused(db: Db, refreshToken: string, payload: Claims)
    requires Valid(db)
    requires refreshToken in db.tokens && db.tokens[refreshToken].userId == payload.userId
    requires TokensOf(db, payload.userId).Keys == {refreshToken}
    ensures Validate(AuthSpec.Signout(db, refreshToken).db, payload) == None
  {
    var db' := AuthSpec.Signout(db, refreshToken).db;
    assert TokensOf(db', payload.userId).Keys <= TokensOf(db, payload.userId).Keys - {refreshToken};
  }
}
