/** src/api/auth/auth.guard.ts: the request guard of the later schema revision. Its
    tables differ from the first revision's (the token row is keyed by `token`, carries a
    `type` and a `usedAt`, and the user has `verified` instead of `confirmed`; the JWT
    payload names the user `sub`), so this module has its own tables and never touches
    Schema's. */
module AuthGuard {
  import opened Wrappers
  import opened Http

  /** `TokenEnum`; only `REFRESH` is named by the guard. */
  datatype TokenType = RefreshType | OtherType(name: string)

  datatype Account = Account(id: int, email: string, password: string, active: bool, verified: bool)

  /** A row of the token table; its `token` is the key under which it is stored. */
  datatype TokenRow = TokenRow(kind: TokenType, expiredAt: int, usedAt: Option<int>, userId: int)

  /** `JwtPayload { sub, email }`. */
  datatype Claims = Claims(sub: int, email: string)

  /** `jwt.verify` with one of the two secrets: the claims, or None where it throws. */
  type Verifier = string -> Option<Claims>

  /** `UserPayload = Pick<User, 'id' | 'email'>`, what the guard stores in `req.user`. */
  datatype Principal = Principal(id: int, email: string)

  /** Users are stored under their id, and every token row belongs to a stored user. */
  ghost predicate Valid(users: map<int, Account>, tokens: map<string, TokenRow>)
  {
    && (forall id :: id in users ==> users[id].id == id)
    && (forall t :: t in tokens ==> tokens[t].userId in users)
  }

  /** The `where` of `token.update`: the row exists, is a refresh row, has not expired, and
      its owner is the user `sub`, active and verified. */
  predicate Live(users: map<int, Account>, tokens: map<string, TokenRow>, token: string, sub: int, now: int)
  {
    && token in tokens
    && tokens[token].kind == RefreshType
    && tokens[token].expiredAt >= now
    && tokens[token].userId in users
    && users[tokens[token].userId].id == sub
    && users[tokens[token].userId].active
    && users[tokens[token].userId].verified
  }

  /** The claims of both tokens, when the header and the cookie are well formed and both
      tokens verify. */
  function Presented(req: Request, verifyAccess: Verifier, verifyRefresh: Verifier): Option<(Claims, Claims)>
  {
    match BearerToken(req.authorization)
    case None => None
    case Some(accessToken) =>
      match RefreshCookie(req)
      case None => None
      case Some(refreshToken) =>
        match (verifyAccess(accessToken), verifyRefresh(refreshToken))
        case (Some(access), Some(refresh)) => Some((access, refresh))
        case _ => None
  }

  /** The decision of `canActivate`: the principal it attaches, or Unauthorized for every
      failure, whichever check fails. */
  function Decide(users: map<int, Account>, tokens: map<string, TokenRow>, req: Request,
                  verifyAccess: Verifier, verifyRefresh: Verifier, now: int): (r: Result<Principal>)
    ensures r.Err? ==> r.error == Unauthorized
    ensures r.Ok? <==>
      && BearerToken(req.authorization).Some?
      && RefreshCookie(req).Some?
      && verifyAccess(BearerToken(req.authorization).value).Some?
      && verifyRefresh(RefreshCookie(req).value).Some?
      && verifyAccess(BearerToken(req.authorization).value).value.sub
           == verifyRefresh(RefreshCookie(req).value).value.sub
      && Live(users, tokens, RefreshCookie(req).value, verifyAccess(BearerToken(req.authorization).value).value.sub, now)
    ensures r.Ok? ==>
      var owner := users[tokens[RefreshCookie(req).value].userId];
      r.value.id == owner.id && r.value.email == owner.email
  {
    match Presented(req, verifyAccess, verifyRefresh)
    case None => Err(Unauthorized)
    case Some((access, refresh)) =>
      var token := RefreshCookie(req).value;
      if access.sub != refresh.sub then Err(Unauthorized)
      else if !Live(users, tokens, token, access.sub, now) then Err(Unauthorized)
      else
        var owner := users[tokens[token].userId];
        Ok(Principal(owner.id, owner.email))
  }

  /** `data: { usedAt: new Date() }` on the row found. */
  function Touch(tokens: map<string, TokenRow>, token: string, now: int): (m: map<string, TokenRow>)
    requires token in tokens
    ensures m.Keys == tokens.Keys
    ensures m[token].usedAt == Some(now)
    ensures m[token].(usedAt := tokens[token].usedAt) == tokens[token]
    ensures forall t :: t in tokens && t != token ==> m[t] == tokens[t]
  {
    tokens[token := tokens[token].(usedAt := Some(now))]
  }

  /** The database of the later revision. */
  class Store {
    var users: map<int, Account>
    var tokens: map<string, TokenRow>

    constructor (users: map<int, Account>, tokens: map<string, TokenRow>)
      ensures this.users == users && this.tokens == tokens
    {
      this.users, this.tokens := users, tokens;
    }
  }

  /** `canActivate`: the conditional update of the row's `usedAt` and the assignment of
      `req.user` happen together, and only when the request is accepted. */
  method CanActivate(store: Store, req: Request, state: RequestState<Principal>,
                     verifyAccess: Verifier, verifyRefresh: Verifier, now: int) returns (r: Result<bool>)
    modifies store, state
    ensures
      var d := Decide(old(store.users), old(store.tokens), req, verifyAccess, verifyRefresh, now);
      && r == (if d.Ok? then Ok(true) else Err(Unauthorized))
      && store.users == old(store.users)
      && store.tokens == (if d.Ok? then Touch(old(store.tokens), RefreshCookie(req).value, now) else old(store.tokens))
      && state.user == (if d.Ok? then Some(d.value) else old(state.user))
  {
    var accessToken := BearerToken(req.authorization);
    if accessToken.None? {
      return Err(Unauthorized);
    }
    var refreshToken := RefreshCookie(req);
    if refreshToken.None? {
      return Err(Unauthorized);
    }
    var access := verifyAccess(accessToken.value);
    var refresh := verifyRefresh(refreshToken.value);
    if access.None? || refresh.None? || access.value.sub != refresh.value.sub {
      return Err(Unauthorized);
    }
    var token := refreshToken.value;
    if !Live(store.users, store.tokens, token, access.value.sub, now) {
      return Err(Unauthorized);
    }
    store.tokens := Touch(store.tokens, token, now);
    var owner := store.users[store.tokens[token].userId];
    state.user := Some(Principal(owner.id, owner.email));
    r := Ok(true);
  }

  // ---------------------------------------------------------------- properties

  /** On a consistent database the principal is the user named by both tokens, and that
      user owns the row of the refresh cookie. */
  lemma PrincipalIsSubject(users: map<int, Account>, tokens: map<string, TokenRow>, req: Request,
                           verifyAccess: Verifier, verifyRefresh: Verifier, now: int)
    requires Valid(users, tokens)
    requires Decide(users, tokens, req, verifyAccess, verifyRefresh, now).Ok?
    ensures
      var p := Decide(users, tokens, req, verifyAccess, verifyRefresh, now).value;
      && p.id == verifyAccess(BearerToken(req.authorization).value).value.sub
      && p.id == verifyRefresh(RefreshCookie(req).value).value.sub
      && p.id == tokens[RefreshCookie(req).value].userId
      && p == Principal(users[p.id].id, users[p.id].email)
  {
  }

  /** Recording `usedAt` keeps the database consistent. */
  lemma TouchKeepsValid(users: map<int, Account>, tokens: map<string, TokenRow>, token: string, now: int)
    requires Valid(users, tokens) && token in tokens
    ensures Valid(users, Touch(tokens, token, now))
  {
  }

  /** `usedAt` is recorded but never consulted: a request accepted once is accepted again,
      with the same principal, against the database its first acceptance left behind. */
  lemma AcceptedAgain(users: map<int, Account>, tokens: map<string, TokenRow>, req: Request,
                      verifyAccess: Verifier, verifyRefresh: Verifier, now: int, later: int)
    requires Decide(users, tokens, req, verifyAccess, verifyRefresh, now).Ok?
    requires later <= tokens[RefreshCookie(req).value].expiredAt
    ensures
      var tokens' := Touch(tokens, RefreshCookie(req).value, now);
      Decide(users, tokens', req, verifyAccess, verifyRefresh, later) ==
      Decide(users, tokens, req, verifyAccess, verifyRefresh, now)
  {
    var token := RefreshCookie(req).value;
    var tokens' := Touch(tokens, token, now);
    assert tokens'[token].userId == tokens[token].userId;
  }

  /** A pair whose tokens name different users is refused, whatever the database holds. */
  lemma MismatchedPairRefused(users: map<int, Account>, tokens: map<string, TokenRow>, req: Request,
                              verifyAccess: Verifier, verifyRefresh: Verifier, now: int)
    requires Presented(req, verifyAccess, verifyRefresh).Some?
    requires Presented(req, verifyAccess, verifyRefresh).value.0.sub != Presented(req, verifyAccess, verifyRefresh).value.1.sub
    ensures Decide(users, tokens, req, verifyAccess, verifyRefresh, now) == Err(Unauthorized)
  {
  }

  /** Deleting a row, or deactivating its owner, makes the cookie useless at once. */
  lemma RevokedSessionRefused(users: map<int, Account>, tokens: map<string, TokenRow>, req: Request,
                              verifyAccess: Verifier, verifyRefresh: Verifier, now: int)
    requires RefreshCookie(req).Some?
    ensures
      var token := RefreshCookie(req).value;
      && Decide(users, tokens - {token}, req, verifyAccess, verifyRefresh, now) == Err(Unauthorized)
      && (token in tokens && tokens[token].userId in users ==>
            var id := tokens[token].userId;
            Decide(users[id := users[id].(active := false)], tokens, req, verifyAccess, verifyRefresh, now)
              == Err(Unauthorized))
  {
  }

  /** A row that expires at `t` opens the guard up to and including `t` and never after. */
  lemma ExpiryBoundary(users: map<int, Account>, tokens: map<string, TokenRow>, req: Request,
                       verifyAccess: Verifier, verifyRefresh: Verifier, now: int)
    requires Decide(users, tokens, req, verifyAccess, verifyRefresh, now).Ok?
    ensures
      var t := tokens[RefreshCookie(req).value].expiredAt;
      && Decide(users, tokens, req, verifyAccess, verifyRefresh, t).Ok?
      && Decide(users, tokens, req, verifyAccess, verifyRefresh, t + 1) == Err(Unauthorized)
  {
  }
}
