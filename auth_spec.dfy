/** src/api/auth/auth.service.ts (first schema revision): each service method as a
    transition of the database snapshot. JWT signing is abstracted as the freshly
    signed strings `issued`, `randomUUID()` as `secret`, `Date.now()` as `now` and
    `ms(JWT_REFRESH_EXPIRES)` as `ttl`. */
module AuthSpec {
  import opened Wrappers
  import opened Bcrypt
  import opened Schema

  datatype SignUpDto = SignUpDto(name: string, surname: string, mobile: string, email: string, password: string)

  /** The validated sign-in body. The body may carry a `username` instead of an
      `email`; the service never reads the username, so only whether `email` is
      present matters. */
  datatype SignInDto = SignInDto(email: Option<string>, password: string)

  /** The two JWTs `generateTokens` signs. */
  datatype Issued = Issued(accessToken: string, refreshToken: string)

  /** `{ accessToken, refreshToken, maxAge }` returned by signin and refresh. */
  datatype SignedIn = SignedIn(accessToken: string, refreshToken: string, maxAge: nat)

  /** `findFirst({ where: { OR: [ { email }, { mobile } ] } })` finds a record. */
  predicate IdentityTaken(db: Db, email: string, mobile: string)
  {
    exists id :: id in db.users && (db.users[id].email == email || db.users[id].mobile == mobile)
  }

  /** Some user holds this confirmation secret. */
  predicate SecretTaken(db: Db, secret: string)
  {
    exists id :: id in db.users && db.users[id].secret == Some(secret)
  }

  /** `findUnique({ where: { email, active: true, confirmed: true } })` matches `id`. */
  predicate CanSignIn(db: Db, email: string, id: int)
  {
    id in db.users && db.users[id].email == email && db.users[id].active && db.users[id].confirmed
  }

  // ---------------------------------------------------------------- signup

  ghost function Signup(db: Db, crypt: Crypt, dto: SignUpDto, secret: string): (r: Step<Success>)
    requires Valid(db)
    ensures Valid(r.db)
    ensures r.result == Err(BadRequest) <==> IdentityTaken(db, dto.email, dto.mobile)
    ensures r.result == Err(Internal) <==> !IdentityTaken(db, dto.email, dto.mobile) && SecretTaken(db, secret)
    ensures r.result.Ok? <==> !IdentityTaken(db, dto.email, dto.mobile) && !SecretTaken(db, secret)
    ensures r.result.Err? ==> r.db == db && r.mail == None
    ensures r.result.Ok? ==>
      var id := db.nextUserId;
      && id !in db.users
      && r.db.users.Keys == db.users.Keys + {id}
      && (forall k :: k in db.users ==> r.db.users[k] == db.users[k])
      && r.db.users[id].email == dto.email && r.db.users[id].mobile == dto.mobile
      && r.db.users[id].name == dto.name && r.db.users[id].surname == dto.surname
      && r.db.users[id].password == crypt.hash(dto.password)
      && r.db.users[id].secret == Some(secret)
      && !r.db.users[id].active && !r.db.users[id].confirmed
      && r.db.users[id] == User(id, dto.name, dto.surname, dto.email, dto.mobile, crypt.hash(dto.password),
                                Some(secret), false, false, None, None, [])
      && r.db.nextUserId == id + 1
      && r.db.tokens == db.tokens && r.db.profiles == db.profiles
      && r.mail == Some(ConfirmMail(dto.email, dto.name, secret))
  {
    if IdentityTaken(db, dto.email, dto.mobile) then
      Step(db, Err(BadRequest), None)
    else if SecretTaken(db, secret) then
      // user.create violates the unique secret column; nothing catches it
      Step(db, Err(Internal), None)
    else
      var id := db.nextUserId;
      var u := User(id, dto.name, dto.surname, dto.email, dto.mobile, crypt.hash(dto.password),
                    Some(secret), false, false, None, None, []);
      Step(db.(users := db.users[id := u], nextUserId := id + 1), Ok(Success),
           Some(ConfirmMail(dto.email, dto.name, secret)))
  }

  // ---------------------------------------------------------------- signin

  ghost function UserByEmail(db: Db, email: string): (r: Option<int>)
    ensures r.Some? <==> exists id :: CanSignIn(db, email, id)
    ensures r.Some? ==> CanSignIn(db, email, r.value)
  {
    if exists id :: CanSignIn(db, email, id) then
      var id :| CanSignIn(db, email, id); Some(id)
    else None
  }

  ghost function Signin(db: Db, crypt: Crypt, ttl: nat, dto: SignInDto, agent: Option<string>,
                        now: int, issued: Issued): (r: Step<SignedIn>)
    requires Valid(db)
    ensures Valid(r.db)
    ensures dto.email.None? ==> r.result == Err(Internal)
    ensures r.result == Err(BadRequest) <==>
      (dto.email.Some? &&
       !exists id :: CanSignIn(db, dto.email.value, id) && crypt.compare(dto.password, db.users[id].password))
    ensures r.result.Ok? <==>
      (dto.email.Some? &&
       (exists id :: CanSignIn(db, dto.email.value, id) && crypt.compare(dto.password, db.users[id].password)) &&
       issued.refreshToken !in db.tokens)
    ensures (dto.email.Some? &&
             (exists id :: CanSignIn(db, dto.email.value, id) && crypt.compare(dto.password, db.users[id].password)) &&
             issued.refreshToken in db.tokens) ==> r.result == Err(Internal)
    ensures r.result.Err? ==> r.db == db
    ensures r.result.Ok? ==> r.result.value == SignedIn(issued.accessToken, issued.refreshToken, ttl)
    ensures r.result.Ok? ==> forall id :: CanSignIn(db, dto.email.value, id) ==>
      r.db.tokens == db.tokens[issued.refreshToken := Session(agent, now + ttl, id)]
    ensures r.db.users == db.users && r.db.profiles == db.profiles && r.mail == None
  {
    if dto.email.None? then
      // a username-only body leaves `findUnique` without a unique field; Prisma
      // rejects the query and nothing catches it
      Step(db, Err(Internal), None)
    else
    match UserByEmail(db, dto.email.value)
    case None => Step(db, Err(BadRequest), None)
    case Some(id) =>
      if !crypt.compare(dto.password, db.users[id].password) then
        Step(db, Err(BadRequest), None)
      else if issued.refreshToken in db.tokens then
        // token.create violates the unique refreshToken column; nothing catches it
        Step(db, Err(Internal), None)
      else
        var session := Session(agent, now + ttl, id);
        Step(db.(tokens := db.tokens[issued.refreshToken := session]),
             Ok(SignedIn(issued.accessToken, issued.refreshToken, ttl)), None)
  }

  // ---------------------------------------------------------------- signout

  function Signout(db: Db, refreshToken: string): (r: Step<Success>)
    requires Valid(db)
    ensures Valid(r.db)
    ensures r.result.Ok? <==> refreshToken in db.tokens
    ensures r.result.Err? ==> r.result.error == Unauthorized && r.db == db
    ensures r.result.Ok? ==>
      && refreshToken !in r.db.tokens
      && (forall t :: t != refreshToken ==>
            (t in r.db.tokens <==> t in db.tokens) && (t in db.tokens ==> r.db.tokens[t] == db.tokens[t]))
      && r.db.users == db.users && r.db.profiles == db.profiles
    ensures r.mail == None
  {
    if refreshToken in db.tokens then
      Step(db.(tokens := db.tokens - {refreshToken}), Ok(Success), None)
    else
      Step(db, Err(Unauthorized), None)
  }

  // ---------------------------------------------------------------- confirm

  ghost function Confirm(db: Db, secret: string): (r: Step<Success>)
    requires Valid(db)
    ensures Valid(r.db)
    ensures r.result.Ok? <==> SecretTaken(db, secret)
    ensures r.result.Err? ==> r.result.error == BadRequest && r.db == db
    ensures r.result.Ok? ==> forall id :: id in db.users && db.users[id].secret == Some(secret) ==>
      r.db.users == db.users[id := db.users[id].(active := true, confirmed := true, secret := None)]
    ensures !SecretTaken(r.db, secret)
    ensures r.db.tokens == db.tokens && r.db.profiles == db.profiles && r.mail == None
  {
    if SecretTaken(db, secret) then
      var id :| id in db.users && db.users[id].secret == Some(secret);
      var u := db.users[id].(active := true, confirmed := true, secret := None);
      Step(db.(users := db.users[id := u]), Ok(Success), None)
    else
      Step(db, Err(BadRequest), None)
  }

  // ---------------------------------------------------------------- remove

  /** The token rows that do not belong to `id` (`deleteMany({ where: { userId } })`
      removes the others). */
  function TokensNotOf(tokens: map<string, Session>, id: int): (m: map<string, Session>)
    ensures forall t :: t in m <==> t in tokens && tokens[t].userId != id
    ensures forall t :: t in m ==> m[t] == tokens[t]
  {
    map t | t in tokens && tokens[t].userId != id :: tokens[t]
  }

  function Remove(db: Db, id: int, now: int): (r: Step<Success>)
    requires Valid(db)
    ensures Valid(r.db)
    ensures r.result.Ok? <==> id in db.users
    ensures r.result.Err? ==> r.result.error == BadRequest && r.db == db
    ensures r.result.Ok? ==>
      && r.db.users == db.users[id := db.users[id].(active := false, deletedAt := Some(now))]
      && TokensOf(r.db, id) == map[]
      && (forall t :: t in db.tokens && db.tokens[t].userId != id ==> t in r.db.tokens && r.db.tokens[t] == db.tokens[t])
      && r.db.tokens.Keys <= db.tokens.Keys
    ensures r.db.profiles == db.profiles && r.mail == None
  {
    if id in db.users then
      var u := db.users[id].(active := false, deletedAt := Some(now));
      Step(db.(users := db.users[id := u], tokens := TokensNotOf(db.tokens, id)), Ok(Success), None)
    else
      // user.update finds no record; the transaction is rolled back
      Step(db, Err(BadRequest), None)
  }

  // ---------------------------------------------------------------- refresh

  /** The agent column after `update({ data: { agent } })`: Prisma leaves a column whose
      value is `undefined` as it was. */
  function UpdatedAgent(stored: Option<string>, agent: Option<string>): (a: Option<string>)
    ensures agent.Some? ==> a == agent
    ensures agent.None? ==> a == stored
  {
    if agent.Some? then agent else stored
  }

  function Refresh(db: Db, ttl: nat, token: string, agent: Option<string>, issued: Issued): (r: Step<SignedIn>)
    requires Valid(db)
    ensures Valid(r.db)
    ensures r.result.Ok? <==>
      token in db.tokens && (issued.refreshToken == token || issued.refreshToken !in db.tokens)
    ensures r.result.Err? ==> r.result.error == Unauthorized && r.db == db
    ensures r.result.Ok? ==>
      && r.result.value == SignedIn(issued.accessToken, issued.refreshToken, ttl)
      && issued.refreshToken in r.db.tokens
      && r.db.tokens[issued.refreshToken] == db.tokens[token].(agent := UpdatedAgent(db.tokens[token].agent, agent))
      && (issued.refreshToken != token ==> token !in r.db.tokens)
      && (forall t :: t != token && t != issued.refreshToken ==>
            (t in r.db.tokens <==> t in db.tokens) && (t in db.tokens ==> r.db.tokens[t] == db.tokens[t]))
    ensures r.db.users == db.users && r.db.profiles == db.profiles && r.mail == None
  {
    if token !in db.tokens then
      Step(db, Err(Unauthorized), None)
    else if issued.refreshToken != token && issued.refreshToken in db.tokens then
      // the update violates the unique refreshToken column and is caught
      Step(db, Err(Unauthorized), None)
    else
      var row := db.tokens[token].(agent := UpdatedAgent(db.tokens[token].agent, agent));
      Step(db.(tokens := (db.tokens - {token})[issued.refreshToken := row]),
           Ok(SignedIn(issued.accessToken, issued.refreshToken, ttl)), None)
  }

  // ---------------------------------------------------------------- clean

  function ExpiredTokens(tokens: map<string, Session>, now: int): set<string>
  {
    set t | t in tokens && tokens[t].expiredAt < now
  }

  function Unexpired(tokens: map<string, Session>, now: int): (m: map<string, Session>)
    ensures forall t :: t in m <==> t in tokens && tokens[t].expiredAt >= now
    ensures forall t :: t in m ==> m[t] == tokens[t]
  {
    map t | t in tokens && tokens[t].expiredAt >= now :: tokens[t]
  }

  lemma SweepPartition(tokens: map<string, Session>, now: int)
    ensures |tokens| == |Unexpired(tokens, now)| + |ExpiredTokens(tokens, now)|
  {
    var kept := Unexpired(tokens, now).Keys;
    var gone := ExpiredTokens(tokens, now);
    assert tokens.Keys == kept + gone;
    assert kept * gone == {};
    assert |tokens.Keys| == |kept| + |gone|;
  }

  /** `deleteMany({ where: { expiredAt: { lt: now } } })`; the result is the count it logs. */
  function Clean(db: Db, now: int): (r: Step<nat>)
    requires Valid(db)
    ensures Valid(r.db)
    ensures forall t :: t in r.db.tokens <==> t in db.tokens && db.tokens[t].expiredAt >= now
    ensures forall t :: t in r.db.tokens ==> r.db.tokens[t] == db.tokens[t]
    ensures r.result.Ok? && r.result.value == |db.tokens| - |r.db.tokens|
    ensures r.result.value == |set t | t in db.tokens && db.tokens[t].expiredAt < now|
    ensures r.db.users == db.users && r.db.profiles == db.profiles && r.mail == None
  {
    SweepPartition(db.tokens, now);
    Step(db.(tokens := Unexpired(db.tokens, now)), Ok(|ExpiredTokens(db.tokens, now)|), None)
  }

  // ---------------------------------------------------------------- properties across calls

  /** Two users that can sign in with the same email are the same user. */
  lemma CanSignInUnique(db: Db, email: string, a: int, b: int)
    requires Valid(db) && CanSignIn(db, email, a) && CanSignIn(db, email, b)
    ensures a == b
  {
  }

  /** Confirming with the same secret twice: the second attempt fails. */
  lemma ConfirmReplayFails(db: Db, secret: string)
    requires Valid(db)
    ensures Confirm(Confirm(db, secret).db, secret).result == Err(BadRequest)
  {
  }

  /** Two refreshes presenting the same refresh token, in sequence: only the first one
      succeeds, whatever the second is issued. */
  lemma RefreshReplayFails(db: Db, ttl: nat, token: string, agent: Option<string>, agent': Option<string>,
                           first: Issued, second: Issued)
    requires Valid(db)
    requires Refresh(db, ttl, token, agent, first).result.Ok? && first.refreshToken != token
    ensures Refresh(Refresh(db, ttl, token, agent, first).db, ttl, token, agent', second).result == Err(Unauthorized)
  {
  }

  /** Refreshing never moves a session's expiry: a rotated token expires when the
      token issued at signin did. */
  lemma RefreshKeepsExpiry(db: Db, ttl: nat, token: string, agent: Option<string>, issued: Issued)
    requires Valid(db)
    requires Refresh(db, ttl, token, agent, issued).result.Ok?
    ensures
      var db' := Refresh(db, ttl, token, agent, issued).db;
      db'.tokens[issued.refreshToken].expiredAt == db.tokens[token].expiredAt &&
      db'.tokens[issued.refreshToken].userId == db.tokens[token].userId &&
      (agent.None? ==> db'.tokens[issued.refreshToken] == db.tokens[token])
  {
  }

  /** A removed account can no longer sign in, whatever password is given. */
  lemma RemovedUserCannotSignIn(db: Db, id: int, now: int, crypt: Crypt, ttl: nat, password: string,
                                agent: Option<string>, now': int, issued: Issued)
    requires Valid(db) && id in db.users
    ensures
      var db' := Remove(db, id, now).db;
      Signin(db', crypt, ttl, SignInDto(Some(db.users[id].email), password), agent, now', issued).result == Err(BadRequest)
  {
    var db' := Remove(db, id, now).db;
    var email := db.users[id].email;
    forall k | k in db'.users && db'.users[k].email == email ensures k == id {
    }
    assert !db'.users[id].active;
  }

  /** A fresh signup, confirmed with the mailed secret, can sign in with its password. */
  lemma SignupConfirmSignin(db: Db, crypt: Crypt, dto: SignUpDto, secret: string, ttl: nat,
                            agent: Option<string>, now: int, issued: Issued)
    requires Valid(db) && Sound(crypt)
    requires !IdentityTaken(db, dto.email, dto.mobile) && !SecretTaken(db, secret)
    requires issued.refreshToken !in db.tokens
    ensures
      var s1 := Signup(db, crypt, dto, secret);
      var s2 := Confirm(s1.db, s1.mail.value.secret);
      var s3 := Signin(s2.db, crypt, ttl, SignInDto(Some(dto.email), dto.password), agent, now, issued);
      s1.result.Ok? && s2.result.Ok? && s3.result.Ok? &&
      s3.db.tokens == db.tokens[issued.refreshToken := Session(agent, now + ttl, db.nextUserId)] &&
      ActiveConfirmed(s3.db, db.nextUserId)
  {
    var id := db.nextUserId;
    var s1 := Signup(db, crypt, dto, secret);
    assert s1.db.users[id].secret == Some(secret);
    var s2 := Confirm(s1.db, secret);
    assert s2.db.users[id] == s1.db.users[id].(active := true, confirmed := true, secret := None);
    assert CanSignIn(s2.db, dto.email, id);
    assert crypt.compare(dto.password, s2.db.users[id].password);
  }

  lemma InsertThenDelete(m: map<string, Session>, k: string, v: Session)
    requires k !in m
    ensures m[k := v] - {k} == m
  {
    assert (m[k := v] - {k}).Keys == m.Keys;
  }

  /** Signing in and then signing out with the refresh token just issued gives back the
      database as it was. */
  lemma SigninThenSignout(db: Db, crypt: Crypt, ttl: nat, dto: SignInDto, agent: Option<string>,
                         now: int, issued: Issued)
    requires Valid(db)
    requires Signin(db, crypt, ttl, dto, agent, now, issued).result.Ok?
    ensures
      var s := Signin(db, crypt, ttl, dto, agent, now, issued);
      Signout(s.db, issued.refreshToken).result.Ok? && Signout(s.db, issued.refreshToken).db == db
  {
    var s := Signin(db, crypt, ttl, dto, agent, now, issued);
    var id := UserByEmail(db, dto.email.value).value;
    assert s.db == db.(tokens := db.tokens[issued.refreshToken := Session(agent, now + ttl, id)]);
    InsertThenDelete(db.tokens, issued.refreshToken, Session(agent, now + ttl, id));
  }

  /** Rotating a session and then signing out with the rotated token removes exactly
      that session's row. */
  lemma RotateThenSignout(db: Db, ttl: nat, token: string, agent: Option<string>, rotated: Issued)
    requires Valid(db) && token in db.tokens && rotated.refreshToken !in db.tokens
    ensures
      var s4 := Refresh(db, ttl, token, agent, rotated);
      var s5 := Signout(s4.db, rotated.refreshToken);
      s4.result.Ok? && s5.result.Ok? && s5.db.tokens == db.tokens - {token} && s5.db.users == db.users
  {
    var row := db.tokens[token].(agent := UpdatedAgent(db.tokens[token].agent, agent));
    var rest := db.tokens - {token};
    var s4 := Refresh(db, ttl, token, agent, rotated);
    assert s4.db.tokens == rest[rotated.refreshToken := row];
    var s5 := Signout(s4.db, rotated.refreshToken);
    assert s5.db.tokens == rest[rotated.refreshToken := row] - {rotated.refreshToken};
    InsertThenDelete(rest, rotated.refreshToken, row);
  }

  /** A signed-in session, refreshed and then signed out with the rotated token, leaves
      its account active and confirmed and without any token row. */
  lemma RefreshThenSignoutEndsSession(db: Db, base: map<string, Session>, id: int, ttl: nat,
                                      issued: string, session: Session, agent: Option<string>, rotated: Issued)
    requires Valid(db) && ActiveConfirmed(db, id)
    requires issued !in base && session.userId == id && db.tokens == base[issued := session]
    requires forall t :: t in base ==> base[t].userId != id
    requires rotated.refreshToken !in db.tokens
    ensures
      var s4 := Refresh(db, ttl, issued, agent, rotated);
      var s5 := Signout(s4.db, rotated.refreshToken);
      s4.result.Ok? && s5.result.Ok? && TokensOf(s5.db, id) == map[] && ActiveConfirmed(s5.db, id)
  {
    RotateThenSignout(db, ttl, issued, agent, rotated);
    InsertThenDelete(base, issued, session);
    var s5 := Signout(Refresh(db, ttl, issued, agent, rotated).db, rotated.refreshToken);
    assert s5.db.tokens == base;
  }

  /** Signup, confirm, signin, refresh and signout in a row leave the account active and
      confirmed and without any token row. */
  lemma SessionLifecycle(db: Db, crypt: Crypt, dto: SignUpDto, secret: string, ttl: nat,
                         agent: Option<string>, now: int, issued: Issued, agent': Option<string>, rotated: Issued)
    requires Valid(db) && Sound(crypt)
    requires !IdentityTaken(db, dto.email, dto.mobile) && !SecretTaken(db, secret)
    requires issued.refreshToken !in db.tokens
    requires rotated.refreshToken !in db.tokens && rotated.refreshToken != issued.refreshToken
    ensures
      var id := db.nextUserId;
      var s1 := Signup(db, crypt, dto, secret);
      var s2 := Confirm(s1.db, secret);
      var s3 := Signin(s2.db, crypt, ttl, SignInDto(Some(dto.email), dto.password), agent, now, issued);
      var s4 := Refresh(s3.db, ttl, issued.refreshToken, agent', rotated);
      var s5 := Signout(s4.db, rotated.refreshToken);
      s3.result.Ok? && s4.result.Ok? && s5.result.Ok? &&
      TokensOf(s5.db, id) == map[] && ActiveConfirmed(s5.db, id)
  {
    var id := db.nextUserId;
    SignupConfirmSignin(db, crypt, dto, secret, ttl, agent, now, issued);
    var s1 := Signup(db, crypt, dto, secret);
    var s3 := Signin(Confirm(s1.db, secret).db, crypt, ttl, SignInDto(Some(dto.email), dto.password), agent, now, issued);
    RefreshThenSignoutEndsSession(s3.db, db.tokens, id, ttl, issued.refreshToken,
                                  Session(agent, now + ttl, id), agent', rotated);
  }

  /** The sweep at time `now` over rows expiring at now - 1, now and now + 1 deletes only
      the first. */
  lemma SweepBoundary(db: Db, now: int, a: string, b: string, c: string, agent: Option<string>, id: int)
    requires Valid(db) && id in db.users
    requires a != b && b != c && a != c
    requires db.tokens == map[a := Session(agent, now - 1, id), b := Session(agent, now, id), c := Session(agent, now + 1, id)]
    ensures Clean(db, now).db.tokens.Keys == {b, c}
    ensures Clean(db, now).result == Ok(1)
  {
    assert db.tokens[a].expiredAt < now && db.tokens[b].expiredAt >= now && db.tokens[c].expiredAt >= now;
    assert db.tokens.Keys == {a, b, c};
    assert ExpiredTokens(db.tokens, now) == {a};
    assert Unexpired(db.tokens, now).Keys == {b, c};
  }
}
