/** src/api/auth/auth.service.ts as the class it is: every method updates the tables of
    the Prisma client in place, and its new state is the one AuthSpec gives. */
module Auth {
  import opened Wrappers
  import opened Bcrypt
  import opened Schema
  import opened AuthSpec

  class AuthService {
    const prisma: Prisma
    const mailer: Mailer
    const crypt: Crypt
    /** `ms(JWT_REFRESH_EXPIRES)`, in milliseconds. */
    const ttl: nat

    constructor (prisma: Prisma, mailer: Mailer, crypt: Crypt, ttl: nat)
      requires ttl > 0
      ensures this.prisma == prisma && this.mailer == mailer && this.crypt == crypt && this.ttl == ttl
    {
      this.prisma, this.mailer, this.crypt, this.ttl := prisma, mailer, crypt, ttl;
    }

    method Signup(dto: SignUpDto, secret: string) returns (r: Result<Success>)
      requires Valid(prisma.Snapshot())
      modifies prisma, mailer
      ensures Valid(prisma.Snapshot())
      ensures
        var s := AuthSpec.Signup(old(prisma.Snapshot()), crypt, dto, secret);
        prisma.Snapshot() == s.db && r == s.result && mailer.outbox == old(mailer.outbox) + MailsOf(s.mail)
    {
      if IdentityTaken(prisma.Snapshot(), dto.email, dto.mobile) {
        return Err(BadRequest);
      }
      if SecretTaken(prisma.Snapshot(), secret) {
        return Err(Internal);
      }
      var password := crypt.hash(dto.password);
      var id := prisma.nextUserId;
      prisma.users := prisma.users[id := User(id, dto.name, dto.surname, dto.email, dto.mobile, password,
                                              Some(secret), false, false, None, None, [])];
      prisma.nextUserId := id + 1;
      mailer.outbox := mailer.outbox + [ConfirmMail(dto.email, dto.name, secret)];
      r := Ok(Success);
    }

    method Signin(dto: SignInDto, agent: Option<string>, now: int, issued: Issued) returns (r: Result<SignedIn>)
      requires Valid(prisma.Snapshot())
      modifies prisma
      ensures Valid(prisma.Snapshot())
      ensures
        var s := AuthSpec.Signin(old(prisma.Snapshot()), crypt, ttl, dto, agent, now, issued);
        prisma.Snapshot() == s.db && r == s.result
    {
      ghost var db := prisma.Snapshot();
      if dto.email.None? {
        return Err(Internal);
      }
      var email := dto.email.value;
      if !exists id :: id in prisma.users && CanSignIn(prisma.Snapshot(), email, id) {
        return Err(BadRequest);
      }
      var id :| id in prisma.users && CanSignIn(prisma.Snapshot(), email, id);
      var correct := crypt.compare(dto.password, prisma.users[id].password);
      if !correct {
        return Err(BadRequest);
      }
      if issued.refreshToken in prisma.tokens {
        return Err(Internal);
      }
      prisma.tokens := prisma.tokens[issued.refreshToken := Session(agent, now + ttl, id)];
      r := Ok(SignedIn(issued.accessToken, issued.refreshToken, ttl));
      assert prisma.Snapshot() == AuthSpec.Signin(db, crypt, ttl, dto, agent, now, issued).db;
    }

    method Signout(refreshToken: string) returns (r: Result<Success>)
      requires Valid(prisma.Snapshot())
      modifies prisma
      ensures Valid(prisma.Snapshot())
      ensures
        var s := AuthSpec.Signout(old(prisma.Snapshot()), refreshToken);
        prisma.Snapshot() == s.db && r == s.result
    {
      if refreshToken !in prisma.tokens {
        return Err(Unauthorized);
      }
      prisma.tokens := prisma.tokens - {refreshToken};
      r := Ok(Success);
    }

    method Confirm(secret: string) returns (r: Result<Success>)
      requires Valid(prisma.Snapshot())
      modifies prisma
      ensures Valid(prisma.Snapshot())
      ensures
        var s := AuthSpec.Confirm(old(prisma.Snapshot()), secret);
        prisma.Snapshot() == s.db && r == s.result
    {
      ghost var db := prisma.Snapshot();
      if !SecretTaken(prisma.Snapshot(), secret) {
        return Err(BadRequest);
      }
      var id :| id in prisma.users && prisma.users[id].secret == Some(secret);
      prisma.users := prisma.users[id := prisma.users[id].(active := true, confirmed := true, secret := None)];
      r := Ok(Success);
      assert prisma.Snapshot() == AuthSpec.Confirm(db, secret).db;
    }

    /** Both writes of the `$transaction` happen, or neither does. */
    method Remove(id: int, now: int) returns (r: Result<Success>)
      requires Valid(prisma.Snapshot())
      modifies prisma
      ensures Valid(prisma.Snapshot())
      ensures
        var s := AuthSpec.Remove(old(prisma.Snapshot()), id, now);
        prisma.Snapshot() == s.db && r == s.result
    {
      if id !in prisma.users {
        return Err(BadRequest);
      }
      prisma.users := prisma.users[id := prisma.users[id].(active := false, deletedAt := Some(now))];
      prisma.tokens := TokensNotOf(prisma.tokens, id);
      r := Ok(Success);
    }

    /** The conditional update: the row is found by the presented refresh token and
        rewritten with the new one in a single step. */
    method Refresh(token: string, agent: Option<string>, issued: Issued) returns (r: Result<SignedIn>)
      requires Valid(prisma.Snapshot())
      modifies prisma
      ensures Valid(prisma.Snapshot())
      ensures
        var s := AuthSpec.Refresh(old(prisma.Snapshot()), ttl, token, agent, issued);
        prisma.Snapshot() == s.db && r == s.result
    {
      if token !in prisma.tokens {
        return Err(Unauthorized);
      }
      if issued.refreshToken != token && issued.refreshToken in prisma.tokens {
        return Err(Unauthorized);
      }
      var row := prisma.tokens[token];
      prisma.tokens := (prisma.tokens - {token})[issued.refreshToken := row.(agent := UpdatedAgent(row.agent, agent))];
      r := Ok(SignedIn(issued.accessToken, issued.refreshToken, ttl));
    }

    /** The nightly sweep; `count` is the number it logs. */
    method Clean(now: int) returns (count: nat)
      requires Valid(prisma.Snapshot())
      modifies prisma
      ensures Valid(prisma.Snapshot())
      ensures
        var s := AuthSpec.Clean(old(prisma.Snapshot()), now);
        prisma.Snapshot() == s.db && Ok(count) == s.result
    {
      ghost var db := prisma.Snapshot();
      var before := |prisma.tokens|;
      SweepPartition(prisma.tokens, now);
      prisma.tokens := Unexpired(prisma.tokens, now);
      count := before - |prisma.tokens|;
      assert Ok(count) == AuthSpec.Clean(db, now).result;
    }
  }
}
