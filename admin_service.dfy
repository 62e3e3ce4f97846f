/** src/api/auth/admin.service.ts: seeding the administrator account at startup, and the
    one-time password it mails. `randomBytes(6)` is the parameter `random`, and the
    configured ADMIN_EMAIL and ADMIN_MOBILE are fields of the service. */
module Admin {
  import opened Wrappers
  import opened Bcrypt
  import opened Schema
  import opened Base64
  import AuthSpec

  /** `s.slice(0, n)` for non-negative bounds. */
  function Slice(s: string, n: nat): (r: string)
    ensures |r| == if |s| < n then |s| else n
    ensures r == s[..|r|]
  {
    if |s| < n then s else s[..n]
  }

  /** `randomBytes(6).toString('base64').slice(0, 10)`. */
  function GeneratePassword(random: seq<byte>): (password: string)
    requires |random| == 6
    ensures |password| == 8
    ensures AllAlphabet(password) && '=' !in password
    ensures password == Encode(random)
  {
    DecodeEncode(random);
    Slice(Encode(random), 10)
  }

  /** The six random bytes can be read back from the password: it carries all 48 bits. */
  lemma PasswordKeepsRandomness(random: seq<byte>)
    requires |random| == 6
    ensures Decode(GeneratePassword(random)) == random
  {
    DecodeEncode(random);
  }

  /** `findUnique({ where: { email, roles: { some: { role: admin } } } })` finds a record. */
  predicate AdminExists(db: Db, email: string)
  {
    exists id :: id in db.users && db.users[id].email == email && Admin in db.users[id].roles
  }

  /** Some record holds the email or the mobile, so creating another violates the
      unique columns. */
  predicate Taken(db: Db, email: string, mobile: string)
  {
    exists id :: id in db.users && (db.users[id].email == email || db.users[id].mobile == mobile)
  }

  /** The record `user.create` writes. */
  function AdminUser(id: int, email: string, mobile: string, hash: string): User
  {
    User(id, "admin", "", email, mobile, hash, None, true, true, None, None, [Admin])
  }

  /** `onApplicationBootstrap`. A failing `user.create` is not caught: startup fails with
      nothing written and nothing mailed. */
  ghost function Bootstrap(db: Db, crypt: Crypt, email: string, mobile: string, password: string): (r: Step<Success>)
    requires Valid(db)
    ensures Valid(r.db)
    ensures AdminExists(db, email) ==> r == Step(db, Ok(Success), None)
    ensures r.result.Err? <==> !AdminExists(db, email) && Taken(db, email, mobile)
    ensures r.result.Err? ==> r.result.error == Internal && r.db == db && r.mail == None
    ensures r.result.Ok? && !AdminExists(db, email) ==>
      var id := db.nextUserId;
      && id !in db.users
      && r.db == db.(users := db.users[id := AdminUser(id, email, mobile, crypt.hash(password))], nextUserId := id + 1)
      && r.mail == Some(AdminMail(email, password))
  {
    if AdminExists(db, email) then Step(db, Ok(Success), None)
    else if Taken(db, email, mobile) then Step(db, Err(Internal), None)
    else
      var id := db.nextUserId;
      Step(db.(users := db.users[id := AdminUser(id, email, mobile, crypt.hash(password))], nextUserId := id + 1),
           Ok(Success), Some(AdminMail(email, password)))
  }

  /** A second bootstrap after a successful one changes nothing and mails nothing,
      whatever password it would have generated. */
  lemma BootstrapOnce(db: Db, crypt: Crypt, email: string, mobile: string, first: string, second: string)
    requires Valid(db)
    requires Bootstrap(db, crypt, email, mobile, first).result.Ok?
    ensures
      var db' := Bootstrap(db, crypt, email, mobile, first).db;
      Bootstrap(db', crypt, email, mobile, second) == Step(db', Ok(Success), None)
  {
    var db' := Bootstrap(db, crypt, email, mobile, first).db;
    if !AdminExists(db, email) {
      var id := db.nextUserId;
      assert db'.users[id].email == email && Admin in db'.users[id].roles;
    }
  }

  /** The mailed password opens the seeded account: signin with it succeeds. */
  lemma MailedPasswordSignsIn(db: Db, crypt: Crypt, email: string, mobile: string, password: string,
                              ttl: nat, agent: Option<string>, now: int, issued: AuthSpec.Issued)
    requires Valid(db) && Sound(crypt)
    requires !AdminExists(db, email) && !Taken(db, email, mobile)
    requires issued.refreshToken !in db.tokens
    ensures
      var s := Bootstrap(db, crypt, email, mobile, password);
      s.mail == Some(AdminMail(email, password)) &&
      AuthSpec.Signin(s.db, crypt, ttl, AuthSpec.SignInDto(Some(email), s.mail.value.password), agent, now, issued).result.Ok?
  {
    var s := Bootstrap(db, crypt, email, mobile, password);
    var id := db.nextUserId;
    assert AuthSpec.CanSignIn(s.db, email, id);
    assert crypt.compare(password, s.db.users[id].password);
  }

  class AdminService {
    const prisma: Prisma
    const mailer: Mailer
    const crypt: Crypt
    /** `config.getOrThrow('ADMIN_EMAIL')` and `config.getOrThrow('ADMIN_MOBILE')`. */
    const adminEmail: string
    const adminMobile: string

    constructor (prisma: Prisma, mailer: Mailer, crypt: Crypt, adminEmail: string, adminMobile: string)
      ensures this.prisma == prisma && this.mailer == mailer && this.crypt == crypt
      ensures this.adminEmail == adminEmail && this.adminMobile == adminMobile
    {
      this.prisma, this.mailer, this.crypt := prisma, mailer, crypt;
      this.adminEmail, this.adminMobile := adminEmail, adminMobile;
    }

    /** Seeds the admin if absent; `random` is what `randomBytes(6)` would return. */
    method OnApplicationBootstrap(random: seq<byte>) returns (r: Result<Success>)
      requires Valid(prisma.Snapshot()) && |random| == 6
      modifies prisma, mailer
      ensures Valid(prisma.Snapshot())
      ensures
        var s := Bootstrap(old(prisma.Snapshot()), crypt, adminEmail, adminMobile, GeneratePassword(random));
        prisma.Snapshot() == s.db && r == s.result && mailer.outbox == old(mailer.outbox) + MailsOf(s.mail)
    {
      if AdminExists(prisma.Snapshot(), adminEmail) {
        return Ok(Success);
      }
      var password := GeneratePassword(random);
      var passwordHash := crypt.hash(password);
      if Taken(prisma.Snapshot(), adminEmail, adminMobile) {
        return Err(Internal);
      }
      var id := prisma.nextUserId;
      prisma.users := prisma.users[id := AdminUser(id, adminEmail, adminMobile, passwordHash)];
      prisma.nextUserId := id + 1;
      mailer.outbox := mailer.outbox + [AdminMail(adminEmail, password)];
      r := Ok(Success);
    }
  }
}
