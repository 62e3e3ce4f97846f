/** The tables of the first schema revision, as the auth service, the Jwt* guards and
    strategies, the admin seeding, the profile service and the user service see them
    (the profile service takes its principal type from the later guard, but reads only
    its `id`):
    users (with `confirmed` and a confirmation `secret`), tokens keyed by their
    `refreshToken`, and profiles keyed by the owning user's id. */
module Schema {
  import opened Wrappers

  /** `$Enums.Role`; only `admin` is named by the core. */
  datatype Role = Admin | OtherRole(name: string)

  /** `GenderEnum`; only `MALE` is named by the core. */
  datatype Gender = Male | OtherGender(name: string)

  datatype User = User(
    id: int,
    name: string,
    surname: string,
    email: string,
    mobile: string,
    password: string,        // bcrypt hash
    secret: Option<string>,  // confirmation secret, null once confirmed
    active: bool,
    confirmed: bool,
    deletedAt: Option<int>,
    avatar: Option<string>,
    roles: seq<Role>)

  /** A row of the token table; its `refreshToken` is the key under which it is stored. */
  datatype Session = Session(agent: Option<string>, expiredAt: int, userId: int)

  datatype Profile = Profile(
    id: int,
    userId: int,
    name: string,
    surname: string,
    gender: Gender,
    birthday: string,
    country: string,
    mobile: string,
    phone: string,
    avatar: Option<string>)

  /** A snapshot of the database. `nextUserId` and `nextProfileId` are the
      autoincrement sequences. */
  datatype Db = Db(
    users: map<int, User>,
    tokens: map<string, Session>,
    profiles: map<int, Profile>,
    nextUserId: int,
    nextProfileId: int)

  /** The constraints the database enforces: primary keys from the sequences, unique
      email, mobile and secret, and the foreign keys of tokens and profiles. */
  ghost predicate Valid(db: Db)
  {
    && 1 <= db.nextUserId && 1 <= db.nextProfileId
    && (forall id :: id in db.users ==> db.users[id].id == id && 1 <= id < db.nextUserId)
    && (forall a, b :: a in db.users && b in db.users && a != b ==>
          db.users[a].email != db.users[b].email &&
          db.users[a].mobile != db.users[b].mobile &&
          (db.users[a].secret.Some? ==> db.users[a].secret != db.users[b].secret))
    && (forall t :: t in db.tokens ==> db.tokens[t].userId in db.users)
    && (forall u :: u in db.profiles ==>
          u in db.users && db.profiles[u].userId == u && 1 <= db.profiles[u].id < db.nextProfileId)
    && (forall a, b :: a in db.profiles && b in db.profiles && a != b ==>
          db.profiles[a].id != db.profiles[b].id)
  }

  /** The token rows of one user (`include: { tokens: true }`). */
  function TokensOf(db: Db, id: int): (ts: map<string, Session>)
    ensures forall t :: t in ts <==> t in db.tokens && db.tokens[t].userId == id
    ensures forall t :: t in ts ==> ts[t] == db.tokens[t]
  {
    map t | t in db.tokens && db.tokens[t].userId == id :: db.tokens[t]
  }

  /** A user record as the API returns it: `omit: { secret: true, password: true }`
      and `include: { tokens: true }`. */
  datatype UserView = UserView(
    id: int,
    name: string,
    surname: string,
    email: string,
    mobile: string,
    active: bool,
    confirmed: bool,
    deletedAt: Option<int>,
    avatar: Option<string>,
    roles: seq<Role>,
    tokens: map<string, Session>)

  function View(db: Db, id: int): UserView
    requires id in db.users
  {
    var u := db.users[id];
    UserView(u.id, u.name, u.surname, u.email, u.mobile, u.active, u.confirmed,
             u.deletedAt, u.avatar, u.roles, TokensOf(db, id))
  }

  /** The projection does not depend on the password hash or the secret: changing them
      leaves every view unchanged. */
  lemma ViewOmitsCredentials(db: Db, id: int, password: string, secret: Option<string>)
    requires id in db.users
    ensures
      var db' := db.(users := db.users[id := db.users[id].(password := password, secret := secret)]);
      View(db', id) == View(db, id)
  {
  }

  /** `findUnique({ where: { id, active: true, confirmed: true } })` finds a record. */
  predicate ActiveConfirmed(db: Db, id: int)
  {
    id in db.users && db.users[id].active && db.users[id].confirmed
  }

  /** What a service call does to the database: the new snapshot, the value returned
      or the exception thrown, and the mail it hands to the mailer. */
  datatype Step<T> = Step(db: Db, result: Result<T>, mail: Option<Mail>)

  /** The two mails of the core: the confirmation mail of signup (template 'confirm')
      and the password mail of the admin seeding (template 'admin'). */
  datatype Mail = ConfirmMail(to: string, name: string, secret: string)
                | AdminMail(to: string, password: string)

  function MailsOf(m: Option<Mail>): seq<Mail>
  {
    if m.Some? then [m.value] else []
  }

  /** The Prisma client: the tables, updated in place by the services. */
  class Prisma {
    var users: map<int, User>
    var tokens: map<string, Session>
    var profiles: map<int, Profile>
    var nextUserId: int
    var nextProfileId: int

    constructor ()
      ensures Snapshot() == Db(map[], map[], map[], 1, 1)
      ensures Valid(Snapshot())
    {
      users, tokens, profiles := map[], map[], map[];
      nextUserId, nextProfileId := 1, 1;
    }

    function Snapshot(): Db
      reads this
    {
      Db(users, tokens, profiles, nextUserId, nextProfileId)
    }
  }

  /** The mail transport; what it has been asked to send. */
  class Mailer {
    ghost var outbox: seq<Mail>

    constructor ()
      ensures outbox == []
    {
      outbox := [];
    }
  }
}
