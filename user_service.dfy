/** src/api/user/user.service.ts: updates of the authenticated user's own record, returned
    without `password` and `secret` and with the user's tokens. Neither Prisma call is
    awaited inside a `try`, so every failure (no such user, a unique email or mobile
    already taken) surfaces as Internal. */
module UserSpec {
  import opened Wrappers
  import opened Schema

  /** `UpdateUserDto`: every field optional. */
  datatype UpdateUserDto = UpdateUserDto(name: Option<string>, surname: Option<string>, avatar: Option<string>,
                                         mobile: Option<string>, email: Option<string>, password: Option<string>)

  function Or<T>(o: Option<T>, default: T): T
  {
    if o.Some? then o.value else default
  }

  /** `data: dto`: the supplied fields, as given; the password is written as sent. */
  function Apply(u: User, dto: UpdateUserDto): User
  {
    u.(name := Or(dto.name, u.name), surname := Or(dto.surname, u.surname),
       avatar := if dto.avatar.Some? then dto.avatar else u.avatar,
       mobile := Or(dto.mobile, u.mobile), email := Or(dto.email, u.email),
       password := Or(dto.password, u.password))
  }

  /** Another record already holds the email or the mobile the update would write. */
  predicate Clash(db: Db, id: int, u: User)
  {
    exists other :: other in db.users && other != id &&
      (db.users[other].email == u.email || db.users[other].mobile == u.mobile)
  }

  /** `avatar`: only the user's `avatar` becomes the stored file's path. */
  function Avatar(db: Db, path: string, user: int): (r: Step<UserView>)
    requires Valid(db)
    ensures Valid(r.db) && r.mail == None
    ensures r.result.Ok? <==> user in db.users
    ensures r.result.Err? ==> r.result.error == Internal && r.db == db
    ensures r.result.Ok? ==>
      && r.db == db.(users := db.users[user := db.users[user].(avatar := Some(path))])
      && r.result.value == View(db, user).(avatar := Some(path))
  {
    if user !in db.users then Step(db, Err(Internal), None)
    else
      var db' := db.(users := db.users[user := db.users[user].(avatar := Some(path))]);
      Step(db', Ok(View(db', user)), None)
  }

  /** `update`: exactly the DTO's fields are written onto the user's record. */
  function Update(db: Db, dto: UpdateUserDto, user: int): (r: Step<UserView>)
    requires Valid(db)
    ensures Valid(r.db) && r.mail == None
    ensures r.result.Ok? <==> user in db.users && !Clash(db, user, Apply(db.users[user], dto))
    ensures r.result.Err? ==> r.result.error == Internal && r.db == db
    ensures r.result.Ok? ==>
      user in r.db.users &&
      var (before, after) := (db.users[user], r.db.users[user]);
      && r.db == db.(users := db.users[user := after])
      && after.name == Or(dto.name, before.name) && after.surname == Or(dto.surname, before.surname)
      && after.email == Or(dto.email, before.email) && after.mobile == Or(dto.mobile, before.mobile)
      && after.avatar == (if dto.avatar.Some? then dto.avatar else before.avatar)
      && after.password == Or(dto.password, before.password)
      && after.(name := before.name, surname := before.surname, email := before.email,
                mobile := before.mobile, avatar := before.avatar, password := before.password) == before
      && r.result.value == View(r.db, user)
  {
    if user !in db.users then Step(db, Err(Internal), None)
    else
      var u := Apply(db.users[user], dto);
      if Clash(db, user, u) then Step(db, Err(Internal), None)
      else
        var db' := db.(users := db.users[user := u]);
        Step(db', Ok(View(db', user)), None)
  }

  /** Both results carry the user's tokens, unchanged by the update. */
  lemma ResultsCarryTokens(db: Db, path: string, dto: UpdateUserDto, user: int)
    requires Valid(db)
    ensures Avatar(db, path, user).result.Ok? ==> Avatar(db, path, user).result.value.tokens == TokensOf(db, user)
    ensures Update(db, dto, user).result.Ok? ==> Update(db, dto, user).result.value.tokens == TokensOf(db, user)
  {
  }

  /** What `update` returns does not depend on the password sent, nor on the secret
      stored: neither reaches the caller. */
  lemma UpdateHidesCredentials(db: Db, dto: UpdateUserDto, user: int, password: string, secret: Option<string>)
    requires Valid(db) && user in db.users
    requires var u := db.users[user].(secret := secret); Valid(db.(users := db.users[user := u]))
    ensures
      var db2 := db.(users := db.users[user := db.users[user].(secret := secret)]);
      Update(db2, dto.(password := Some(password)), user).result == Update(db, dto.(password := None), user).result
  {
    var db2 := db.(users := db.users[user := db.users[user].(secret := secret)]);
    var u1 := Apply(db2.users[user], dto.(password := Some(password)));
    var u0 := Apply(db.users[user], dto.(password := None));
    assert u1 == u0.(password := password, secret := secret);
    assert u1.email == u0.email && u1.mobile == u0.mobile;
    assert forall other :: other in db2.users && other != user ==> db2.users[other] == db.users[other];
    assert Clash(db2, user, u1) == Clash(db, user, u0);
    if !Clash(db, user, u0) {
      var a := db2.(users := db2.users[user := u1]);
      var b := db.(users := db.users[user := u0]);
      assert a.users == b.users[user := b.users[user].(password := password, secret := secret)];
      ViewOmitsCredentials(b, user, password, secret);
    }
  }

  /** A password changed through `update` is stored as sent, not hashed. */
  lemma PasswordStoredAsSent(db: Db, dto: UpdateUserDto, user: int)
    requires Valid(db)
    requires Update(db, dto, user).result.Ok? && dto.password.Some?
    ensures Update(db, dto, user).db.users[user].password == dto.password.value
  {
  }
}

/** The service: each method updates the user table of the Prisma client in place, to
    the state UserSpec gives. */
module Users {
  import opened Wrappers
  import opened Schema
  import opened UserSpec

  class UserService {
    const prisma: Prisma

    constructor (prisma: Prisma)
      ensures this.prisma == prisma
    {
      this.prisma := prisma;
    }

    method Avatar(path: string, user: int) returns (r: Result<UserView>)
      requires Valid(prisma.Snapshot())
      modifies prisma
      ensures var s := UserSpec.Avatar(old(prisma.Snapshot()), path, user); prisma.Snapshot() == s.db && r == s.result
    {
      if user !in prisma.users {
        return Err(Internal);
      }
      prisma.users := prisma.users[user := prisma.users[user].(avatar := Some(path))];
      r := Ok(View(prisma.Snapshot(), user));
    }

    method Update(dto: UpdateUserDto, user: int) returns (r: Result<UserView>)
      requires Valid(prisma.Snapshot())
      modifies prisma
      ensures var s := UserSpec.Update(old(prisma.Snapshot()), dto, user); prisma.Snapshot() == s.db && r == s.result
    {
      if user !in prisma.users {
        return Err(Internal);
      }
      var u := Apply(prisma.users[user], dto);
      if Clash(prisma.Snapshot(), user, u) {
        return Err(Internal);
      }
      prisma.users := prisma.users[user := u];
      r := Ok(View(prisma.Snapshot(), user));
    }
  }
}
