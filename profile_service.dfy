/** src/api/profile/profile.service.ts: the profile of a user, at most one per user (the
    profile table is keyed by the owner's id). `user` is the id of the authenticated
    principal. A Prisma call whose promise is returned without `await` inside `try`
    escapes the `catch`: its failure surfaces as Internal, not BadRequest. */
module ProfileSpec {
  import opened Wrappers
  import opened Schema

  /** `ProfileCreateDto`; `gender` defaults to MALE when the body leaves it out. */
  datatype ProfileCreateDto = ProfileCreateDto(name: string, surname: string, gender: Gender, birthday: string,
                                               country: string, mobile: string, phone: string)

  /** `ProfileUpdateDto` as the validation pipe hands it over: the class initializer has
      already put MALE in `gender` when the body left it out, so it is always present.
      `country` carries Nest's injection decorator `@Optional()`, not class-validator's
      `@IsOptional()`, so `@IsString()` still demands it and it is always present too. */
  datatype ProfileUpdateDto = ProfileUpdateDto(name: Option<string>, surname: Option<string>, gender: Gender,
                                               birthday: Option<string>, country: string,
                                               mobile: Option<string>, phone: Option<string>)

  /** A request body of the update route, before the pipe turns it into the DTO. */
  datatype ProfileUpdateBody = ProfileUpdateBody(name: Option<string>, surname: Option<string>, gender: Option<Gender>,
                                                 birthday: Option<string>, country: string,
                                                 mobile: Option<string>, phone: Option<string>)

  /** `plainToInstance(ProfileUpdateDto, body)`: the body's fields over a fresh instance. */
  function ToUpdateDto(body: ProfileUpdateBody): (dto: ProfileUpdateDto)
    ensures body.gender.None? ==> dto.gender == Male
    ensures body.gender.Some? ==> dto.gender == body.gender.value
  {
    ProfileUpdateDto(body.name, body.surname, if body.gender.Some? then body.gender.value else Male,
                     body.birthday, body.country, body.mobile, body.phone)
  }

  function Or<T>(o: Option<T>, default: T): T
  {
    if o.Some? then o.value else default
  }

  /** `data: { ...dto }`: the fields the DTO supplies over the stored ones. */
  function Apply(p: Profile, dto: ProfileUpdateDto): Profile
  {
    p.(name := Or(dto.name, p.name), surname := Or(dto.surname, p.surname), gender := dto.gender,
       birthday := Or(dto.birthday, p.birthday), country := dto.country,
       mobile := Or(dto.mobile, p.mobile), phone := Or(dto.phone, p.phone))
  }

  /** `create`: BadRequest when the user already has a profile; otherwise one profile
      holding the DTO's fields, linked to the user. Connecting to a user that does not
      exist fails outside the `catch`. */
  function Create(db: Db, dto: ProfileCreateDto, user: int): (r: Step<Profile>)
    requires Valid(db)
    ensures Valid(r.db) && r.mail == None
    ensures r.result == Err(BadRequest) <==> user in db.profiles
    ensures r.result == Err(Internal) <==> user !in db.users
    ensures r.result.Ok? <==> user in db.users && user !in db.profiles
    ensures r.result.Err? ==> r.db == db
    ensures r.result.Ok? ==>
      && user !in db.profiles
      && r.result.value == Profile(db.nextProfileId, user, dto.name, dto.surname, dto.gender, dto.birthday,
                                   dto.country, dto.mobile, dto.phone, None)
      && r.db == db.(profiles := db.profiles[user := r.result.value], nextProfileId := db.nextProfileId + 1)
  {
    if user in db.profiles then Step(db, Err(BadRequest), None)
    else if user !in db.users then Step(db, Err(Internal), None)
    else
      var p := Profile(db.nextProfileId, user, dto.name, dto.surname, dto.gender, dto.birthday,
                       dto.country, dto.mobile, dto.phone, None);
      Step(db.(profiles := db.profiles[user := p], nextProfileId := db.nextProfileId + 1), Ok(p), None)
  }

  /** `update`: the profile of the user gets the supplied fields; a user without a
      profile makes `profile.update` fail outside the `catch`. */
  function Update(db: Db, dto: ProfileUpdateDto, user: int): (r: Step<Profile>)
    requires Valid(db)
    ensures Valid(r.db) && r.mail == None
    ensures r.result.Ok? <==> user in db.profiles
    ensures r.result.Err? ==> r.result.error == Internal && r.db == db
    ensures r.result.Ok? ==>
      && r.db == db.(profiles := db.profiles[user := r.result.value])
      && r.result.value.id == db.profiles[user].id && r.result.value.userId == user
      && r.result.value.avatar == db.profiles[user].avatar
      && r.result.value.gender == dto.gender
      && var (before, after) := (db.profiles[user], r.result.value);
      && after.name == (if dto.name.Some? then dto.name.value else before.name)
      && after.surname == (if dto.surname.Some? then dto.surname.value else before.surname)
      && after.birthday == (if dto.birthday.Some? then dto.birthday.value else before.birthday)
      && after.country == dto.country
      && after.mobile == (if dto.mobile.Some? then dto.mobile.value else before.mobile)
      && after.phone == (if dto.phone.Some? then dto.phone.value else before.phone)
  {
    if user !in db.profiles then Step(db, Err(Internal), None)
    else
      var p := Apply(db.profiles[user], dto);
      Step(db.(profiles := db.profiles[user := p]), Ok(p), None)
  }

  /** `avatar`: BadRequest when the user has no profile; otherwise only the profile's
      `avatar` becomes the stored file's path. */
  function Avatar(db: Db, path: string, user: int): (r: Step<Profile>)
    requires Valid(db)
    ensures Valid(r.db) && r.mail == None
    ensures r.result.Ok? <==> user in db.profiles
    ensures r.result.Err? ==> r.result.error == BadRequest && r.db == db
    ensures r.result.Ok? ==>
      && r.result.value == db.profiles[user].(avatar := Some(path))
      && r.db == db.(profiles := db.profiles[user := r.result.value])
  {
    if user !in db.profiles then Step(db, Err(BadRequest), None)
    else
      var p := db.profiles[user].(avatar := Some(path));
      Step(db.(profiles := db.profiles[user := p]), Ok(p), None)
  }

  /** A second `create` for the same user fails, whatever it carries. */
  lemma SecondProfileRefused(db: Db, first: ProfileCreateDto, second: ProfileCreateDto, user: int)
    requires Valid(db)
    requires Create(db, first, user).result.Ok?
    ensures Create(Create(db, first, user).db, second, user) == Step(Create(db, first, user).db, Err(BadRequest), None)
  {
  }

  /** An update whose body leaves out `gender` resets it to MALE. */
  lemma UpdateResetsGender(db: Db, body: ProfileUpdateBody, user: int)
    requires Valid(db) && user in db.profiles && body.gender.None?
    ensures Update(db, ToUpdateDto(body), user).result.value.gender == Male
  {
  }

  /** Updating fields never touches the avatar, and setting the avatar never touches the
      fields: the two operations commute. */
  lemma UpdateAvatarCommute(db: Db, dto: ProfileUpdateDto, path: string, user: int)
    requires Valid(db) && user in db.profiles
    ensures
      var a := Avatar(Update(db, dto, user).db, path, user);
      var b := Update(Avatar(db, path, user).db, dto, user);
      a.db == b.db && a.result == b.result
  {
    var p := db.profiles[user];
    var both := Apply(p, dto).(avatar := Some(path));
    ApplyKeepsAvatar(p, dto, path);
    var u := Update(db, dto, user);
    assert u.db.profiles == db.profiles[user := Apply(p, dto)];
    var a := Avatar(u.db, path, user);
    assert a.db.profiles == db.profiles[user := both] && a.result == Ok(both);
    var v := Avatar(db, path, user);
    assert v.db.profiles == db.profiles[user := p.(avatar := Some(path))];
    var b := Update(v.db, dto, user);
    assert b.db.profiles == db.profiles[user := both] && b.result == Ok(both);
  }

  lemma ApplyKeepsAvatar(p: Profile, dto: ProfileUpdateDto, path: string)
    ensures Apply(p, dto).(avatar := Some(path)) == Apply(p.(avatar := Some(path)), dto)
  {
  }
}

/** The service itself: each method updates the profile table of the Prisma client in
    place, to the state ProfileSpec gives. */
module Profiles {
  import opened Wrappers
  import opened Schema
  import opened ProfileSpec

  class ProfileService {
    const prisma: Prisma

    constructor (prisma: Prisma)
      ensures this.prisma == prisma
    {
      this.prisma := prisma;
    }

    method Create(dto: ProfileCreateDto, user: int) returns (r: Result<Profile>)
      requires Valid(prisma.Snapshot())
      modifies prisma
      ensures var s := ProfileSpec.Create(old(prisma.Snapshot()), dto, user); prisma.Snapshot() == s.db && r == s.result
    {
      if user in prisma.profiles {
        return Err(BadRequest);
      }
      if user !in prisma.users {
        return Err(Internal);
      }
      var p := Profile(prisma.nextProfileId, user, dto.name, dto.surname, dto.gender, dto.birthday,
                       dto.country, dto.mobile, dto.phone, None);
      prisma.profiles := prisma.profiles[user := p];
      prisma.nextProfileId := prisma.nextProfileId + 1;
      r := Ok(p);
    }

    method Update(dto: ProfileUpdateDto, user: int) returns (r: Result<Profile>)
      requires Valid(prisma.Snapshot())
      modifies prisma
      ensures var s := ProfileSpec.Update(old(prisma.Snapshot()), dto, user); prisma.Snapshot() == s.db && r == s.result
    {
      if user !in prisma.profiles {
        return Err(Internal);
      }
      var p := Apply(prisma.profiles[user], dto);
      prisma.profiles := prisma.profiles[user := p];
      r := Ok(p);
    }

    method Avatar(path: string, user: int) returns (r: Result<Profile>)
      requires Valid(prisma.Snapshot())
      modifies prisma
      ensures var s := ProfileSpec.Avatar(old(prisma.Snapshot()), path, user); prisma.Snapshot() == s.db && r == s.result
    {
      if user !in prisma.profiles {
        return Err(BadRequest);
      }
      var p := prisma.profiles[user].(avatar := Some(path));
      prisma.profiles := prisma.profiles[user := p];
      r := Ok(p);
    }
  }
}
