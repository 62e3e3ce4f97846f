# motor: authentication and session core, modelled in Dafny

This project models the authentication and session core of the `motor` NestJS REST
API. The database is reached through Prisma. The model covers:

- the auth service: signup, signin, signout, confirm, remove, refresh, and the nightly
  sweep of expired tokens;
- the request guards of both schema revisions, the Passport strategies and the roles
  guard;
- the seeding of the administrator account at startup, with its generated password;
- the profile and user update services;
- the upload options: stored file name, mimetype filter and size limit;
- the `@Matches` checks and the `envConfig` projection of the environment schema.

The database is a snapshot value `Schema.Db` of maps, as the pure transition functions
see it (`AuthSpec`, `ProfileSpec`, `UserSpec`, `Admin.Bootstrap`). It is also a
`Schema.Prisma` object whose map fields the service classes update in place. Each
service method's postcondition ties its new state, its result and the mail it sends to
its transition function. The lemmas that relate several calls are proved about those
functions: replay, revocation, round trips, sweep boundaries.

The two schema revisions of the source are kept apart:

- Revision one: users with `confirmed`, tokens keyed by `refreshToken`, JWT payload
  `userId`. The auth service, `JwtAccessGuard`, `JwtRefreshGuard` and both strategies
  use it.
- Revision two: `token`, `type` and `usedAt` on the token row, `verified` on the user,
  payload `sub`. The module `AuthGuard` models `src/api/auth/auth.guard.ts` on its own
  tables.

External services appear as parameters:

- bcrypt is a pair of functions `Crypt(hash, compare)`. `Sound(c)` states that a
  password matches its own hash.
- Signing a JWT is the pair of fresh strings `Issued`.
- `jwt.verify` is a function from a token to `Option<Claims>`, where `None` means it
  throws.
- `Date.now()` / `new Date()` is `now`.
- `ms(JWT_REFRESH_EXPIRES)` is `ttl`.
- `randomUUID()` is `secret`.
- `randomBytes(6)` is a sequence of six bytes.

Thrown Nest exceptions are `Err(BadRequest)`, `Err(Unauthorized)` and `Err(Forbidden)`.
`Err(Internal)` stands for a Prisma rejection that no `catch` turns into one of those.

The model keeps these behaviours of the source as written and states them as lemmas:

- Refreshing never extends a session's expiry: `AuthSpec.RefreshKeepsExpiry`.
- The first-revision refresh guard never consults the token table, so a signed-out
  token still passes it: `JwtRefreshGuard.SignedOutTokenStillPasses`.
- The refresh strategy returns the literal `true` when the user is gone:
  `JwtRefreshStrategy.RemovedUserYieldsTrue`.
- The access guard never compares the session's owner with the token's subject:
  `JwtAccessGuard.SessionOwnerNotChecked`.
- `usedAt` is recorded but never consulted: `AuthGuard.AcceptedAgain`.
- The roles guard reads `roles` from a principal that has none:
  `RoleGuard.GuardPrincipalRefused`.
- A profile update without a gender resets it to MALE: `ProfileSpec.UpdateResetsGender`.
- `country` of the profile update is marked with Nest's `@Optional()` rather than
  `@IsOptional()`, so `@IsString()` still requires it: `ProfileSpec.ProfileUpdateDto`
  always carries a country and every update writes it.
- A password sent to the user update is stored unhashed: `UserSpec.PasswordStoredAsSent`.

## Model

| member | source | states |
|---|---|---|
| Http.BearerToken | src/api/auth/guards/jwt-access.guard.ts:19-20 | a token is extracted iff the header starts with "Bearer " followed by a non-space; the token is non-empty, has no space, and is exactly the header's second space-separated piece |
| Http.BearerSplit | src/api/auth/auth.guard.ts:29-30 | how `split(' ')` of the header relates to its text: first piece "Bearer" plus a space iff the header starts with "Bearer ", and the second piece is the text up to the next space |
| Http.RefreshCookie | src/api/auth/guards/jwt-access.guard.ts:22-23 | the refresh cookie is accepted iff it is present and non-empty, and it is returned unchanged |
| Strings.JoinSplit | src/api/auth/auth.guard.ts:29 | splitting on a separator and joining with it gives the string back |
| Strings.SplitPiecesHaveNoSeparator | src/api/auth/auth.guard.ts:29 | no piece of a split contains the separator |
| Schema.TokensOf | src/api/auth/guards/jwt-access.guard.ts:35-39 | `include: { tokens: true }` is exactly the token rows whose owner is the user |
| Schema.ViewOmitsCredentials | src/api/auth/guards/jwt-access.guard.ts:35-39 | the returned user record does not depend on the password hash or the secret |
| AuthSpec.Signup | src/api/auth/auth.service.ts:25-46 | BadRequest iff the email or mobile is taken; Internal iff only the secret clashes; Ok iff neither: then exactly one new user at the next id, the record fixed field by field (the DTO's fields, the hash, the secret, inactive, unconfirmed, no avatar, no deletedAt, no roles), and the confirmation mail to its email |
| AuthSpec.UserByEmail | src/api/auth/auth.service.ts:49-51 | finds a user iff an active, confirmed user has that email, and the one found qualifies |
| AuthSpec.CanSignInUnique | src/api/auth/auth.service.ts:49-51 | at most one user can sign in with a given email |
| AuthSpec.Signin | src/api/auth/auth.service.ts:48-73 | a body without `email` (username only) fails with Internal, because the `findUnique` then has no unique field; BadRequest iff no active, confirmed user with the given email has a matching password; Internal when the password matches but the issued refresh token is already stored (the uncaught unique clash); on success one session row for that user expiring at now + ttl, and the issued tokens with maxAge ttl; users untouched |
| AuthSpec.Signout | src/api/auth/auth.service.ts:75-85 | succeeds iff the row exists, deletes exactly it, else Unauthorized with no change |
| AuthSpec.Confirm | src/api/auth/auth.service.ts:87-98 | succeeds iff some user holds the secret; that user becomes active and confirmed and loses the secret; afterwards no user holds it; else BadRequest |
| AuthSpec.ConfirmReplayFails | src/api/auth/auth.service.ts:87-98 | confirming twice with the same secret fails the second time |
| AuthSpec.TokensNotOf | src/api/auth/auth.service.ts:111-113 | `deleteMany({ where: { userId } })` keeps exactly the rows of other users, unchanged |
| AuthSpec.Remove | src/api/auth/auth.service.ts:104-120 | for an existing user both writes of the transaction happen: deactivated, deletedAt = now, no token row left, other rows kept; otherwise BadRequest and nothing changes |
| AuthSpec.RemovedUserCannotSignIn | src/api/auth/auth.service.ts:104-120 | after remove, signin with the user's email fails whatever the password |
| AuthSpec.Refresh | src/api/auth/auth.service.ts:122-139 | succeeds iff the presented row exists and the new token is not another row's; the row moves to the new token, with the new agent when one is given and its stored agent otherwise, everything else unchanged; else Unauthorized with no change |
| AuthSpec.RefreshReplayFails | src/api/auth/auth.service.ts:129-133 | presenting a rotated-away token again fails with Unauthorized |
| AuthSpec.RefreshKeepsExpiry | src/api/auth/auth.service.ts:130-133 | the rotated row keeps the original expiry and owner, and without an agent it is the original row unchanged |
| AuthSpec.Unexpired | src/api/auth/auth.service.ts:157-159 | keeps exactly the rows with expiredAt >= now, unchanged |
| AuthSpec.SweepPartition | src/api/auth/auth.service.ts:157-161 | the rows kept and the rows deleted partition the table |
| AuthSpec.Clean | src/api/auth/auth.service.ts:153-162 | deletes exactly the rows with expiredAt < now, and the count it reports is their number |
| AuthSpec.SweepBoundary | src/api/auth/auth.service.ts:158 | a row expiring at now survives the sweep; one expiring before now does not |
| AuthSpec.SignupConfirmSignin | src/api/auth/auth.service.ts:25-73 | a fresh signup, confirmed with the mailed secret, signs in with its password; the account is then active and confirmed with exactly one new session |
| AuthSpec.RotateThenSignout | src/api/auth/auth.service.ts:75-139 | refresh then signout with the rotated token removes exactly that session |
| AuthSpec.RefreshThenSignoutEndsSession | src/api/auth/auth.service.ts:75-139 | refreshing a user's only session and signing out with the rotated token leaves the user active and confirmed with no token row |
| AuthSpec.SessionLifecycle | src/api/auth/auth.service.ts:25-139 | signup, confirm, signin, refresh, signout leave the account active and confirmed with no token row, and the table as before |
| AuthSpec.SigninThenSignout | src/api/auth/auth.service.ts:48-85 | a successful signin followed by signout with the issued refresh token succeeds and gives back the database as it was |
| Auth.AuthService.Signup | src/api/auth/auth.service.ts:25-46 | the new tables, the result and the mail sent are those of AuthSpec.Signup; validity is kept |
| Auth.AuthService.Signin | src/api/auth/auth.service.ts:48-73 | the new tables and the result are those of AuthSpec.Signin |
| Auth.AuthService.Signout | src/api/auth/auth.service.ts:75-85 | the new tables and the result are those of AuthSpec.Signout |
| Auth.AuthService.Confirm | src/api/auth/auth.service.ts:87-98 | the new tables and the result are those of AuthSpec.Confirm |
| Auth.AuthService.Remove | src/api/auth/auth.service.ts:104-120 | the new tables and the result are those of AuthSpec.Remove |
| Auth.AuthService.Refresh | src/api/auth/auth.service.ts:122-139 | the new tables and the result are those of AuthSpec.Refresh |
| Auth.AuthService.Clean | src/api/auth/auth.service.ts:153-162 | the new tables and the logged count are those of AuthSpec.Clean |
| JwtAccessGuard.Decide | src/api/auth/guards/jwt-access.guard.ts:16-48 | accepts iff Bearer token and cookie are present, the token verifies, the cookie's row exists and the subject is active and confirmed; the principal is that user's record without credentials; every failure is Unauthorized |
| JwtAccessGuard.CanActivate | src/api/auth/guards/jwt-access.guard.ts:16-48 | returns true and writes the record to `req.user` exactly when Decide accepts; otherwise Unauthorized with `req.user` unchanged |
| JwtAccessGuard.SignedOutTokenRefused | src/api/auth/guards/jwt-access.guard.ts:30-33 | after signout the cookie no longer opens the guard |
| JwtAccessGuard.RotatedTokenRefused | src/api/auth/guards/jwt-access.guard.ts:30-33 | after refresh the old cookie is refused, and the new one passes exactly when the old one did |
| JwtAccessGuard.RemovedUserRefused | src/api/auth/guards/jwt-access.guard.ts:35-40 | after remove, the user's access token is refused |
| JwtAccessGuard.SessionOwnerNotChecked | src/api/auth/guards/jwt-access.guard.ts:30-42 | a live session of one user plus another user's access token is accepted as the latter |
| JwtRefreshGuard.Decide | src/api/auth/guards/jwt-refresh.guard.ts:16-40 | accepts iff the cookie is present, verifies, and names an active, confirmed user; every failure is Unauthorized |
| JwtRefreshGuard.CanActivate | src/api/auth/guards/jwt-refresh.guard.ts:16-40 | returns true and writes the record to `req.user` exactly when Decide accepts |
| JwtRefreshGuard.SignedOutTokenStillPasses | src/api/auth/guards/jwt-refresh.guard.ts:19-32 | signout does not change whether a request passes this guard |
| JwtRefreshGuard.ReplayStoppedByService | src/api/auth/guards/jwt-refresh.guard.ts:19-32 | a rotated-away token still passes the guard, but refresh with it fails |
| JwtAccessStrategy.Validate | src/api/auth/strategies/jwt-access.strategy.ts:41-50 | the user record iff the user is active, confirmed and has at least one token row, else null |
| JwtAccessStrategy.LastSignoutRefused | src/api/auth/strategies/jwt-access.strategy.ts:48 | signing out the last session makes validate return null |
| JwtRefreshStrategy.Validate | src/api/auth/strategies/jwt-refresh.strategy.ts:22-34 | Unauthorized iff the cookie is missing or empty; otherwise the record when the user is active, confirmed and has a token row, and the literal true in every other case |
| JwtRefreshStrategy.RemovedUserYieldsTrue | src/api/auth/strategies/jwt-refresh.strategy.ts:32 | after remove, validate returns the literal true instead of refusing |
| AuthGuard.Decide | src/api/auth/auth.guard.ts:26-57 | accepts iff both tokens are present and verify, name the same `sub`, and the cookie's row is a live REFRESH row of that active, verified user; the principal is the owner's id and email; every failure is Unauthorized |
| AuthGuard.Touch | src/api/auth/auth.guard.ts:47 | only the found row's usedAt changes, to now |
| AuthGuard.CanActivate | src/api/auth/auth.guard.ts:26-57 | on acceptance the row's usedAt becomes now and `req.user` the principal; on refusal nothing changes |
| AuthGuard.PrincipalIsSubject | src/api/auth/auth.guard.ts:38-51 | the principal is the user named by both tokens, and owns the cookie's row |
| AuthGuard.TouchKeepsValid | src/api/auth/auth.guard.ts:40-49 | recording usedAt keeps every row owned by a stored user |
| AuthGuard.AcceptedAgain | src/api/auth/auth.guard.ts:40-47 | a request accepted once is accepted again, with the same principal, until the row expires |
| AuthGuard.MismatchedPairRefused | src/api/auth/auth.guard.ts:38 | tokens naming different users are refused whatever the database holds |
| AuthGuard.RevokedSessionRefused | src/api/auth/auth.guard.ts:41-45 | deleting the row or deactivating its owner refuses the cookie |
| AuthGuard.ExpiryBoundary | src/api/auth/auth.guard.ts:44 | a row expiring at t is accepted at t and refused at t + 1 |
| RoleGuard.RequiredRoles | src/api/auth/role.guard.ts:12-15 | the handler's metadata if defined, else the class's |
| RoleGuard.SomeRoleRequired | src/api/auth/role.guard.ts:19 | true iff the roles are defined and one of them is required |
| RoleGuard.CanActivate | src/api/auth/role.guard.ts:11-24 | true when no roles are required; otherwise true iff the user holds one of them, and Forbidden otherwise |
| RoleGuard.EmptyRequirementRefusesAll | src/api/auth/role.guard.ts:16-21 | `@Roles()` with no roles refuses everyone |
| RoleGuard.RolelessUserRefused | src/api/auth/role.guard.ts:19-21 | a user with no or undefined roles is refused whenever roles are required |
| RoleGuard.HandlerOverridesClass | src/api/auth/role.guard.ts:12-15 | the class metadata is ignored when the handler has its own |
| RoleGuard.HoldingARoleSuffices | src/api/auth/role.guard.ts:19 | holding a required role is enough, whatever else the user holds |
| RoleGuard.GuardPrincipalRefused | src/api/auth/role.guard.ts:18-21 | behind the later guard, whose principal has no roles, every route that requires roles is refused |
| Base64.Encode | src/api/auth/admin.service.ts:62 | the encoding has 4 characters per started group of 3 bytes |
| Base64.EncodePadded | src/api/auth/admin.service.ts:62 | an input that is not whole groups ends in '=' |
| Base64.DecodePrefixGroup | src/api/auth/admin.service.ts:62 | decoding reads the first four characters as one group of three bytes |
| Base64.DecodeEncode | src/api/auth/admin.service.ts:62 | whole groups encode into alphabet characters only, and decode back to the bytes |
| Admin.Slice | src/api/auth/admin.service.ts:62 | `slice(0, n)` keeps the first min(n, length) characters |
| Admin.GeneratePassword | src/api/auth/admin.service.ts:61-63 | the password is the 8-character unpadded base64 of the six bytes; the slice to 10 cuts nothing |
| Admin.PasswordKeepsRandomness | src/api/auth/admin.service.ts:61-63 | the six bytes can be decoded back from the password |
| Admin.Bootstrap | src/api/auth/admin.service.ts:18-59 | no change and no mail if an admin with that email exists; Internal with no change if the email or mobile is taken otherwise; else exactly one active, confirmed admin user holding the hash, and the password mailed |
| Admin.BootstrapOnce | src/api/auth/admin.service.ts:22-31 | a second bootstrap after a successful one changes nothing and mails nothing |
| Admin.MailedPasswordSignsIn | src/api/auth/admin.service.ts:32-55 | signin with the mailed password succeeds on the seeded account |
| Admin.AdminService.OnApplicationBootstrap | src/api/auth/admin.service.ts:18-59 | the new tables, result and mail are those of Bootstrap with the generated password |
| ProfileSpec.ToUpdateDto | src/api/profile/dto/profile-update.dto.ts:16-18 | a body without gender becomes a DTO with gender MALE; otherwise the gender given |
| ProfileSpec.Create | src/api/profile/profile.service.ts:11-30 | BadRequest iff the user already has a profile; Internal iff the user does not exist; Ok iff the user exists without a profile, and then exactly one new profile with the DTO's fields |
| ProfileSpec.Update | src/api/profile/profile.service.ts:32-43 | Internal iff the user has no profile; otherwise each supplied field is written, the others, id and avatar kept, and gender and country always set |
| ProfileSpec.Avatar | src/api/profile/profile.service.ts:45-60 | BadRequest iff there is no profile; otherwise only its avatar becomes the path |
| ProfileSpec.SecondProfileRefused | src/api/profile/profile.service.ts:12-16 | a second create for the same user fails with BadRequest and changes nothing |
| ProfileSpec.UpdateResetsGender | src/api/profile/profile.service.ts:32-39 | an update whose body has no gender sets it to MALE |
| ProfileSpec.UpdateAvatarCommute | src/api/profile/profile.service.ts:32-57 | updating fields and setting the avatar commute |
| Profiles.ProfileService.Create | src/api/profile/profile.service.ts:11-30 | the new tables and result are those of ProfileSpec.Create |
| Profiles.ProfileService.Update | src/api/profile/profile.service.ts:32-43 | the new tables and result are those of ProfileSpec.Update |
| Profiles.ProfileService.Avatar | src/api/profile/profile.service.ts:45-60 | the new tables and result are those of ProfileSpec.Avatar |
| UserSpec.Avatar | src/api/user/user.service.ts:10-17 | Internal iff the user does not exist; otherwise only the avatar changes, and the result is the updated record without credentials |
| UserSpec.Update | src/api/user/user.service.ts:19-30 | Internal iff the user is missing or another user holds the new email or mobile; otherwise exactly the DTO's fields are written and the result is the stored record without credentials |
| UserSpec.ResultsCarryTokens | src/api/user/user.service.ts:14-25 | both results carry the user's token rows |
| UserSpec.UpdateHidesCredentials | src/api/user/user.service.ts:25 | the result does not depend on the password sent or the secret stored |
| UserSpec.PasswordStoredAsSent | src/api/user/user.service.ts:23 | a password changed by update is stored as sent |
| Users.UserService.Avatar | src/api/user/user.service.ts:10-17 | the new tables and result are those of UserSpec.Avatar |
| Users.UserService.Update | src/api/user/user.service.ts:19-30 | the new tables and result are those of UserSpec.Update |
| Multer.WithinLimit | src/utils/multer.ts:13 | a file is within the limit iff it has at most 5242880 bytes |
| Multer.FileFilter | src/utils/multer.ts:14-19 | accepted iff the mimetype ends in "/jpg" or "/png"; otherwise BadRequest with the fixed message |
| Multer.FilterExamples | src/utils/multer.ts:15 | image/png and image/jpg pass; image/jpeg, image/PNG and a trailing parameter do not |
| Multer.LastIndexOf | src/utils/multer.ts:10 | the last index of a character, or none iff it does not occur |
| Multer.BaseName | src/utils/multer.ts:10 | the last portion has no slash, ends the path (trailing slashes aside), and is either the whole trimmed path or preceded by a slash: everything after the last slash |
| Multer.ExtName | src/utils/multer.ts:10 | the extension is empty or one dot followed by no dot and no slash, and ends the last portion |
| Multer.ExtNameIsSuffix | src/utils/multer.ts:10 | the extension ends the path, trailing slashes aside |
| Multer.ExtNameAt | src/utils/multer.ts:10 | a slash-free name other than ".." whose last dot is past its first character has the extension from that dot on |
| Multer.ExtNameOfName | src/utils/multer.ts:10 | "stem.ext" with a non-empty stem has extension ".ext" |
| Multer.ExtNameOfDotfile | src/utils/multer.ts:10 | a name whose only dot leads it has no extension |
| Multer.Filename | src/utils/multer.ts:9-11 | the name starts with "motor-<field>-", ends with the extension, and has the timestamp's length in between |
| Multer.StoredName | src/utils/multer.ts:10 | for any extension, the name starts with "motor-<field>-", ends with the extension, and has the timestamp's length in between |
| Multer.StoredNameTimestamp | src/utils/multer.ts:10 | the part between prefix and extension parses back to the timestamp, whatever the extension |
| Multer.StoredNameInjective | src/utils/multer.ts:10 | names built with the same field and extension at different times differ |
| Multer.FilenameInjective | src/utils/multer.ts:10 | the same file through the same field at different times never gets the same name |
| Strings.ParseDecimalOfDecimal | src/utils/multer.ts:10 | the decimal rendering of a number parses back to it |
| Strings.DecimalInjective | src/utils/multer.ts:10 | different numbers render differently |
| Env.MatchErrors | src/config/env.ts:24-35 | no message iff both secrets are 20+ hex digits and both expiries are digits followed by m, h or d |
| Env.DecimalExpiryPasses | src/config/env.ts:31-34 | every decimal count followed by a unit is a valid expiry |
| Env.ExpiryParts | src/config/env.ts:31-34 | a valid expiry is a non-empty digit string followed by its unit |
| Env.ExpiryExamples | src/config/env.ts:31-34 | "15m", "1h", "7d", "30D" pass; "15s", "m", "1.5h", "15mm", "" fail |
| Env.ConfigIsLossless | src/config/env.ts:84-109 | the configuration copies every key of the validated schema unchanged, and reading it back gives the schema |
| Env.ValidatedSettingsReachConfig | src/config/env.ts:84-109 | the JWT settings the configuration hands out equal the environment's, so when they pass validation both secrets are hex and both expiries match the pattern |

## Left out

- JWT signing and verification, bcrypt, `randomUUID`, `randomBytes`, `ms` and the clock
  are parameters. No cryptographic property is modelled beyond `Sound`.
- Mail delivery is modelled only as the mail handed to the mailer; a failing
  `sendMail` is not modelled. Logging (`Logger`, `console.log`, the interceptors) is
  not modelled either.
- Concurrency is not modelled: the sweep's `@Cron` trigger, and two requests racing
  between `findFirst` and `create` in signup. Every service call is one atomic
  transition.
- The class-validator decorators are library code: `IsEmail`, `IsMobilePhone`,
  `IsStrongPassword`, `IsIP`, `IsPort`, `IsUrl` and the others. The DTOs appear as
  datatypes of already validated values. A validated sign-in body may carry a
  `username` instead of an `email`; `AuthSpec.SignInDto` keeps whether `email` is there. Only the `@Matches` patterns of the
  environment are modelled.
- The `CLIENTS` transform of the environment schema is not modelled: it is
  `JSON.parse`. `CLIENTS` is carried as a list of strings.
- Controllers, modules, cookie setting and Swagger are framework wiring and are not
  modelled. So is `me`, which returns its argument.
- The Prisma schema is not part of this model. Column defaults (active and confirmed
  false, no roles) and unique columns (email, mobile, secret, refreshToken) are
  assumed from how the services use them.
- AuthSpec.Signin: the clock is read once. The source's `Date.now()` for the expiry
  and the guards' `new Date()` are the same `now` within one call.
- ProfileSpec.Create and ProfileSpec.Update: `dto.birthday = new Date(dto.birthday)`
  is not modelled. The birthday is stored as the string the DTO carries.
- UserSpec.Update: the `UpdateUserDto` imported by the service comes from a file that
  is not part of this model. Its shape is taken from `UserUpdateDto` in
  `src/api/user/dto/update/user-update.dto.ts`.
- Admin.AdminService.OnApplicationBootstrap: ADMIN_MOBILE is read with `getOrThrow`
  but is not a key of `EnvSchema`. The model takes both settings as given fields.
- Multer.ExtName: it models the POSIX `path.extname`. It does not model Windows
  separators or Unicode normalisation.
- RoleGuard: roles are compared as strings; the `RoleEnum` values are not enumerated. A
  missing `req.user` is not modelled: with roles required, reading `user.roles` would
  throw a TypeError (a 500); the model always has a principal.
