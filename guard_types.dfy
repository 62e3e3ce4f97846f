/** src/api/auth/guards/types.ts: the claims of the first revision's JWTs. */
module GuardTypes {
  import opened Wrappers

  /** `JwtPayload { userId, email }`. */
  datatype Claims = Claims(userId: int, email: string)

  /** `jwt.verify` with one of the signing secrets: the claims of a well-signed,
      unexpired token, or None where it throws. */
  type Verifier = string -> Option<Claims>
}
