/** src/config/env.ts: the `@Matches` patterns on the JWT settings and the `envConfig`
    projection of the validated environment. The other validators (IsIP, IsPort,
    IsEmail, ...) are class-validator's own and are not modelled. */
module Env {
  import opened Strings

  predicate IsHexDigit(ch: char)
  {
    '0' <= ch <= '9' || 'a' <= ch <= 'f' || 'A' <= ch <= 'F'
  }

  /** `/^[a-f0-9]{20,}$/i`: twenty or more hex digits of either case, and nothing else. */
  predicate IsHexSecret(s: string)
  {
    |s| >= 20 && forall k :: 0 <= k < |s| ==> IsHexDigit(s[k])
  }

  predicate IsUnit(ch: char)
  {
    ch in {'m', 'h', 'd', 'M', 'H', 'D'}
  }

  /** `/^\d+([mhd])$/i`: one or more ASCII digits, then exactly one unit. */
  predicate IsExpiry(s: string)
  {
    |s| >= 2 && IsUnit(s[|s| - 1]) && forall k :: 0 <= k < |s| - 1 ==> IsDigit(s[k])
  }

  /** Every count of minutes, hours or days written in decimal passes. */
  lemma DecimalExpiryPasses(n: nat, unit: char)
    requires IsUnit(unit)
    ensures IsExpiry(Decimal(n) + [unit])
  {
    var s := Decimal(n) + [unit];
    assert forall k :: 0 <= k < |s| - 1 ==> s[k] == Decimal(n)[k];
  }

  /** A passing expiry is a decimal count followed by its unit. */
  lemma ExpiryParts(s: string)
    requires IsExpiry(s)
    ensures var count := s[..|s| - 1];
      |count| >= 1 && (forall k :: 0 <= k < |count| ==> IsDigit(count[k])) && s == count + [s[|s| - 1]]
  {
  }

  lemma ExpiryExamples()
    ensures IsExpiry("15m") && IsExpiry("1h") && IsExpiry("7d") && IsExpiry("30D")
    ensures !IsExpiry("15s") && !IsExpiry("m") && !IsExpiry("1.5h") && !IsExpiry("15mm") && !IsExpiry("")
  {
    assert "1.5h"[1] == '.';
    assert "15mm"[2] == 'm';
  }

  /** The JWT settings as read from the environment. */
  datatype JwtSettings = JwtSettings(accessSecret: string, refreshSecret: string,
                                     accessExpires: string, refreshExpires: string)

  /** The messages of the four `@Matches` constraints, for the settings that fail them,
      in declaration order. */
  function MatchErrors(env: JwtSettings): (errors: seq<string>)
    ensures errors == [] <==>
      IsHexSecret(env.accessSecret) && IsHexSecret(env.refreshSecret) &&
      IsExpiry(env.accessExpires) && IsExpiry(env.refreshExpires)
    ensures |errors| <= 4
  {
    (if IsHexSecret(env.accessSecret) then [] else ["JWT_ACCESS_SECRET must be at least 20 hex characters"]) +
    (if IsHexSecret(env.refreshSecret) then [] else ["JWT_REFRESH_SECRET must be at least 20 hex characters"]) +
    (if IsExpiry(env.accessExpires) then [] else ["JWT_ACCESS_EXPIRES must be like \"15m\", \"1h\", or \"7d\""]) +
    (if IsExpiry(env.refreshExpires) then [] else ["JWT_REFRESH_EXPIRES must be like \"15m\", \"1h\", or \"7d\""])
  }

  /** A validated `EnvSchema` instance (the whitelist has removed every other key). */
  datatype EnvSchema = EnvSchema(
    HOST: string, PORT: string, DEBUG: bool,
    JWT_ACCESS_SECRET: string, JWT_REFRESH_SECRET: string,
    JWT_ACCESS_EXPIRES: string, JWT_REFRESH_EXPIRES: string,
    SMTP_HOST: string, SMTP_PORT: string, SMTP_USER: string, SMTP_PASS: string, SMTP_SECURE: bool,
    POSTGRES_DB: string, POSTGRES_USER: string, POSTGRES_PASSWORD: string,
    POSTGRES_HOST: string, POSTGRES_PORT: string, POSTGRES_URL: string,
    ADMIN_EMAIL: string, CLIENTS: seq<string>)

  /** The object `envConfig` registers, a plain record of its own. */
  datatype EnvConfig = EnvConfig(
    HOST: string, PORT: string, DEBUG: bool,
    JWT_ACCESS_SECRET: string, JWT_REFRESH_SECRET: string,
    JWT_ACCESS_EXPIRES: string, JWT_REFRESH_EXPIRES: string,
    SMTP_HOST: string, SMTP_PORT: string, SMTP_USER: string, SMTP_PASS: string, SMTP_SECURE: bool,
    POSTGRES_DB: string, POSTGRES_USER: string, POSTGRES_PASSWORD: string,
    POSTGRES_HOST: string, POSTGRES_PORT: string, POSTGRES_URL: string,
    ADMIN_EMAIL: string, CLIENTS: seq<string>)

  /** The factory of `registerAs(ENV_CONFIG, ...)` after `validate`. */
  function ToConfig(env: EnvSchema): EnvConfig
  {
    EnvConfig(env.HOST, env.PORT, env.DEBUG,
              env.JWT_ACCESS_SECRET, env.JWT_REFRESH_SECRET, env.JWT_ACCESS_EXPIRES, env.JWT_REFRESH_EXPIRES,
              env.SMTP_HOST, env.SMTP_PORT, env.SMTP_USER, env.SMTP_PASS, env.SMTP_SECURE,
              env.POSTGRES_DB, env.POSTGRES_USER, env.POSTGRES_PASSWORD,
              env.POSTGRES_HOST, env.POSTGRES_PORT, env.POSTGRES_URL,
              env.ADMIN_EMAIL, env.CLIENTS)
  }

  /** Reading the schema's values back out of the configuration. */
  function FromConfig(c: EnvConfig): EnvSchema
  {
    EnvSchema(c.HOST, c.PORT, c.DEBUG,
              c.JWT_ACCESS_SECRET, c.JWT_REFRESH_SECRET, c.JWT_ACCESS_EXPIRES, c.JWT_REFRESH_EXPIRES,
              c.SMTP_HOST, c.SMTP_PORT, c.SMTP_USER, c.SMTP_PASS, c.SMTP_SECURE,
              c.POSTGRES_DB, c.POSTGRES_USER, c.POSTGRES_PASSWORD,
              c.POSTGRES_HOST, c.POSTGRES_PORT, c.POSTGRES_URL,
              c.ADMIN_EMAIL, c.CLIENTS)
  }

  /** The configuration holds every key of the schema, each value copied unchanged, and
      nothing else: the projection is a bijection. */
  lemma ConfigIsLossless(env: EnvSchema, c: EnvConfig)
    ensures FromConfig(ToConfig(env)) == env
    ensures ToConfig(FromConfig(c)) == c
  {
  }

  /** The JWT settings the guards and the token issuer read from the configuration are
      the validated ones. */
  function JwtSettingsOf(c: EnvConfig): JwtSettings
  {
    JwtSettings(c.JWT_ACCESS_SECRET, c.JWT_REFRESH_SECRET, c.JWT_ACCESS_EXPIRES, c.JWT_REFRESH_EXPIRES)
  }

  lemma ValidatedSettingsReachConfig(env: EnvSchema)
    requires MatchErrors(JwtSettings(env.JWT_ACCESS_SECRET, env.JWT_REFRESH_SECRET,
                                     env.JWT_ACCESS_EXPIRES, env.JWT_REFRESH_EXPIRES)) == []
    ensures JwtSettingsOf(ToConfig(env)) ==
      JwtSettings(env.JWT_ACCESS_SECRET, env.JWT_REFRESH_SECRET, env.JWT_ACCESS_EXPIRES, env.JWT_REFRESH_EXPIRES)
    ensures IsHexSecret(JwtSettingsOf(ToConfig(env)).accessSecret)
    ensures IsHexSecret(JwtSettingsOf(ToConfig(env)).refreshSecret)
    ensures IsExpiry(JwtSettingsOf(ToConfig(env)).accessExpires)
    ensures IsExpiry(JwtSettingsOf(ToConfig(env)).refreshExpires)
  {
  }
}
