/** src/utils/bcrypt.ts: `hash` and `compare`, kept abstract. A salted bcrypt hash is
    modelled as a total function of the password; the only property the services rely
    on is that a password compares true against its own hash. */
module Bcrypt {

  datatype Crypt = Crypt(hash: string -> string, compare: (string, string) -> bool)

  /** `compare(p, hash(p))` for every password. */
  ghost predicate Sound(c: Crypt)
  {
    forall p :: c.compare(p, c.hash(p))
  }
}
