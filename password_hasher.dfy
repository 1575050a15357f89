/** PasswordHasher: a thin wrapper over the configured password encoder.
    The encoder itself (an adaptive, salted hash) is foreign code, so it is a
    parameter: a pair of functions, of which only soundness is assumed. */
module Passwords {
  import opened Common

  datatype PasswordHasher = PasswordHasher(encode: string -> string, matches: (string, string) -> bool)

  /** The one property the core relies on: a password matches its own hash. */
  ghost predicate Sound(h: PasswordHasher) {
    forall p :: h.matches(p, h.encode(p))
  }

  /** hashPassword. */
  function HashPassword(h: PasswordHasher, password: string): (hashed: string)
    ensures Sound(h) ==> VerifyPassword(h, password, Some(hashed))
  {
    h.encode(password)
  }

  /** verifyPassword; the encoder reports a null stored hash as a mismatch. */
  function VerifyPassword(h: PasswordHasher, password: string, hashed: Option<string>): (ok: bool)
    ensures hashed.None? ==> !ok
  {
    match hashed
    case None => false
    case Some(x) => h.matches(password, x)
  }
}
