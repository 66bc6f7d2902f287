/**
 * The password-hashing and token primitives of app/core/security.py, which
 * delegate to bcrypt and to JWT. They are held as function values, and what
 * the services rely on them for is stated as predicates used as hypotheses.
 */
module Security {
  import opened Wrappers

  /** `ACCESS_TOKEN_EXPIRE_MINUTES` of the settings. */
  const AccessTokenExpireMinutes: int := 30

  datatype Security = Security(
    /** `get_password_hash` (bcrypt, its random salt folded into the function). */
    hash: string -> string,
    /** `verify_password(plain, hashed)`. */
    verifyPassword: (string, string) -> bool,
    /** `security.create_access_token(subject, expires_delta)`: the signed token for a subject and an expiry time. */
    encodeToken: (string, int) -> string,
    /** `verify_access_token`: the `sub` claim of a token whose signature checks, else None. */
    decodeToken: string -> Option<string>)

  /** bcrypt accepts the password a hash was made from. */
  ghost predicate HashSound(s: Security) {
    forall p :: s.verifyPassword(p, s.hash(p))
  }

  /** A token issued for a subject is read back as that subject. */
  ghost predicate TokenSound(s: Security) {
    forall sub, exp :: s.decodeToken(s.encodeToken(sub, exp)) == Some(sub)
  }

  /** The `Token` response schema. */
  datatype Token = Token(accessToken: string, tokenType: string)
}
