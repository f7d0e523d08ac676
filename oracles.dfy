/**
 * The libraries the server calls and whose internals are not part of this
 * model: bcrypt, jsonwebtoken and the validator functions used by
 * express-validator. Each is a function-typed field, so every statement about
 * them is explicit: the properties the application relies on are predicates
 * that the lemmas needing them require.
 */
module Oracles {
  import opened Wrappers

  /** The payload `{ id: admin._id }` of a session token. */
  datatype Claims = Claims(id: nat)

  /** What `jwt.sign(payload, secret, { expiresIn })` is given; `issuedAt` is
      the clock reading (in seconds) that jsonwebtoken stamps into the token. */
  datatype SignInput = SignInput(claims: Claims, secret: string, expiresIn: string, issuedAt: int)

  /** The lifetime, in seconds, of a token signed with `expiresIn: "1h"`. */
  const OneHour := 3600

  datatype Crypto = Crypto(
    /** `bcrypt.hash(password, salt)` */
    hash: (string, string) -> string,
    /** `bcrypt.compare(password, hashed)` */
    compare: (string, string) -> bool,
    /** `jwt.sign(...)` */
    sign: SignInput -> string,
    /** `jwt.verify(token, secret)` at clock reading `now`: the decoded payload,
        or `None` where jsonwebtoken throws */
    verify: (string, string, int) -> Option<Claims>)

  /** bcrypt: a password matches any hash made of it. */
  ghost predicate HashSound(c: Crypto) {
    forall password, salt :: c.compare(password, c.hash(password, salt))
  }

  /** jsonwebtoken: a "1h" token verifies with its own secret, to its payload,
      until one hour after it was issued, and not from then on. */
  ghost predicate TokenSound(c: Crypto) {
    forall claims, secret, issuedAt, now ::
      c.verify(c.sign(SignInput(claims, secret, "1h", issuedAt)), secret, now) ==
        if now < issuedAt + OneHour then Some(claims) else None
  }

  /** jsonwebtoken: a signed token is a non-empty compact serialisation
      (base64url segments and dots), so it holds no space. */
  ghost predicate TokenShape(c: Crypto) {
    forall input :: c.sign(input) != "" && ' ' !in c.sign(input)
  }

  /** The validator.js functions behind express-validator's `isEmail`,
      `normalizeEmail`, `escape` and `isISO8601` (ISO 8601 dates, as in
      section 4.1.2 of ISO 8601:2004). `normalizeEmail` answers `None` where
      validator.js returns `false`: when the local part is empty once the
      provider's sub-address is removed (Gmail and Googlemail, iCloud,
      Outlook.com and Yahoo addresses). Text without an '@' is still
      normalised to a string. */
  datatype Lib = Lib(
    isEmail: string -> bool,
    normalizeEmail: string -> Option<string>,
    escape: string -> string,
    isISO8601: string -> bool)

  /** `escape` replaces each of `& < > " ' / \ ``` by an entity, so it maps the
      empty string, and only it, to the empty string. */
  ghost predicate EscapeKeepsEmptiness(lib: Lib) {
    forall s :: lib.escape(s) == "" <==> s == ""
  }
}
