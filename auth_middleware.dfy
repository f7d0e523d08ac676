/**
 * The `protect` middleware: it reads the `Authorization` header, verifies the
 * bearer token, and either attaches the decoded payload as `req.user` and
 * calls `next()`, or answers 401.
 */
module AuthMiddleware {
  import opened Wrappers
  import opened JsStrings
  import opened Oracles
  import opened Http

  const NoTokenMessage := "Not authorized, no token provided"
  const FailedMessage := "Not authorized, token failed or expired"

  /** The three ends of the middleware. */
  datatype Decision = Proceed(user: Claims) | NoToken | TokenFailed

  /** `header.split(" ")[1]`, `undefined` when there is no second field. */
  function BearerToken(header: string): Option<string> {
    var parts := Split(header, ' ');
    if |parts| > 1 then Some(parts[1]) else None
  }

  /** `jwt.verify(token, secret)`: jsonwebtoken throws ("jwt must be provided")
      for an undefined or empty token before looking at any signature. */
  function Verify(token: Option<string>, secret: string, now: int, c: Crypto): Option<Claims> {
    if token.None? || token.value == "" then None else c.verify(token.value, secret, now)
  }

  /** The outcome of `protect` for a request whose header is `authorization`. */
  function Decide(authorization: Option<string>, secret: string, now: int, c: Crypto): Decision {
    if authorization.Some? && authorization.value != "" && StartsWith(authorization.value, "Bearer") then
      match Verify(BearerToken(authorization.value), secret, now, c)
      case Some(decoded) => Proceed(decoded)
      case None => TokenFailed
    else
      NoToken
  }

  /** The request and response objects as far as `protect` touches them. */
  class Exchange {
    /** `req.headers.authorization` */
    var authorization: Option<string>
    /** `req.user` */
    var user: Option<Claims>
    /** The reply written with `res.status(..).json(..)`, if any. */
    var response: Option<Response>
    /** How many times `next()` was called. */
    var nextCalls: nat

    constructor (authorization: Option<string>)
      ensures this.authorization == authorization && user == None && response == None && nextCalls == 0
    {
      this.authorization := authorization;
      user := None;
      response := None;
      nextCalls := 0;
    }
  }

  /** `protect(req, res, next)` */
  method Protect(x: Exchange, secret: string, now: int, c: Crypto)
    modifies x
    ensures x.authorization == old(x.authorization)
    ensures Decide(x.authorization, secret, now, c).Proceed? ==>
      x.user == Some(Decide(x.authorization, secret, now, c).user) &&
      x.nextCalls == old(x.nextCalls) + 1 && x.response == old(x.response)
    ensures Decide(x.authorization, secret, now, c) == NoToken ==>
      x.response == Some(Fail(401, NoTokenMessage)) &&
      x.nextCalls == old(x.nextCalls) && x.user == old(x.user)
    ensures Decide(x.authorization, secret, now, c) == TokenFailed ==>
      x.response == Some(Fail(401, FailedMessage)) &&
      x.nextCalls == old(x.nextCalls) && x.user == old(x.user)
    // exactly one outcome: next() once and no reply, or a 401 reply and no next()
    ensures (x.nextCalls == old(x.nextCalls) + 1 && x.response == old(x.response)) ||
            (x.nextCalls == old(x.nextCalls) && x.response.Some? && x.response.value.status == 401)
  {
    var token: Option<string> := None;
    if x.authorization.Some? && x.authorization.value != "" && StartsWith(x.authorization.value, "Bearer") {
      token := BearerToken(x.authorization.value);
      var decoded := Verify(token, secret, now, c);
      if decoded.None? {
        x.response := Some(Fail(401, FailedMessage));
        return;
      }
      x.user := decoded;
      x.nextCalls := x.nextCalls + 1;
    }
    if token.None? || token.value == "" {
      x.response := Some(Fail(401, NoTokenMessage));
      return;
    }
  }

  /** A missing header, or one not starting with "Bearer", means no token. */
  lemma NoTokenIffNotBearer(authorization: Option<string>, secret: string, now: int, c: Crypto)
    ensures Decide(authorization, secret, now, c) == NoToken <==>
      authorization.None? || !StartsWith(authorization.value, "Bearer")
  {
  }

  /** A "Bearer" header with no space, hence no second field ("Bearer",
      "BearerXYZ"), is a failed verification, not a missing token. */
  lemma {:induction false} BearerWithoutSecondFieldFails(header: string, secret: string, now: int, c: Crypto)
    requires StartsWith(header, "Bearer") && ' ' !in header
    ensures Decide(Some(header), secret, now, c) == TokenFailed
  {
    SplitNoSeparator(header, ' ');
  }

  /** The token is the second space-separated field; fields after it are ignored. */
  lemma {:induction false} TokenIsSecondField(scheme: string, token: string, rest: string)
    requires ' ' !in scheme && ' ' !in token
    ensures BearerToken(scheme + " " + token) == Some(token)
    ensures BearerToken(scheme + " " + token + " " + rest) == Some(token)
  {
    SplitFirst(scheme, ' ', token);
    SplitNoSeparator(token, ' ');
    assert scheme + " " + token == scheme + [' '] + token;
    assert scheme + " " + token + " " + rest == scheme + [' '] + (token + [' '] + rest);
    SplitFirst(scheme, ' ', token + [' '] + rest);
    SplitFirst(token, ' ', rest);
  }

  /** `protect` lets a request through only with a non-empty second field that
      verifies, and attaches exactly the decoded payload. */
  lemma ProceedOnlyWhenVerified(authorization: Option<string>, secret: string, now: int, c: Crypto)
    ensures Decide(authorization, secret, now, c).Proceed? <==>
      authorization.Some? && StartsWith(authorization.value, "Bearer") &&
      var t := BearerToken(authorization.value);
      t.Some? && t.value != "" && c.verify(t.value, secret, now).Some?
    ensures Decide(authorization, secret, now, c).Proceed? ==>
      c.verify(BearerToken(authorization.value).value, secret, now) ==
        Some(Decide(authorization, secret, now, c).user)
  {
  }

  /** Verification consults only the token, the secret and the clock: two
      verifiers that agree there give the same outcome. No admin record is read. */
  lemma ConsultsOnlyTokenAndSecret(header: string, secret: string, now: int, c1: Crypto, c2: Crypto)
    requires var t := BearerToken(header);
      t.Some? ==> c1.verify(t.value, secret, now) == c2.verify(t.value, secret, now)
    ensures Decide(Some(header), secret, now, c1) == Decide(Some(header), secret, now, c2)
  {
  }
}
