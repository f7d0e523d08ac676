/**
 * The admin controller: `signupAdmin` and `loginAdmin`, each an ordered chain
 * of guards with early replies, over the admin collection. The collection is
 * a map from email (the field `Admin.findOne({ email })` looks up) to record;
 * record identifiers come from a counter, standing for the database's
 * generated `_id`s.
 */
module AdminController {
  import opened Wrappers
  import opened Oracles
  import opened Http

  /** An admin document. `password` holds the bcrypt hash. */
  datatype Admin = Admin(id: nat, firstName: Value, lastName: Value, email: string, password: string)

  /** The admin collection and the next identifier the database would assign. */
  datatype AdminDb = AdminDb(admins: map<string, Admin>, nextId: nat)

  const InvalidInputMessage := "Invalid input format"
  const AdminExistsMessage := "Admin already exists"
  const InvalidCredentialsMessage := "Invalid credentials"

  /** The token lifetime passed to `jwt.sign`. */
  const TokenExpiry := "1h"

  /** Each record is filed under its own email, identifiers are unique and
      below the next one to be assigned. */
  ghost predicate Consistent(db: AdminDb) {
    && (forall e :: e in db.admins ==> db.admins[e].email == e && db.admins[e].id < db.nextId)
    && (forall e1, e2 :: e1 in db.admins && e2 in db.admins && e1 != e2 ==>
          db.admins[e1].id != db.admins[e2].id)
  }

  /** The public fields of a record, as in the signup and login replies; the
      reply type has no password field. */
  function PublicView(a: Admin, token: Option<string>): Payload {
    AdminView(a.id, a.firstName, a.lastName, a.email, token)
  }

  /** The email and password are both strings (the NoSQL-injection guard). */
  predicate StringCredentials(body: Body) {
    Field(body, "email").Str? && Field(body, "password").Str?
  }

  /** `signupAdmin` as a transition of the collection: the collection after the
      call and the reply. `salt` is the result of `bcrypt.genSalt(10)`. */
  function Signup(db: AdminDb, errors: seq<FieldError>, body: Body, salt: string, crypto: Crypto): (AdminDb, Response) {
    if errors != [] then (db, Response(400, Errors(errors)))
    else if !StringCredentials(body) then (db, Fail(400, InvalidInputMessage))
    else
      var email := Field(body, "email").s;
      if email in db.admins then (db, Fail(400, AdminExistsMessage))
      else
        var admin := Admin(db.nextId, Field(body, "firstName"), Field(body, "lastName"), email,
                           crypto.hash(Field(body, "password").s, salt));
        (AdminDb(db.admins[email := admin], db.nextId + 1), Response(201, PublicView(admin, None)))
  }

  /** `loginAdmin`: reads the collection, never changes it. `now` is the clock
      reading jsonwebtoken stamps into the token. */
  function Login(admins: map<string, Admin>, errors: seq<FieldError>, body: Body,
                 secret: string, now: int, crypto: Crypto): (r: Response)
    // success exactly when the checks pass, the email is known and the password matches its hash
    ensures r.status == 200 <==>
      errors == [] && StringCredentials(body) && Field(body, "email").s in admins &&
      crypto.compare(Field(body, "password").s, admins[Field(body, "email").s].password)
    // the reply to a successful login carries the public fields and a token signed
    // for the record's identifier, expiring in an hour
    ensures r.status == 200 ==>
      var admin := admins[Field(body, "email").s];
      r.payload == PublicView(admin, Some(crypto.sign(SignInput(Claims(admin.id), secret, TokenExpiry, now))))
    // unknown email and wrong password cannot be told apart
    ensures errors == [] && StringCredentials(body) && r.status != 200 ==>
      r == Fail(400, InvalidCredentialsMessage)
    // every failure is a 400 without a token
    ensures r.status != 200 ==> r.status == 400 && !r.payload.AdminView?
  {
    if errors != [] then Response(400, Errors(errors))
    else if !StringCredentials(body) then Fail(400, InvalidInputMessage)
    else
      var email := Field(body, "email").s;
      if email !in admins then Fail(400, InvalidCredentialsMessage)
      else
        var admin := admins[email];
        if !crypto.compare(Field(body, "password").s, admin.password) then Fail(400, InvalidCredentialsMessage)
        else
          var token := crypto.sign(SignInput(Claims(admin.id), secret, TokenExpiry, now));
          Response(200, PublicView(admin, Some(token)))
  }

  /** The admin collection, updated in place by `signupAdmin`. */
  class AdminStore {
    var admins: map<string, Admin>
    var nextId: nat

    ghost predicate Valid()
      reads this
    {
      Consistent(AdminDb(admins, nextId))
    }

    function Db(): AdminDb
      reads this
    {
      AdminDb(admins, nextId)
    }

    constructor ()
      ensures Valid() && admins == map[] && nextId == 0
    {
      admins := map[];
      nextId := 0;
    }

    /** `signupAdmin(req, res, next)`, where `errors` is `validationResult(req)`. */
    method SignupAdmin(errors: seq<FieldError>, body: Body, salt: string, crypto: Crypto) returns (response: Response)
      requires Valid()
      modifies this
      ensures Valid()
      ensures (Db(), response) == Signup(old(Db()), errors, body, salt, crypto)
    {
      if errors != [] {
        return Response(400, Errors(errors));
      }
      var email, password := Field(body, "email"), Field(body, "password");
      if !email.Str? || !password.Str? {
        return Fail(400, InvalidInputMessage);
      }
      if email.s in admins {
        return Fail(400, AdminExistsMessage);
      }
      var hashed := crypto.hash(password.s, salt);
      var admin := Admin(nextId, Field(body, "firstName"), Field(body, "lastName"), email.s, hashed);
      admins := admins[email.s := admin];
      nextId := nextId + 1;
      response := Response(201, PublicView(admin, None));
    }

    /** `loginAdmin(req, res, next)` against the current collection. */
    function LoginAdmin(errors: seq<FieldError>, body: Body, secret: string, now: int, crypto: Crypto): (r: Response)
      reads this
      ensures r.status == 200 ==>
        && StringCredentials(body) && Field(body, "email").s in admins
        && r.payload.AdminView? && r.payload.token.Some?
        && r.payload == PublicView(admins[Field(body, "email").s], r.payload.token)
    {
      Login(admins, errors, body, secret, now, crypto)
    }
  }

  /** Signup keeps the collection consistent. */
  lemma SignupKeepsConsistent(db: AdminDb, errors: seq<FieldError>, body: Body, salt: string, crypto: Crypto)
    requires Consistent(db)
    ensures Consistent(Signup(db, errors, body, salt, crypto).0)
  {
  }

  /** Every rejected signup is a 400 and leaves the collection as it was:
      failed validation (with the errors list), non-string credentials, or an
      email already on file. */
  lemma SignupRejections(db: AdminDb, errors: seq<FieldError>, body: Body, salt: string, crypto: Crypto)
    ensures var (after, r) := Signup(db, errors, body, salt, crypto);
      && (errors != [] ==> r == Response(400, Errors(errors)) && after == db)
      && (errors == [] && !StringCredentials(body) ==> r == Fail(400, InvalidInputMessage) && after == db)
      && (errors == [] && StringCredentials(body) && Field(body, "email").s in db.admins ==>
            r == Fail(400, AdminExistsMessage) && after == db)
      && (r.status != 201 ==> r.status == 400 && after == db)
  {
  }

  /** A successful signup adds exactly one record, under the new email, whose
      password field is the hash of the password; the reply shows that record's
      public fields and no token. */
  lemma SignupAddsOneHashedRecord(db: AdminDb, errors: seq<FieldError>, body: Body, salt: string, crypto: Crypto)
    ensures var (after, r) := Signup(db, errors, body, salt, crypto);
      r.status == 201 <==> errors == [] && StringCredentials(body) && Field(body, "email").s !in db.admins
    ensures var (after, r) := Signup(db, errors, body, salt, crypto);
      r.status == 201 ==>
        var email := Field(body, "email").s;
        && after.admins.Keys == db.admins.Keys + {email}
        && |after.admins| == |db.admins| + 1
        && (forall e :: e in db.admins ==> after.admins[e] == db.admins[e])
        && after.admins[email].password == crypto.hash(Field(body, "password").s, salt)
        && after.admins[email].firstName == Field(body, "firstName")
        && after.admins[email].lastName == Field(body, "lastName")
        && r.payload == PublicView(after.admins[email], None)
  {
    var (after, r) := Signup(db, errors, body, salt, crypto);
    if r.status == 201 {
      var email := Field(body, "email").s;
      assert email !in db.admins;
      assert after.admins.Keys == db.admins.Keys + {email};
      assert |after.admins.Keys| == |db.admins.Keys| + 1;
    }
  }

  /** Signing up twice with one email: the second attempt is refused with
      "Admin already exists" and changes nothing. */
  lemma DuplicateSignupRefused(db: AdminDb, body: Body, body2: Body, salt: string, salt2: string, crypto: Crypto)
    requires StringCredentials(body) && StringCredentials(body2)
    requires Field(body2, "email") == Field(body, "email")
    ensures var (mid, r1) := Signup(db, [], body, salt, crypto);
      var (after, r2) := Signup(mid, [], body2, salt2, crypto);
      r2 == Fail(400, AdminExistsMessage) && after == mid
  {
  }

  /** The guards of login in order: failed validation answers with the
      errors list, non-string credentials with "Invalid input format", and an
      unknown email or a wrong password with "Invalid credentials". */
  lemma LoginRejections(admins: map<string, Admin>, errors: seq<FieldError>, body: Body,
                        secret: string, now: int, crypto: Crypto)
    ensures var r := Login(admins, errors, body, secret, now, crypto);
      && (errors != [] ==> r == Response(400, Errors(errors)))
      && (errors == [] && !StringCredentials(body) ==> r == Fail(400, InvalidInputMessage))
      && (errors == [] && StringCredentials(body) && Field(body, "email").s !in admins ==>
            r == Fail(400, InvalidCredentialsMessage))
  {
  }

  /** Once signed up, the same email and password log in, and the token names
      the new record. */
  lemma SignupThenLogin(db: AdminDb, body: Body, salt: string, secret: string, now: int, crypto: Crypto)
    requires HashSound(crypto)
    requires StringCredentials(body) && Field(body, "email").s !in db.admins
    ensures var (after, _) := Signup(db, [], body, salt, crypto);
      var r := Login(after.admins, [], body, secret, now, crypto);
      r.status == 200 &&
      r.payload.token == Some(crypto.sign(SignInput(Claims(db.nextId), secret, TokenExpiry, now)))
  {
    var (after, _) := Signup(db, [], body, salt, crypto);
    var email, password := Field(body, "email").s, Field(body, "password").s;
    assert after.admins[email].password == crypto.hash(password, salt);
    assert crypto.compare(password, crypto.hash(password, salt));
  }

  /** In a consistent collection the identifier a login token carries names
      exactly one record: the one filed under the email that logged in. */
  lemma LoginTokenNamesOneRecord(db: AdminDb, errors: seq<FieldError>, body: Body,
                                 secret: string, now: int, crypto: Crypto)
    requires Consistent(db)
    requires Login(db.admins, errors, body, secret, now, crypto).status == 200
    ensures var email := Field(body, "email").s;
      && db.admins[email].email == email
      && Login(db.admins, errors, body, secret, now, crypto).payload.token ==
           Some(crypto.sign(SignInput(Claims(db.admins[email].id), secret, TokenExpiry, now)))
      && forall e :: e in db.admins && db.admins[e].id == db.admins[email].id ==> e == email
  {
  }
}
