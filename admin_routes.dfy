/**
 * The admin router: the stage lists of `POST /signup` and `POST /login`, and
 * what running them and then the controller does.
 */
module AdminRoutes {
  import opened Wrappers
  import opened JsStrings
  import opened Patterns
  import opened Oracles
  import opened Http
  import opened Pipeline
  import opened AdminController

  const PasswordLengthMessage := "Password must be at least 8 characters"
  const PasswordPatternMessage := "Password must contain uppercase, lowercase, number, and special character"

  const SignupEmail := FieldChain("email", false,
    [Sanitize(Trim), Validate(IsEmail, "Valid email is required"), Sanitize(NormalizeEmail)])
  const SignupPassword := FieldChain("password", false,
    [Validate(MinLength(8), PasswordLengthMessage), Validate(PasswordPattern, PasswordPatternMessage)])
  /** `body(field).trim().isString().notEmpty().escape().withMessage(msg)` */
  function NameChain(field: string, msg: string): FieldChain {
    FieldChain(field, false,
      [Sanitize(Trim), Validate(IsString, DefaultMessage), Validate(NotEmpty, msg), Sanitize(Escape)])
  }
  const SignupFirstName := NameChain("firstName", "First name is required")
  const SignupLastName := NameChain("lastName", "Last name is required")
  const SignupChains := [SignupEmail, SignupPassword, SignupFirstName, SignupLastName]

  const SignupRoute := Route(Post, "/signup", Bodies(SignupChains) + [Handler("signupAdmin")])

  const LoginEmail := FieldChain("email", false,
    [Validate(IsString, "Email must be a string"), Sanitize(Trim),
     Validate(IsEmail, "Valid email is required"), Sanitize(NormalizeEmail)])
  const LoginPassword := FieldChain("password", false,
    [Validate(IsString, "Password must be a string"), Validate(NotEmpty, "Password is required")])
  const LoginChains := [LoginEmail, LoginPassword]

  const LoginRoute := Route(Post, "/login", [Limit(LoginLimiter)] + Bodies(LoginChains) + [Handler("loginAdmin")])

  /** The server's password rule: at least eight characters as `isLength`
      counts them, and the pattern. */
  predicate PasswordRule(p: string) {
    IsLengthCount(p) >= 8 && StrongPassword(p)
  }

  /** A name field is not blank once trimmed (an absent one reads as ""). */
  predicate NameRule(v: Value) {
    JsStrings.Trim(Text(v)) != ""
  }

  lemma SignupEmailErrors(body: Body, lib: Lib)
    ensures ChainErrors(SignupEmail, body, lib) ==
      if lib.isEmail(JsStrings.Trim(Text(Field(body, "email")))) then [] else [FieldError("email", "Valid email is required")]
  {
    var steps, v := SignupEmail.steps, Field(body, "email");
    TextAfterTrim(v, lib);
    assert steps[1..] == [Validate(IsEmail, "Valid email is required"), Sanitize(NormalizeEmail)];
    assert steps[1..][1..] == [Sanitize(NormalizeEmail)];
    assert steps[1..][1..][1..] == [];
  }

  lemma SignupPasswordErrors(body: Body, lib: Lib)
    ensures var p := Text(Field(body, "password"));
      ChainErrors(SignupPassword, body, lib) ==
        (if IsLengthCount(p) >= 8 then [] else [FieldError("password", PasswordLengthMessage)]) +
        (if StrongPassword(p) then [] else [FieldError("password", PasswordPatternMessage)])
  {
    var steps, v := SignupPassword.steps, Field(body, "password");
    assert steps[1..] == [Validate(PasswordPattern, PasswordPatternMessage)];
    assert steps[1..][1..] == [];
    assert Holds(MinLength(8), v, lib) == (IsLengthCount(Text(v)) >= 8);
    assert Holds(PasswordPattern, v, lib) == StrongPassword(Text(v));
    assert StepErrors(steps[1..][1..], "password", v, lib) == [];
    assert StepErrors(steps[1..], "password", v, lib) ==
      (if StrongPassword(Text(v)) then [] else [FieldError("password", PasswordPatternMessage)]) + [];
  }

  /** `trim()` runs first and always leaves a string, so `isString` never
      fails: a name gets its own message exactly when it is blank once
      trimmed, absent names included. */
  lemma NameErrors(field: string, msg: string, body: Body, lib: Lib)
    ensures ChainErrors(NameChain(field, msg), body, lib) ==
      if JsStrings.Trim(Text(Field(body, field))) != "" then [] else [FieldError(field, msg)]
  {
    var v := Field(body, field);
    var trimmed := Sanitized(Trim, v, lib);
    var isString, notEmpty, escape := Validate(IsString, DefaultMessage), Validate(NotEmpty, msg), Sanitize(Escape);
    var e := if JsStrings.Trim(Text(v)) != "" then [] else [FieldError(field, msg)];
    assert StepErrors([isString, notEmpty, escape], field, trimmed, lib) == e by {
      TextAfterTrim(v, lib);
      StepErrorsCons(escape, [], field, trimmed, lib);
      StepErrorsCons(notEmpty, [escape], field, trimmed, lib);
      StepErrorsCons(isString, [notEmpty, escape], field, trimmed, lib);
      assert [notEmpty] + [escape] == [notEmpty, escape];
      assert [isString] + [notEmpty, escape] == [isString, notEmpty, escape];
    }
    StepErrorsCons(Sanitize(Trim), [isString, notEmpty, escape], field, v, lib);
    assert NameChain(field, msg).steps == [Sanitize(Trim)] + [isString, notEmpty, escape];
  }

  lemma LoginEmailErrors(body: Body, lib: Lib)
    ensures var v := Field(body, "email");
      ChainErrors(LoginEmail, body, lib) ==
        (if v.Str? then [] else [FieldError("email", "Email must be a string")]) +
        (if lib.isEmail(JsStrings.Trim(Text(v))) then [] else [FieldError("email", "Valid email is required")])
  {
    var steps, v := LoginEmail.steps, Field(body, "email");
    TextAfterTrim(v, lib);
    assert steps[1..] == [Sanitize(Trim), Validate(IsEmail, "Valid email is required"), Sanitize(NormalizeEmail)];
    assert steps[1..][1..] == [Validate(IsEmail, "Valid email is required"), Sanitize(NormalizeEmail)];
    assert steps[1..][1..][1..] == [Sanitize(NormalizeEmail)];
    assert steps[1..][1..][1..][1..] == [];
  }

  lemma LoginPasswordErrors(body: Body, lib: Lib)
    ensures var v := Field(body, "password");
      ChainErrors(LoginPassword, body, lib) ==
        (if v.Str? then [] else [FieldError("password", "Password must be a string")]) +
        (if Text(v) != "" then [] else [FieldError("password", "Password is required")])
  {
    var steps := LoginPassword.steps;
    assert steps[1..] == [Validate(NotEmpty, "Password is required")];
    assert steps[1..][1..] == [];
  }

  /** The signup errors are those of the four chains, in order. */
  lemma SignupErrorsSplit(body: Body, lib: Lib)
    ensures AllErrors(SignupChains, body, lib) ==
      ChainErrors(SignupEmail, body, lib) + ChainErrors(SignupPassword, body, lib) +
      ChainErrors(SignupFirstName, body, lib) + ChainErrors(SignupLastName, body, lib)
  {
    var e1, e2, e3, e4 := ChainErrors(SignupEmail, body, lib), ChainErrors(SignupPassword, body, lib),
      ChainErrors(SignupFirstName, body, lib), ChainErrors(SignupLastName, body, lib);
    AllErrorsCons(SignupLastName, [], body, lib);
    AllErrorsCons(SignupFirstName, [SignupLastName], body, lib);
    AllErrorsCons(SignupPassword, [SignupFirstName, SignupLastName], body, lib);
    AllErrorsCons(SignupEmail, [SignupPassword, SignupFirstName, SignupLastName], body, lib);
    assert SignupChains == [SignupEmail] + [SignupPassword, SignupFirstName, SignupLastName];
    assert AllErrors(SignupChains, body, lib) == e1 + (e2 + (e3 + (e4 + [])));
  }

  /** The signup chains accept a body exactly when the trimmed email passes
      `isEmail`, the password passes the password rule, and both names are
      present and non-blank after trimming. */
  lemma SignupValidation(body: Body, lib: Lib)
    ensures AllErrors(SignupChains, body, lib) == [] <==>
      && lib.isEmail(JsStrings.Trim(Text(Field(body, "email"))))
      && PasswordRule(Text(Field(body, "password")))
      && NameRule(Field(body, "firstName"))
      && NameRule(Field(body, "lastName"))
  {
    SignupEmailErrors(body, lib);
    SignupPasswordErrors(body, lib);
    NameErrors("firstName", "First name is required", body, lib);
    NameErrors("lastName", "Last name is required", body, lib);
    SignupErrorsSplit(body, lib);
  }

  /** The login chains accept a body exactly when the email is a string whose
      trim passes `isEmail` and the password is a non-empty string. */
  lemma LoginValidation(body: Body, lib: Lib)
    ensures AllErrors(LoginChains, body, lib) == [] <==>
      && Field(body, "email").Str? && lib.isEmail(JsStrings.Trim(Field(body, "email").s))
      && Field(body, "password").Str? && Field(body, "password").s != ""
  {
    var e1, e2 := ChainErrors(LoginEmail, body, lib), ChainErrors(LoginPassword, body, lib);
    assert e1 == [] <==> Field(body, "email").Str? && lib.isEmail(JsStrings.Trim(Text(Field(body, "email")))) by {
      LoginEmailErrors(body, lib);
    }
    assert e2 == [] <==> Field(body, "password").Str? && Text(Field(body, "password")) != "" by {
      LoginPasswordErrors(body, lib);
    }
    assert AllErrors(LoginChains, body, lib) == e1 + e2 by {
      AllErrorsCons(LoginPassword, [], body, lib);
      AllErrorsCons(LoginEmail, [LoginPassword], body, lib);
      assert LoginChains == [LoginEmail] + [LoginPassword];
      assert e2 + [] == e2;
    }
  }

  /** The login limiter runs before any validation and before the controller:
      once it refuses, the reply is 429 whatever the request holds; otherwise
      the controller gets the validated request. */
  lemma LoginLimiterFirst(req: Request, env: Env)
    ensures !env.allows(LoginLimiter) ==>
      Run(LoginRoute.stages, req, env) == Responded(Fail(429, LimitMessage(LoginLimiter)))
    ensures env.allows(LoginLimiter) ==>
      Run(LoginRoute.stages, req, env) == Reached("loginAdmin", ApplyChains(LoginChains, req, env.lib))
  {
    var stages := LoginRoute.stages;
    assert stages[0] == Limit(LoginLimiter);
    assert stages[1..] == Bodies(LoginChains) + [Handler("loginAdmin")];
    RunBodies(LoginChains, [Handler("loginAdmin")], req, env);
  }

  /** Signup has no rate limiter and no stage that answers: every request
      reaches the controller, with the signup chains applied. */
  lemma SignupAlwaysReachesController(req: Request, env: Env)
    ensures forall i :: 0 <= i < |SignupRoute.stages| ==> !SignupRoute.stages[i].Limit?
    ensures Run(SignupRoute.stages, req, env) == Reached("signupAdmin", ApplyChains(SignupChains, req, env.lib))
  {
    RunBodies(SignupChains, [Handler("signupAdmin")], req, env);
    assert Run([Handler("signupAdmin")], ApplyChains(SignupChains, req, env.lib), env)
      == Reached("signupAdmin", ApplyChains(SignupChains, req, env.lib));
  }

  /** The signup chains add to the request exactly the errors they find in
      the body as it arrived. */
  lemma SignupChainsReport(req: Request, lib: Lib)
    ensures ApplyChains(SignupChains, req, lib).errors == req.errors + AllErrors(SignupChains, req.body, lib)
  {
    ApplyChainsErrors(SignupChains, req, lib);
  }

  /** What the signup chains leave in the body: the email trimmed and
      normalised (the boolean `false` where `normalizeEmail` gives up, and the
      normalisation of "" for an absent email), the password as sent. */
  lemma SignupSanitizedBody(req: Request, lib: Lib)
    ensures var out := ApplyChains(SignupChains, req, lib).body;
      && Field(out, "email") == NormalizedEmail(JsStrings.Trim(Text(Field(req.body, "email"))), lib)
      && Field(out, "password") == Field(req.body, "password")
  {
    var afterEmail := RunChain(SignupEmail, req, lib);
    var afterPassword := RunChain(SignupPassword, afterEmail, lib);
    var rest := [SignupFirstName, SignupLastName];
    assert SignupChains == [SignupEmail] + ([SignupPassword] + rest);
    ApplyChainsCons(SignupEmail, [SignupPassword] + rest, req, lib);
    ApplyChainsCons(SignupPassword, rest, afterEmail, lib);
    // email: set by its own chain, then left alone
    SignupEmailValue(req, lib);
    RunChainFrame(SignupPassword, afterEmail, lib, "email");
    ApplyChainsFrame(rest, afterPassword, lib, "email");
    // password: untouched by the email chain, kept by its own validators
    RunChainFrame(SignupEmail, req, lib, "password");
    ValidatorsKeepValue(SignupPassword, afterEmail, lib);
    ApplyChainsFrame(rest, afterPassword, lib, "password");
  }

  lemma SignupEmailValue(req: Request, lib: Lib)
    ensures Field(RunChain(SignupEmail, req, lib).body, "email") ==
      NormalizedEmail(JsStrings.Trim(Text(Field(req.body, "email"))), lib)
  {
    var v := Field(req.body, "email");
    var trimmed := Sanitized(Trim, v, lib);
    TextAfterTrim(v, lib);
    var expected := NormalizedEmail(JsStrings.Trim(Text(v)), lib);
    ChainValueCons(Sanitize(NormalizeEmail), [], trimmed, lib);
    ChainValueCons(Validate(IsEmail, "Valid email is required"), [Sanitize(NormalizeEmail)], trimmed, lib);
    ChainValueCons(Sanitize(Trim), [Validate(IsEmail, "Valid email is required"), Sanitize(NormalizeEmail)], v, lib);
    assert SignupEmail.steps == [Sanitize(Trim)] + [Validate(IsEmail, "Valid email is required"), Sanitize(NormalizeEmail)];
    var out := ChainValue(SignupEmail.steps, v, lib);
    assert out == expected;
    assert !Skipped(SignupEmail, req.body);
  }

  /** `POST /signup` end to end. */
  method HandleSignup(store: AdminStore, req: Request, env: Env, salt: string) returns (response: Response)
    requires store.Valid()
    modifies store
    ensures store.Valid()
    ensures var validated := ApplyChains(SignupChains, req, env.lib);
      (store.Db(), response) == Signup(old(store.Db()), validated.errors, validated.body, salt, env.crypto)
  {
    SignupAlwaysReachesController(req, env);
    var validated := ApplyChains(SignupChains, req, env.lib);
    response := store.SignupAdmin(validated.errors, validated.body, salt, env.crypto);
  }

  /** `POST /login` end to end: the limiter's reply, or the controller's. */
  function HandleLogin(admins: map<string, Admin>, req: Request, env: Env): (r: Response)
    ensures !env.allows(LoginLimiter) ==> r.status == 429
    ensures env.allows(LoginLimiter) && req.errors == [] ==>
      (r.status == 200 <==>
        var body := ApplyChains(LoginChains, req, env.lib).body;
        AllErrors(LoginChains, req.body, env.lib) == [] && StringCredentials(body) &&
        Field(body, "email").s in admins &&
        env.crypto.compare(Field(body, "password").s, admins[Field(body, "email").s].password))
  {
    LoginLimiterFirst(req, env);
    ApplyChainsErrors(LoginChains, req, env.lib);
    match Run(LoginRoute.stages, req, env)
    case Responded(response) => response
    case Reached(_, validated) => Login(admins, validated.errors, validated.body, env.secret, env.now, env.crypto)
    case FellThrough(_) => Fail(404, "Not Found")
  }

  /** A password that is not a string but whose text passes the password rule
      gets through validation and is stopped by the controller's type guard. */
  lemma NonStringPasswordStoppedByController(store: AdminDb, req: Request, lib: Lib, salt: string, crypto: Crypto)
    requires req.errors == []
    requires Field(req.body, "password").NonString? && PasswordRule(Text(Field(req.body, "password")))
    requires lib.isEmail(JsStrings.Trim(Text(Field(req.body, "email"))))
    requires NameRule(Field(req.body, "firstName")) && NameRule(Field(req.body, "lastName"))
    ensures var validated := ApplyChains(SignupChains, req, lib);
      Signup(store, validated.errors, validated.body, salt, crypto) == (store, Fail(400, InvalidInputMessage))
  {
    var validated := ApplyChains(SignupChains, req, lib);
    assert AllErrors(SignupChains, req.body, lib) == [] by {
      SignupValidation(req.body, lib);
    }
    SignupChainsReport(req, lib);
    assert Field(validated.body, "password").NonString? by {
      SignupSanitizedBody(req, lib);
    }
  }

  /** An address `isEmail` accepts but `normalizeEmail` cannot normalise
      (validator.js answers `false`, for instance for a Gmail address that is
      only a "+tag") gets through validation, is written back as `false`, and
      is stopped by the controller's type guard. */
  lemma UnnormalisableEmailStoppedByController(store: AdminDb, req: Request, lib: Lib, salt: string, crypto: Crypto)
    requires req.errors == []
    requires lib.isEmail(JsStrings.Trim(Text(Field(req.body, "email"))))
    requires lib.normalizeEmail(JsStrings.Trim(Text(Field(req.body, "email")))).None?
    requires PasswordRule(Text(Field(req.body, "password")))
    requires NameRule(Field(req.body, "firstName")) && NameRule(Field(req.body, "lastName"))
    ensures var validated := ApplyChains(SignupChains, req, lib);
      && Field(validated.body, "email") == NonString("false")
      && Signup(store, validated.errors, validated.body, salt, crypto) == (store, Fail(400, InvalidInputMessage))
  {
    var validated := ApplyChains(SignupChains, req, lib);
    assert AllErrors(SignupChains, req.body, lib) == [] by {
      SignupValidation(req.body, lib);
    }
    SignupChainsReport(req, lib);
    assert Field(validated.body, "email") == NonString("false") by {
      SignupSanitizedBody(req, lib);
    }
  }
}
