/**
 * The browser and the server together: the header the client attaches is the
 * one `protect` reads, a session token lives for one hour, and the client's
 * sign-up checks relate to the server's validation chains.
 */
module Integration {
  import opened Wrappers
  import opened JsStrings
  import opened Patterns
  import opened Oracles
  import opened Http
  import opened AuthMiddleware
  import opened Pipeline
  import opened AdminController
  import opened AdminRoutes
  import opened ClientApi
  import opened ClientSignup

  /** `req.headers.authorization` for a request sent with these headers
      (header names are case-insensitive in HTTP; Node lower-cases them). */
  function AuthorizationOf(headers: map<string, string>): Option<string> {
    if "Authorization" in headers then Some(headers["Authorization"]) else None
  }

  /** The header the client builds carries the stored token as its second
      space-separated field, so `protect` verifies exactly that token. */
  lemma AttachedTokenIsVerified(headers: map<string, string>, items: map<string, string>,
                                secret: string, now: int, c: Crypto)
    requires StoredToken(items).Some? && ' ' !in items[TokenKey]
    ensures Decide(AuthorizationOf(WithToken(headers, items)), secret, now, c) ==
      match c.verify(items[TokenKey], secret, now)
      case Some(user) => Proceed(user)
      case None => TokenFailed
  {
    var token := items[TokenKey];
    var header := BearerHeader(token);
    assert header == "Bearer" + " " + token;
    TokenIsSecondField("Bearer", token, "");
    assert StartsWith(header, "Bearer");
  }

  /** Without a stored token and without a header of its own, a request is
      refused by `protect` as carrying no token. */
  lemma NoStoredTokenNoAccess(headers: map<string, string>, items: map<string, string>,
                              secret: string, now: int, c: Crypto)
    requires StoredToken(items).None? && "Authorization" !in headers
    ensures Decide(AuthorizationOf(WithToken(headers, items)), secret, now, c) == NoToken
  {
  }

  /** The token a successful login returns, once stored by the client, opens
      the protected routes for the admin it names until one hour after the
      login, and not from then on. */
  lemma SessionLastsOneHour(admins: map<string, Admin>, body: Body, secret: string, loginTime: int,
                            now: int, crypto: Crypto, headers: map<string, string>, items: map<string, string>)
    requires TokenSound(crypto) && TokenShape(crypto)
    requires Login(admins, [], body, secret, loginTime, crypto).status == 200
    ensures var r := Login(admins, [], body, secret, loginTime, crypto);
      var stored := items[TokenKey := r.payload.token.value];
      var admin := admins[Field(body, "email").s];
      Decide(AuthorizationOf(WithToken(headers, stored)), secret, now, crypto) ==
        if now < loginTime + OneHour then Proceed(Claims(admin.id)) else TokenFailed
  {
    var r := Login(admins, [], body, secret, loginTime, crypto);
    var admin := admins[Field(body, "email").s];
    var input := SignInput(Claims(admin.id), secret, TokenExpiry, loginTime);
    var token := crypto.sign(input);
    assert r.payload.token == Some(token);
    var stored := items[TokenKey := token];
    assert StoredToken(stored) == Some(token);
    AttachedTokenIsVerified(headers, stored, secret, now, crypto);
  }

  /** When `protect` refuses a request in front of a protected handler, the
      client's response interceptor sees a 401 and drops the stored token, so
      the requests that follow carry no token of the session. */
  lemma RefusedTokenIsForgotten(rest: seq<Stage>, req: Request, env: Env,
                                headers: map<string, string>, items: map<string, string>)
    requires req.authorization == AuthorizationOf(WithToken(headers, items))
    requires !Decide(req.authorization, env.secret, env.now, env.crypto).Proceed?
    ensures Run([Guard] + rest, req, env).Responded?
    ensures var r := Run([Guard] + rest, req, env).response;
      IsUnauthorized(ApiError(Some(ErrorResponse(r.status, Some(r.payload)))))
    ensures WithToken(headers, items - {TokenKey}) == headers
  {
    GuardFirstRejects(rest, req, env);
    UnauthorizedStopsTokenSending(items, headers);
  }

  /** A form the client posts passes the server's password chain when every
      character of the password is counted alike by `.length` and `isLength`:
      both sides then use the same pattern and the same minimum length. */
  lemma ClientPasswordPassesServer(form: FormData, lib: Lib)
    requires CheckForm(form).None?
    requires CountedAlike(Input(form, "password"))
    ensures ChainErrors(SignupPassword, RequestBody(form), lib) == []
  {
    SignupPasswordErrors(RequestBody(form), lib);
    LengthCounts(Input(form, "password"));
    assert Field(RequestBody(form), "password") == Str(Input(form, "password"));
  }

  /** "Aa1!aaa" followed by U+FE0F matches the password pattern. */
  lemma SelectorPasswordStrong()
    ensures StrongPassword("Aa1!aaa\U{FE0F}")
  {
    var password := "Aa1!aaa\U{FE0F}";
    assert forall k :: 0 <= k < |password| ==> !IsLineTerminator(password[k]);
    assert InClass(password[1], Lower) && InClass(password[0], Upper);
    assert InClass(password[2], Digit) && InClass(password[3], Special);
  }

  /** "Aa1!aaa" followed by U+FE0F is eight UTF-16 code units but seven
      characters for `isLength`. */
  lemma SelectorPasswordCounts()
    ensures Utf16Length("Aa1!aaa\U{FE0F}") == 8 && IsLengthCount("Aa1!aaa\U{FE0F}") == 7
  {
    var s := "Aa1!aaa\U{FE0F}";
    assert CountOf(s, IsAstral) == 0 by {
      assert forall k :: 0 <= k < |s| ==> !IsAstral(s[k]);
    }
    SelectorCount();
    Utf16LengthCounts(s);
    LengthCounts(s);
  }

  /** The password has exactly one presentation selector, its last character. */
  lemma SelectorCount()
    ensures CountOf("Aa1!aaa\U{FE0F}", IsPresentationSelector) == 1
  {
    var plain, selector := "Aa1!aaa", "\U{FE0F}";
    assert CountOf(plain, IsPresentationSelector) == 0 by {
      assert forall k :: 0 <= k < |plain| ==> !IsPresentationSelector(plain[k]);
    }
    assert CountOf(selector, IsPresentationSelector) == 1;
    CountOfAppend(plain, selector, IsPresentationSelector);
    assert plain + selector == "Aa1!aaa\U{FE0F}";
  }

  /** Where the counts differ the page and the server disagree: with that
      password the page's password checks pass, and the server refuses it as
      too short. */
  lemma SelectorPasswordRefusedByServer(form: FormData, lib: Lib)
    requires Input(form, "password") == "Aa1!aaa\U{FE0F}"
    ensures Utf16Length(Input(form, "password")) == 8 && StrongPassword(Input(form, "password"))
    ensures ChainErrors(SignupPassword, RequestBody(form), lib) == [FieldError("password", PasswordLengthMessage)]
  {
    SelectorPasswordStrong();
    SelectorPasswordCounts();
    SignupPasswordErrors(RequestBody(form), lib);
    assert Field(RequestBody(form), "password") == Str(Input(form, "password"));
  }

  const BlankNameForm: FormData :=
    map["firstName" := " ", "lastName" := "Okafor", "email" := "admin@planora.io",
        "password" := "Secret1!", "confirmPassword" := "Secret1!"]

  lemma SampleEmailMatches()
    ensures EmailPattern("admin@planora.io")
  {
    var email := "admin@planora.io";
    assert email[..5] == "admin" && email[6..13] == "planora" && email[14..] == "io";
    assert EmailChars(email[..5]) && EmailChars(email[6..13]) && EmailChars(email[14..]);
    assert email[5] == '@' && email[13] == '.';
  }

  lemma SamplePasswordStrong()
    ensures StrongPassword("Secret1!")
  {
    var password := "Secret1!";
    assert forall k :: 0 <= k < |password| ==> !IsLineTerminator(password[k]);
    assert InClass(password[1], Lower) && InClass(password[0], Upper);
    assert InClass(password[6], Digit) && InClass(password[7], Special);
  }

  lemma BlankNameInputs()
    ensures Input(BlankNameForm, "firstName") == " "
    ensures Input(BlankNameForm, "lastName") == "Okafor"
    ensures Input(BlankNameForm, "email") == "admin@planora.io"
    ensures Input(BlankNameForm, "password") == "Secret1!"
    ensures Input(BlankNameForm, "confirmPassword") == "Secret1!"
  {
  }

  /** The page accepts a form whose first name is a single space, which is
      blank once trimmed. */
  lemma BlankNameFormAccepted()
    ensures CheckForm(BlankNameForm).None?
    ensures JsStrings.Trim(Input(BlankNameForm, "firstName")) == ""
  {
    BlankNameInputs();
    SampleEmailMatches();
    SamplePasswordStrong();
    assert Acceptable(BlankNameForm);
    assert JsStrings.Trim(" ") == "";
  }

  /** A posted email passes the server's email chain exactly when its trim
      passes `isEmail`. */
  lemma PostedEmailErrors(form: FormData, lib: Lib)
    ensures ChainErrors(SignupEmail, RequestBody(form), lib) ==
      if lib.isEmail(JsStrings.Trim(Input(form, "email"))) then []
      else [FieldError("email", "Valid email is required")]
  {
    var body := RequestBody(form);
    assert Text(Field(body, "email")) == Input(form, "email");
    SignupEmailErrors(body, lib);
  }

  /** A posted name is always present, so the server reports it only when it
      is blank after trimming. */
  lemma PostedNameErrors(form: FormData, field: string, msg: string, lib: Lib)
    requires field == "firstName" || field == "lastName"
    ensures ChainErrors(NameChain(field, msg), RequestBody(form), lib) ==
      if JsStrings.Trim(Input(form, field)) != "" then [] else [FieldError(field, msg)]
  {
    NameErrors(field, msg, RequestBody(form), lib);
    assert Field(RequestBody(form), field) == Str(Input(form, field));
  }

  /** When only the first-name chain reports, its error is the whole
      report of the signup chains. */
  lemma OnlyFirstNameReported(body: Body, lib: Lib)
    requires ChainErrors(SignupFirstName, body, lib) == [FieldError("firstName", "First name is required")]
    requires ChainErrors(SignupEmail, body, lib) == []
    requires ChainErrors(SignupPassword, body, lib) == []
    requires ChainErrors(SignupLastName, body, lib) == []
    ensures AllErrors(SignupChains, body, lib) == [FieldError("firstName", "First name is required")]
  {
    SignupErrorsSplit(body, lib);
  }

  /** For a form the page accepts whose first name is blank, the server's
      signup chains report the first name and nothing else, provided the
      email passes `isEmail` and the last name is not blank. */
  lemma BlankNameServerErrors(form: FormData, lib: Lib)
    requires CheckForm(form).None? && CountedAlike(Input(form, "password"))
    requires JsStrings.Trim(Input(form, "firstName")) == ""
    requires JsStrings.Trim(Input(form, "lastName")) != ""
    requires lib.isEmail(JsStrings.Trim(Input(form, "email")))
    ensures AllErrors(SignupChains, RequestBody(form), lib) ==
      [FieldError("firstName", "First name is required")]
  {
    PostedEmailErrors(form, lib);
    ClientPasswordPassesServer(form, lib);
    PostedNameErrors(form, "firstName", "First name is required", lib);
    PostedNameErrors(form, "lastName", "Last name is required", lib);
    OnlyFirstNameReported(RequestBody(form), lib);
  }

  /** A signup the server's chains refuse leaves the collection as it was,
      and the page shows every message the chains produced, in order, joined
      by ", ". */
  lemma RefusedSignupShowsMessages(req: Request, db: AdminDb, lib: Lib, salt: string, crypto: Crypto)
    requires req.errors == [] && AllErrors(SignupChains, req.body, lib) != []
    ensures var validated := ApplyChains(SignupChains, req, lib);
      var outcome := Signup(db, validated.errors, validated.body, salt, crypto);
      && outcome.0 == db
      && outcome.1 == Response(400, Errors(AllErrors(SignupChains, req.body, lib)))
      && ErrorText(ApiError(Some(ErrorResponse(outcome.1.status, Some(outcome.1.payload))))) ==
           Join(Messages(AllErrors(SignupChains, req.body, lib)), ", ")
  {
    SignupChainsReport(req, lib);
    assert [] + AllErrors(SignupChains, req.body, lib) == AllErrors(SignupChains, req.body, lib);
  }

  /** The client tests names only for emptiness, the server after trimming: a
      form the page accepts whose first name is blank (such forms exist, see
      `BlankNameFormAccepted`) is refused by the server without touching the
      collection, and the page then shows the server's message. */
  lemma BlankNameRefusedByServer(form: FormData, req: Request, db: AdminDb, lib: Lib, salt: string, crypto: Crypto)
    requires CheckForm(form).None? && CountedAlike(Input(form, "password"))
    requires JsStrings.Trim(Input(form, "firstName")) == ""
    requires JsStrings.Trim(Input(form, "lastName")) != ""
    requires lib.isEmail(JsStrings.Trim(Input(form, "email")))
    requires req.body == RequestBody(form) && req.errors == []
    ensures var validated := ApplyChains(SignupChains, req, lib);
      var outcome := Signup(db, validated.errors, validated.body, salt, crypto);
      && outcome.0 == db
      && outcome.1 == Response(400, Errors([FieldError("firstName", "First name is required")]))
      && ErrorText(ApiError(Some(ErrorResponse(outcome.1.status, Some(outcome.1.payload))))) ==
           "First name is required"
  {
    BlankNameServerErrors(form, lib);
    RefusedSignupShowsMessages(req, db, lib, salt, crypto);
    assert Messages([FieldError("firstName", "First name is required")]) == ["First name is required"];
  }
}
