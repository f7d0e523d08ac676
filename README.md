# PlanOra admin authentication and event routes, in Dafny

PlanOra is a small event-management web application. It has an Express
back end and a React front end. This project models the decision logic
around its admin accounts and its event routes:

- the admin controller (`signupAdmin`, `loginAdmin`): a chain of guards over
  the admin collection, which is keyed by email;
- the `protect` middleware: it reads the bearer token and ends every request
  in exactly one of `next()` or a 401;
- the admin and event routers: ordered lists of stages (rate limiter,
  `protect`, express-validator chains, controller);
- the error middleware (`errorHandler`, `notFound`);
- the client's shared HTTP instance: it attaches the stored token and forgets
  it on a 401;
- the admin sign-up page: it checks the form (the first failing check wins),
  posts it, and shows the server's errors.

bcrypt, jsonwebtoken and the validator.js functions are function-typed
fields of `Oracles.Crypto` and `Oracles.Lib`. Every property the application
relies on is a named predicate. A lemma requires it only when it needs it:

- `HashSound`: a password matches its own hash;
- `TokenSound`: a "1h" token verifies to its payload for one hour;
- `TokenShape`: a signed token is non-empty and has no space;
- `EscapeKeepsEmptiness`: escaping leaves the empty string empty, and only it.

The rate limiters' verdict, the clock, the bcrypt salt and the JWT secret are
parameters.

Layout, one module per file:

- `js_strings.dfy`: JavaScript's `trim`, `startsWith`, `split`, `join` and `\s`, and the
  `.length` and `isLength` counts.
- `patterns.dfy`: the password and email regular expressions, over characters.
- `oracles.dfy`: the libraries and their properties.
- `http.dfy`: body values and JSON replies.
- `auth_middleware.dfy`: `protect`.
- `pipeline.dfy`: stages and validator chains.
- `admin_controller.dfy`, `admin_routes.dfy`, `event_routes.dfy`: the back end.
- `error_handler.dfy`: the error middleware.
- `client_api.dfy`, `client_signup.dfy`: the browser side.
- `integration.dfy`: the two sides together.

## Model

| member | source | states |
|---|---|---|
| JsStrings.TrimStart | BEplanora/routes/admin.js:14 | the result is a suffix of the input; every character removed is whitespace; the result does not start with whitespace |
| JsStrings.TrimEnd | BEplanora/routes/admin.js:14 | the result is a prefix of the input; every character removed is whitespace; the result does not end with whitespace |
| JsStrings.TrimEmptyIffBlank | BEplanora/routes/admin.js:24-26 | a trimmed string is empty exactly when every character of the input is whitespace |
| JsStrings.Split | BEplanora/middleware/auth.js:17 | `split` yields at least one piece, and no piece contains the separator |
| JsStrings.SplitFirst | BEplanora/middleware/auth.js:17 | splitting a + sep + b gives a, then the pieces of b |
| JsStrings.JoinSplit | BEplanora/middleware/auth.js:17 | joining the pieces of a split with the separator gives back the string |
| JsStrings.SplitJoin | BEplanora/middleware/auth.js:17 | splitting a join of separator-free pieces gives back the pieces |
| JsStrings.CountOf | BEplanora/routes/admin.js:19 | the count of characters with a property is at most the length, and is zero exactly when no character has it |
| JsStrings.CountOfAppend | BEplanora/routes/admin.js:19 | counting distributes over concatenation |
| JsStrings.Utf16LengthCounts | FEplanora/src/pages/Admin/Adminsignup.jsx:43 | `.length` is the number of characters plus one for each character outside the Basic Multilingual Plane |
| JsStrings.LengthCounts | BEplanora/routes/admin.js:19 | `isLength` counts each character once, except U+FE0E and U+FE0F, which it does not count; so it never exceeds `.length`, and the two agree on strings without such selectors or astral characters |
| Patterns.StrongPasswordClasses | BEplanora/routes/admin.js:21-22 | a password matching the pattern holds a lowercase letter, an uppercase letter, a digit and one of @$!%*?&; without line breaks the converse holds too |
| Patterns.LineBreakDefeatsLookahead | BEplanora/routes/admin.js:21 | the lookaheads do not cross a line break: "\nAa1!" holds every class and is refused |
| Patterns.EmailPatternIffShape | FEplanora/src/pages/Admin/Adminsignup.jsx:36-40 | the client email regex accepts exactly: no whitespace, one '@' with text before it, and a '.' after it that is neither the first nor the last character of the domain |
| Patterns.EmailPatternHasShape | FEplanora/src/pages/Admin/Adminsignup.jsx:36 | every string the email regex accepts has that shape |
| Patterns.EmailShapeMatchesPattern | FEplanora/src/pages/Admin/Adminsignup.jsx:36 | every string of that shape is accepted by the email regex |
| AuthMiddleware.Protect | BEplanora/middleware/auth.js:7-41 | exactly one outcome: either next() is called once with req.user set to the decoded payload and no reply, or a 401 is sent and next() is not called; the message says whether there was no token or it failed |
| AuthMiddleware.NoTokenIffNotBearer | BEplanora/middleware/auth.js:11-14 | the reply is "no token provided" exactly when the header is missing, empty or does not start with "Bearer" |
| AuthMiddleware.BearerWithoutSecondFieldFails | BEplanora/middleware/auth.js:15-31 | a header starting with "Bearer" that has no space is refused with "token failed or expired" |
| AuthMiddleware.TokenIsSecondField | BEplanora/middleware/auth.js:17 | the token is the second space-separated field; any further fields are ignored |
| AuthMiddleware.ProceedOnlyWhenVerified | BEplanora/middleware/auth.js:20-25 | the request goes on exactly when the bearer token is non-empty and verifies; req.user is then the verified payload |
| AuthMiddleware.ConsultsOnlyTokenAndSecret | BEplanora/middleware/auth.js:20 | the decision depends only on what verification says about the token and the secret; no store is consulted |
| Pipeline.NormalizedEmail | BEplanora/routes/admin.js:16 | normalizeEmail writes back a string exactly when validator.js can normalise the address, and then the normalised address; otherwise it writes the boolean false |
| Pipeline.SanitizedAbsent | BEplanora/routes/admin.js:14 | a sanitizer on an absent field works on the empty string and leaves a value behind, so the field is no longer absent |
| Pipeline.TextAfterTrim | BEplanora/routes/admin.js:14 | after trim the field's text is the trimmed text of the value that arrived, an absent field included |
| Pipeline.ValidatorsKeepValue | BEplanora/routes/admin.js:18-22 | a chain made only of validators leaves its field as it arrived |
| Pipeline.RunBodies | BEplanora/routes/admin.js:12-36 | validation stages never answer; the request goes on with each chain applied |
| Pipeline.ApplyChainsErrors | BEplanora/routes/admin.js:12-35 | chains over distinct fields add, in chain order, the errors each finds in the body as it arrived |
| Pipeline.GuardFirstRejects | BEplanora/routes/events.js:12-15 | a route that starts with protect answers 401 for a request that does not verify, whatever follows |
| Pipeline.UngatedNeverResponds | BEplanora/routes/events.js:33-34 | a route without limiter or protect stages never answers by itself |
| AdminController.Login | BEplanora/controllers/adminController.js:74-126 | 200 exactly when validation passed, both credentials are strings, the email is on file and the password matches its hash; the reply then holds the public fields and a token for the record's id with expiry "1h"; unknown email and wrong password get the same reply; every failure is a 400 without a token |
| AdminController.AdminStore.SignupAdmin | BEplanora/controllers/adminController.js:10-69 | the new collection and the reply are those of the signup transition, and the collection stays consistent |
| AdminController.AdminStore.LoginAdmin | BEplanora/controllers/adminController.js:74-126 | reads the collection only; a 200 reply is the public view of the record filed under the email, with a token |
| AdminController.SignupKeepsConsistent | BEplanora/controllers/adminController.js:31-50 | every record stays filed under its own email, and ids stay unique and below the next id |
| AdminController.SignupRejections | BEplanora/controllers/adminController.js:13-38 | failed validation gives 400 with the errors list; non-string credentials give "Invalid input format"; a known email gives "Admin already exists"; every refusal leaves the collection unchanged |
| AdminController.SignupAddsOneHashedRecord | BEplanora/controllers/adminController.js:40-59 | 201 exactly when every guard passes; the collection then gains exactly one record, the others unchanged; its password is the hash of the password; the reply is the public view without a password |
| AdminController.DuplicateSignupRefused | BEplanora/controllers/adminController.js:32-38 | a second signup with the same email is refused and changes nothing |
| AdminController.LoginTokenNamesOneRecord | BEplanora/controllers/adminController.js:95-113 | in a consistent collection, a successful login's token carries the id of the record filed under the login email, and no other record has that id |
| AdminController.LoginRejections | BEplanora/controllers/adminController.js:77-101 | the login guards in order: the errors list, then "Invalid input format", then "Invalid credentials" for an unknown email |
| AdminController.SignupThenLogin | BEplanora/controllers/adminController.js:40-113 | after a signup, the same credentials log in, and the token is signed for the new record's id |
| AdminRoutes.SignupEmailErrors | BEplanora/routes/admin.js:13-17 | the signup email is refused exactly when its trimmed text fails isEmail |
| AdminRoutes.SignupPasswordErrors | BEplanora/routes/admin.js:18-22 | the length message exactly when `isLength` counts fewer than 8, then the pattern message exactly when the pattern fails |
| AdminRoutes.NameErrors | BEplanora/routes/admin.js:23-34 | trim always leaves a string, so isString never fails; a name is refused, with exactly its own message, when it is blank after trimming, an absent name included |
| AdminRoutes.LoginEmailErrors | BEplanora/routes/admin.js:44-50 | "Email must be a string" for a non-string; "Valid email is required" when the trimmed text fails isEmail |
| AdminRoutes.LoginPasswordErrors | BEplanora/routes/admin.js:51-55 | "Password must be a string" for a non-string; "Password is required" when empty |
| AdminRoutes.SignupErrorsSplit | BEplanora/routes/admin.js:12-35 | the signup report is the email, password, first-name and last-name chains' errors, in that order |
| AdminRoutes.SignupValidation | BEplanora/routes/admin.js:12-35 | signup validation passes exactly when the trimmed email passes isEmail, the password has an `isLength` count of at least 8 and matches the pattern, and both names are non-blank after trimming |
| AdminRoutes.LoginValidation | BEplanora/routes/admin.js:43-56 | login validation passes exactly when the email is a string whose trim passes isEmail and the password is a non-empty string |
| AdminRoutes.LoginLimiterFirst | BEplanora/routes/admin.js:40-58 | the limiter runs before validation and the controller: once it refuses, the reply is 429 whatever the request holds |
| AdminRoutes.SignupAlwaysReachesController | BEplanora/routes/admin.js:10-37 | signup has no limiter stage, and every request reaches the controller with the chains applied |
| AdminRoutes.SignupChainsReport | BEplanora/routes/admin.js:12-36 | the signup chains add exactly the errors they find in the body as sent |
| AdminRoutes.SignupSanitizedBody | BEplanora/routes/admin.js:13-22 | the controller sees the email trimmed and normalised (false when normalisation fails; an absent email is normalised from ""), and the password as sent |
| AdminRoutes.SignupEmailValue | BEplanora/routes/admin.js:13-17 | for every input the email chain leaves normalizeEmail of the trimmed text: the normalised address, or false when it cannot be normalised; an absent email is treated as "" |
| AdminRoutes.HandleSignup | BEplanora/routes/admin.js:10-37 | POST /signup updates the store and replies as the controller does on the validated request |
| AdminRoutes.HandleLogin | BEplanora/routes/admin.js:40-58 | 429 when the limiter refuses; otherwise 200 exactly when validation passes and the credentials match a record |
| AdminRoutes.NonStringPasswordStoppedByController | BEplanora/controllers/adminController.js:24-29 | a non-string password whose text passes the password rule gets through validation and is stopped with "Invalid input format". Real JSON reaches this case only through an array, and arrays are left out; a number, boolean, null or object becomes text that cannot match the password pattern |
| AdminRoutes.UnnormalisableEmailStoppedByController | BEplanora/controllers/adminController.js:24-29 | an email that passes isEmail but that normalizeEmail cannot normalise reaches the controller as false and is refused with "Invalid input format", leaving the store unchanged |
| EventRoutes.RouteTableShape | BEplanora/routes/events.js:10-34 | POST, PUT and DELETE run protect first; the two GET routes have only their controller; no route has a rate limiter |
| EventRoutes.UnauthenticatedWriteRejected | BEplanora/routes/events.js:10-30 | a write without a verifying token gets 401 before its body is checked |
| EventRoutes.ReadsArePublic | BEplanora/routes/events.js:33-34 | the read routes reach their controller for any request |
| EventRoutes.AuthenticatedCreateReachesController | BEplanora/routes/events.js:10-17 | with a verifying token, create reaches createEvent with req.user set and the validation errors added |
| EventRoutes.RequiredTextErrors | BEplanora/routes/events.js:13-14 | a required text field is refused exactly when it is blank after trimming |
| EventRoutes.DateErrors | BEplanora/routes/events.js:15 | a date is refused exactly when it fails isISO8601, unless it is optional and missing |
| EventRoutes.CreateValidation | BEplanora/routes/events.js:13-15 | create passes exactly when name and location are non-blank after trimming and the date passes isISO8601 |
| EventRoutes.UpdateValidation | BEplanora/routes/events.js:23-25 | update passes exactly when the date is absent or passes isISO8601 |
| ErrorHandler.Handle | BEplanora/middleware/errorHandler.js:17-30 | the status is res.statusCode when set and not 200, else 500; success is false; development shows the message and stack; any other mode shows the generic message and no stack |
| ErrorHandler.ProductionRevealsNothing | BEplanora/middleware/errorHandler.js:20-30 | outside development the reply does not depend on the error |
| ErrorHandler.ControllerErrorIsServerError | BEplanora/middleware/errorHandler.js:17 | an error passed on while the status is still 200 gets 500 |
| ErrorHandler.NotFound | BEplanora/middleware/errorHandler.js:36-40 | notFound sets 404 and passes on "Not Found - " + URL |
| ErrorHandler.UnmatchedRouteIs404 | BEplanora/middleware/errorHandler.js:36-40 | notFound followed by errorHandler answers 404, naming the URL in development |
| ClientApi.StoredToken | FEplanora/src/api.js:14-15 | a token is used exactly when adminToken is stored and non-empty |
| ClientApi.WithTokenChangesOnlyAuthorization | FEplanora/src/api.js:14-18 | with a stored token, Authorization becomes "Bearer " + token; without one, the headers are unchanged; no other header changes |
| ClientApi.InterceptRequest | FEplanora/src/api.js:13-19 | the same config object comes back, with its headers as above and nothing else changed |
| ClientApi.InterceptResponse | FEplanora/src/api.js:26-37 | a success passes through unchanged; an error stays rejected; a 401 removes adminToken and any other outcome leaves storage alone |
| ClientApi.UnauthorizedStopsTokenSending | FEplanora/src/api.js:29-31 | once adminToken is removed, requests leave with their headers unchanged |
| ClientSignup.CheckForm | FEplanora/src/pages/Admin/Adminsignup.jsx:30-57 | no message exactly when every field is filled, the email matches, the password has at least 8 UTF-16 code units and matches the pattern, and the confirmation is equal |
| ClientSignup.FirstFailureWins | FEplanora/src/pages/Admin/Adminsignup.jsx:30-57 | each of the five messages is shown exactly when its check is the first to fail |
| ClientSignup.RequestBody | FEplanora/src/pages/Admin/Adminsignup.jsx:61 | the posted body has exactly firstName, lastName, email and password, with the form's text |
| ClientSignup.ConfirmationNotSent | FEplanora/src/pages/Admin/Adminsignup.jsx:61 | confirmPassword is not posted |
| ClientSignup.Messages | FEplanora/src/pages/Admin/Adminsignup.jsx:85 | one message per error, in order, each its msg |
| ClientSignup.ErrorText | FEplanora/src/pages/Admin/Adminsignup.jsx:84-89 | an errors array shows its msgs joined by ", "; else a non-empty message; else, with no reply, no data, an empty message or any other payload, "Signup failed. Please try again." |
| ClientSignup.SignupPage.constructor | FEplanora/src/pages/Admin/Adminsignup.jsx:8-15 | the five inputs start empty, with no error |
| ClientSignup.SignupPage.HandleChange | FEplanora/src/pages/Admin/Adminsignup.jsx:18-20 | only the named input changes |
| ClientSignup.SignupPage.HandleSignup | FEplanora/src/pages/Admin/Adminsignup.jsx:23-91 | a failing check shows its message and posts nothing; a valid form is posted without the confirmation; success resets every input and clears the error; failure keeps the inputs and shows ErrorText |
| ClientSignup.PostedFormShape | FEplanora/src/pages/Admin/Adminsignup.jsx:36-57 | a posted form has a strong password of at least 8 UTF-16 code units equal to its confirmation, and an email of the shape user@host.tld |
| Integration.AttachedTokenIsVerified | FEplanora/src/api.js:14-17 | for a stored token without spaces, protect verifies exactly that token: it proceeds with the payload or refuses |
| Integration.NoStoredTokenNoAccess | FEplanora/src/api.js:15 | without a stored token or a header of its own, a request is refused as carrying no token |
| Integration.SessionLastsOneHour | BEplanora/controllers/adminController.js:111-113 | the token from a successful login opens protected routes for that admin until one hour after the login, and not from then on |
| Integration.RefusedTokenIsForgotten | FEplanora/src/api.js:29-31 | a 401 from protect is seen by the client as unauthorized, and later requests carry no session token |
| Integration.ClientPasswordPassesServer | BEplanora/routes/admin.js:18-22 | a password the page accepts passes the server's password chain, when it has no astral characters and no U+FE0E or U+FE0F, so that both counts agree |
| Integration.SelectorPasswordStrong | FEplanora/src/pages/Admin/Adminsignup.jsx:48-49 | "Aa1!aaa" followed by U+FE0F matches the password pattern |
| Integration.SelectorPasswordCounts | FEplanora/src/pages/Admin/Adminsignup.jsx:43 | that password is 8 code units long for the page and 7 for `isLength` |
| Integration.SelectorPasswordRefusedByServer | BEplanora/routes/admin.js:18-22 | that password passes the page's length and pattern checks, and the server refuses it with the length message alone |
| Integration.BlankNameFormAccepted | FEplanora/src/pages/Admin/Adminsignup.jsx:30-57 | the page accepts a form whose first name is a single space, which trims to the empty string: such forms exist |
| Integration.PostedEmailErrors | BEplanora/routes/admin.js:13-17 | the posted email fails the server's email chain exactly when its trim fails `isEmail`, with "Valid email is required" |
| Integration.PostedNameErrors | BEplanora/routes/admin.js:23-34 | a posted name input fails its chain exactly when it is blank after trimming, with that chain's message |
| Integration.BlankNameServerErrors | BEplanora/routes/admin.js:13-34 | any form the page accepts whose first name is blank, whose last name is not and whose email passes `isEmail`, and whose password has no astral characters and no U+FE0E or U+FE0F, is refused by the server for the first name and nothing else |
| Integration.RefusedSignupShowsMessages | FEplanora/src/pages/Admin/Adminsignup.jsx:84-86 | a signup the server's chains refuse leaves the store unchanged, and the page shows every message, joined by ", " |
| Integration.BlankNameRefusedByServer | BEplanora/routes/admin.js:23-28 | such a blank-name form, under the same password condition, ends in a 400 with "First name is required", an unchanged store, and that message on the page |

## Left out

- bcrypt, jsonwebtoken and validator.js internals: they are oracles, and their properties are explicit predicates (section 4.1.4 of RFC 7519 for the token expiry).
- MongoDB: the collection is a map keyed by email, with ids from a counter. Connection handling, the schema and the concurrent race between `findOne` and `create` are not modelled.
- The "Invalid admin data" branch (adminController.js:60-65) is not modelled: `Admin.create` either returns the document or throws.
- Exceptions passed to `next(error)` by the controllers are not modelled. The error handler is modelled on its own.
- Rate limiters: their windows and counters live in express-rate-limit, so each limiter's verdict is a parameter. The comments in rateLimiter.js give caps of 5 and 100, but the code sets 100, 10000 and 50. `writeLimiter` is defined but no route uses it.
- The event controller is not part of this model. Event routes end at the name of the controller function they call.
- UI: rendering, `alert`, `navigate`, the redirect at api.js:33, and the other pages are not modelled.
- Logging and console output are not modelled.
- Async scheduling is not modelled: a post is given as its settled result.
- The request interceptor's error handler (api.js:20-22) is not modelled. It only rejects again.
- Arrays in request bodies are not modelled. express-validator checks them element by element; here each field holds one value.
- A `string` holds Unicode scalar values, so JavaScript strings with lone surrogates are not modelled. `.length` and `isLength` are counted from the characters as described above.
- ClientPasswordPassesServer: holds only for passwords with no character outside the Basic Multilingual Plane and no U+FE0E or U+FE0F. `isLength` does not count those selectors, so the page's `.length` and the server's count can differ; SelectorPasswordRefusedByServer gives a password the page accepts and the server refuses.
- BlankNameServerErrors: the same password condition, for the same reason; without it the server may also report the password length.
- BlankNameRefusedByServer: the same password condition, for the same reason.
- `toDate()` on an invalid or empty date gives null in validator.js; the model keeps the date's text. No controller in this model reads the converted date.
- Header names are treated case-sensitively as "Authorization". Node lower-cases them on arrival.
- Several tests expect behaviour the code does not have, such as a `data` field and "Email already exists". The model follows the code.
