/**
 * Express routing as an ordered list of stages, and express-validator field
 * chains as ordered lists of sanitizers and validators. A stage either passes
 * the (possibly updated) request on, or ends it with a reply; the route's
 * controller is the stage that the request finally reaches.
 */
module Pipeline {
  import opened Wrappers
  import opened JsStrings
  import opened Patterns
  import opened Oracles
  import opened Http
  import opened AuthMiddleware

  /** express-validator sanitizers used by the routes. */
  datatype Sanitizer = Trim | Escape | NormalizeEmail | ToDate

  /** express-validator validators used by the routes. */
  datatype Check = IsString | NotEmpty | MinLength(n: nat) | PasswordPattern | IsEmail | IsISO8601

  /** A chain item; `withMessage` has already been attached to the validator it follows. */
  datatype Step = Sanitize(sanitizer: Sanitizer) | Validate(check: Check, msg: string)

  /** The message of a validator given no `withMessage`. */
  const DefaultMessage := "Invalid value"

  /** `body(field)[.optional()]...` */
  datatype FieldChain = FieldChain(field: string, optional: bool, steps: seq<Step>)

  /** The express-rate-limit instances. */
  datatype Policy = LoginLimiter | ApiLimiter | WriteLimiter

  /** The message each limiter answers with (status 429). */
  function LimitMessage(p: Policy): string {
    match p
    case LoginLimiter => "Too many login attempts from this IP, please try again after 15 minutes"
    case ApiLimiter => "Too many requests from this IP, please try again later"
    case WriteLimiter => "Too many write requests, please slow down"
  }

  datatype Stage =
    | Limit(policy: Policy)      // a rate limiter
    | Guard                      // the `protect` middleware
    | Body(chain: FieldChain)    // an express-validator chain
    | Handler(name: string)      // the controller

  datatype Verb = Get | Post | Put | Delete

  datatype Route = Route(verb: Verb, path: string, stages: seq<Stage>)

  /** What the stages read and write of a request: the header `protect` reads,
      the body the chains sanitise, `req.user`, and the validation errors that
      `validationResult(req)` later reports. */
  datatype Request = Request(authorization: Option<string>, body: Body, user: Option<Claims>, errors: seq<FieldError>)

  /** Everything outside the request: the libraries, the JWT secret, the clock,
      and the rate limiters' verdict for this request's client address. */
  datatype Env = Env(lib: Lib, crypto: Crypto, secret: string, now: int, allows: Policy -> bool)

  datatype Outcome =
    | Responded(response: Response)            // a stage answered
    | Reached(handler: string, req: Request)   // the controller was called with `req`
    | FellThrough(req: Request)                // every stage called next()

  /** What `normalizeEmail()` writes back: the normalised address, or the
      boolean `false` validator.js answers with when it cannot normalise. */
  function NormalizedEmail(s: string, lib: Lib): (v: Value)
    ensures v.Str? <==> lib.normalizeEmail(s).Some?
    ensures v.Str? ==> v.s == lib.normalizeEmail(s).value
    ensures !v.Str? ==> v == NonString("false")
  {
    match lib.normalizeEmail(s)
    case Some(e) => Str(e)
    case None => NonString("false")
  }

  /** A sanitizer of a chain that runs replaces the value by what the
      sanitizer makes of its text. An absent field has the text "" (the
      `toString` of `undefined`), so it is written back as what the sanitizer
      makes of "". */
  function Sanitized(s: Sanitizer, v: Value, lib: Lib): Value {
    if v.Missing? then
      match s
      case Trim => Str("")
      case Escape => Str(lib.escape(""))
      case NormalizeEmail => NormalizedEmail("", lib)
      case ToDate => Date("")
    else
      match s
      case Trim => Str(JsStrings.Trim(Text(v)))
      case Escape => Str(lib.escape(Text(v)))
      case NormalizeEmail => NormalizedEmail(Text(v), lib)
      case ToDate => Date(Text(v))
  }

  /** Sanitizers treat an absent field as the empty string, and leave a string. */
  lemma SanitizedAbsent(s: Sanitizer, lib: Lib)
    ensures Sanitized(s, Missing, lib) == Sanitized(s, Str(""), lib)
    ensures !Sanitized(s, Missing, lib).Missing?
  {
    if s == Trim {
      assert JsStrings.Trim("") == "";
    }
  }

  /** The text of a trimmed field is the trim of its text. */
  lemma TextAfterTrim(v: Value, lib: Lib)
    ensures Text(Sanitized(Trim, v, lib)) == JsStrings.Trim(Text(v))
  {
    if v.Missing? {
      assert JsStrings.Trim("") == "";
    }
  }

  /** Whether a validator accepts a value. */
  predicate Holds(c: Check, v: Value, lib: Lib) {
    match c
    case IsString => v.Str?
    case NotEmpty => |Text(v)| > 0
    case MinLength(n) => JsStrings.IsLengthCount(Text(v)) >= n
    case PasswordPattern => StrongPassword(Text(v))
    case IsEmail => lib.isEmail(Text(v))
    case IsISO8601 => lib.isISO8601(Text(v))
  }

  /** The effect of one chain item on the value. */
  function Apply(step: Step, v: Value, lib: Lib): Value {
    match step
    case Sanitize(s) => Sanitized(s, v, lib)
    case Validate(_, _) => v
  }

  /** The value a chain leaves: its sanitizers applied in order. */
  function ChainValue(steps: seq<Step>, v: Value, lib: Lib): Value
    decreases |steps|
  {
    if steps == [] then v else ChainValue(steps[1..], Apply(steps[0], v, lib), lib)
  }

  /** Every item of a chain runs, in order, none stopping the chain; each
      failing validator, tried on the value as sanitised so far, adds one error. */
  function StepErrors(steps: seq<Step>, path: string, v: Value, lib: Lib): seq<FieldError>
    decreases |steps|
  {
    if steps == [] then []
    else
      (if steps[0].Validate? && !Holds(steps[0].check, v, lib) then [FieldError(path, steps[0].msg)] else []) +
      StepErrors(steps[1..], path, Apply(steps[0], v, lib), lib)
  }

  /** One item of a chain, then the rest. */
  lemma StepErrorsCons(step: Step, rest: seq<Step>, path: string, v: Value, lib: Lib)
    ensures StepErrors([step] + rest, path, v, lib) ==
      (if step.Validate? && !Holds(step.check, v, lib) then [FieldError(path, step.msg)] else []) +
      StepErrors(rest, path, Apply(step, v, lib), lib)
  {
    assert ([step] + rest)[1..] == rest;
  }

  lemma ChainValueCons(step: Step, rest: seq<Step>, v: Value, lib: Lib)
    ensures ChainValue([step] + rest, v, lib) == ChainValue(rest, Apply(step, v, lib), lib)
  {
    assert ([step] + rest)[1..] == rest;
  }

  /** An optional chain skips a field that is absent. */
  predicate Skipped(ch: FieldChain, body: Body) {
    ch.optional && Field(body, ch.field).Missing?
  }

  /** The errors a chain reports on a body. */
  function ChainErrors(ch: FieldChain, body: Body, lib: Lib): seq<FieldError> {
    if Skipped(ch, body) then [] else StepErrors(ch.steps, ch.field, Field(body, ch.field), lib)
  }

  /** A chain run as a middleware: the sanitised value is written back and the
      errors are added to the request. A chain of validators only leaves an
      absent field absent. */
  function RunChain(ch: FieldChain, req: Request, lib: Lib): Request {
    if Skipped(ch, req.body) then req
    else
      var v := ChainValue(ch.steps, Field(req.body, ch.field), lib);
      req.(body := if v.Missing? then req.body else req.body[ch.field := v],
           errors := req.errors + ChainErrors(ch, req.body, lib))
  }

  /** Runs the stages in order. */
  function Run(stages: seq<Stage>, req: Request, env: Env): Outcome
    decreases |stages|
  {
    if stages == [] then FellThrough(req)
    else
      match stages[0]
      case Limit(p) =>
        if env.allows(p) then Run(stages[1..], req, env) else Responded(Fail(429, LimitMessage(p)))
      case Guard =>
        (match Decide(req.authorization, env.secret, env.now, env.crypto)
         case Proceed(user) => Run(stages[1..], req.(user := Some(user)), env)
         case NoToken => Responded(Fail(401, NoTokenMessage))
         case TokenFailed => Responded(Fail(401, FailedMessage)))
      case Body(ch) => Run(stages[1..], RunChain(ch, req, env.lib), env)
      case Handler(name) => Reached(name, req)
  }

  /** Several chains as consecutive stages. */
  function Bodies(chains: seq<FieldChain>): (stages: seq<Stage>)
    ensures |stages| == |chains|
    ensures forall i :: 0 <= i < |chains| ==> stages[i] == Body(chains[i])
  {
    seq(|chains|, i requires 0 <= i < |chains| => Body(chains[i]))
  }

  /** The request after a list of chains. */
  function ApplyChains(chains: seq<FieldChain>, req: Request, lib: Lib): Request
    decreases |chains|
  {
    if chains == [] then req else ApplyChains(chains[1..], RunChain(chains[0], req, lib), lib)
  }

  /** The errors of a list of chains, each run on the body as given. */
  function AllErrors(chains: seq<FieldChain>, body: Body, lib: Lib): seq<FieldError>
    decreases |chains|
  {
    if chains == [] then [] else ChainErrors(chains[0], body, lib) + AllErrors(chains[1..], body, lib)
  }

  lemma AllErrorsCons(ch: FieldChain, rest: seq<FieldChain>, body: Body, lib: Lib)
    ensures AllErrors([ch] + rest, body, lib) == ChainErrors(ch, body, lib) + AllErrors(rest, body, lib)
  {
    assert ([ch] + rest)[1..] == rest;
  }

  /** Three chains together report nothing exactly when each reports nothing. */
  lemma AllErrorsOfThree(c1: FieldChain, c2: FieldChain, c3: FieldChain, body: Body, lib: Lib)
    ensures AllErrors([c1, c2, c3], body, lib) == [] <==>
      ChainErrors(c1, body, lib) == [] && ChainErrors(c2, body, lib) == [] && ChainErrors(c3, body, lib) == []
  {
    AllErrorsCons(c3, [], body, lib);
    AllErrorsCons(c2, [c3], body, lib);
    AllErrorsCons(c1, [c2, c3], body, lib);
    assert [c1, c2, c3] == [c1] + [c2, c3];
    assert [c2, c3] == [c2] + [c3];
  }

  lemma ApplyChainsCons(ch: FieldChain, rest: seq<FieldChain>, req: Request, lib: Lib)
    ensures ApplyChains([ch] + rest, req, lib) == ApplyChains(rest, RunChain(ch, req, lib), lib)
  {
    assert ([ch] + rest)[1..] == rest;
  }

  /** A chain of validators only leaves its field as it was. */
  lemma {:induction false} ValidatorsKeepValue(ch: FieldChain, req: Request, lib: Lib)
    requires forall i :: 0 <= i < |ch.steps| ==> ch.steps[i].Validate?
    ensures Field(RunChain(ch, req, lib).body, ch.field) == Field(req.body, ch.field)
  {
    var steps, v := ch.steps, Field(req.body, ch.field);
    var k := 0;
    while k < |steps|
      invariant 0 <= k <= |steps|
      invariant ChainValue(steps, v, lib) == ChainValue(steps[k..], v, lib)
    {
      assert steps[k..][1..] == steps[k + 1..];
      k := k + 1;
    }
    assert steps[|steps|..] == [];
  }

  predicate DistinctFields(chains: seq<FieldChain>) {
    forall i, j :: 0 <= i < j < |chains| ==> chains[i].field != chains[j].field
  }

  /** Validation stages never answer: a run of chains passes the request on. */
  lemma {:induction false} RunBodies(chains: seq<FieldChain>, rest: seq<Stage>, req: Request, env: Env)
    ensures Run(Bodies(chains) + rest, req, env) == Run(rest, ApplyChains(chains, req, env.lib), env)
    decreases |chains|
  {
    if chains != [] {
      var stages := Bodies(chains) + rest;
      assert stages[0] == Body(chains[0]);
      assert stages[1..] == Bodies(chains[1..]) + rest;
      RunBodies(chains[1..], rest, RunChain(chains[0], req, env.lib), env);
    } else {
      assert Bodies(chains) + rest == rest;
    }
  }

  /** A chain reads and writes only its own field. */
  lemma RunChainFrame(ch: FieldChain, req: Request, lib: Lib, f: string)
    requires f != ch.field
    ensures Field(RunChain(ch, req, lib).body, f) == Field(req.body, f)
  {
  }

  lemma {:induction false} AllErrorsFrame(chains: seq<FieldChain>, b1: Body, b2: Body, lib: Lib)
    requires forall i :: 0 <= i < |chains| ==> Field(b1, chains[i].field) == Field(b2, chains[i].field)
    ensures AllErrors(chains, b1, lib) == AllErrors(chains, b2, lib)
    decreases |chains|
  {
    if chains != [] {
      assert Skipped(chains[0], b1) == Skipped(chains[0], b2);
      AllErrorsFrame(chains[1..], b1, b2, lib);
    }
  }

  /** Chains over distinct fields report, in chain order, the errors each would
      report on the body as it arrived, after any errors already recorded. */
  lemma {:induction false} ApplyChainsErrors(chains: seq<FieldChain>, req: Request, lib: Lib)
    requires DistinctFields(chains)
    ensures ApplyChains(chains, req, lib).errors == req.errors + AllErrors(chains, req.body, lib)
    ensures ApplyChains(chains, req, lib).authorization == req.authorization
    decreases |chains|
  {
    if chains != [] {
      var next := RunChain(chains[0], req, lib);
      ApplyChainsErrors(chains[1..], next, lib);
      forall i | 0 <= i < |chains[1..]|
        ensures Field(next.body, chains[1..][i].field) == Field(req.body, chains[1..][i].field)
      {
        RunChainFrame(chains[0], req, lib, chains[1..][i].field);
      }
      AllErrorsFrame(chains[1..], next.body, req.body, lib);
    }
  }

  /** Chains leave alone every field they do not name. */
  lemma {:induction false} ApplyChainsFrame(chains: seq<FieldChain>, req: Request, lib: Lib, f: string)
    requires forall i :: 0 <= i < |chains| ==> chains[i].field != f
    ensures Field(ApplyChains(chains, req, lib).body, f) == Field(req.body, f)
    decreases |chains|
  {
    if chains != [] {
      RunChainFrame(chains[0], req, lib, f);
      ApplyChainsFrame(chains[1..], RunChain(chains[0], req, lib), lib, f);
    }
  }

  /** A request that fails `protect` is answered 401 by a route whose first
      stage is `protect`, whatever follows. */
  lemma GuardFirstRejects(rest: seq<Stage>, req: Request, env: Env)
    requires !Decide(req.authorization, env.secret, env.now, env.crypto).Proceed?
    ensures Run([Guard] + rest, req, env).Responded?
    ensures Run([Guard] + rest, req, env).response.status == 401
  {
    assert ([Guard] + rest)[0] == Guard;
  }

  /** A route without limiter or `protect` stages cannot answer by itself. */
  lemma {:induction false} UngatedNeverResponds(stages: seq<Stage>, req: Request, env: Env)
    requires forall i :: 0 <= i < |stages| ==> stages[i].Body? || stages[i].Handler?
    ensures !Run(stages, req, env).Responded?
    decreases |stages|
  {
    if stages != [] && !stages[0].Handler? {
      UngatedNeverResponds(stages[1..], RunChain(stages[0].chain, req, env.lib), env);
    }
  }
}
