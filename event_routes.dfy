/**
 * The events router: a static table of (method, path, stages). Writes go
 * through `protect` first, reads are public, and no route is rate limited.
 * The event controller's own behaviour is not part of this model; a route
 * ends at the name of the controller function it calls.
 */
module EventRoutes {
  import opened Wrappers
  import opened Oracles
  import opened Http
  import opened AuthMiddleware
  import opened Pipeline
  import JsStrings

  /** `body(field).trim().escape().notEmpty().withMessage(msg)` */
  function RequiredText(field: string, msg: string): FieldChain {
    FieldChain(field, false, [Sanitize(Trim), Sanitize(Escape), Validate(NotEmpty, msg)])
  }

  /** `body(field).optional().trim().escape()` */
  function OptionalText(field: string): FieldChain {
    FieldChain(field, true, [Sanitize(Trim), Sanitize(Escape)])
  }

  const CreateChains := [
    RequiredText("name", "Event name is required"),
    RequiredText("location", "Location is required"),
    FieldChain("date", false, [Validate(IsISO8601, "Valid date is required"), Sanitize(ToDate)])]

  const UpdateChains := [
    OptionalText("name"),
    OptionalText("location"),
    FieldChain("date", true, [Validate(IsISO8601, DefaultMessage), Sanitize(ToDate)])]

  const CreateRoute := Route(Post, "/", [Guard] + Bodies(CreateChains) + [Handler("createEvent")])
  const UpdateRoute := Route(Put, "/:id", [Guard] + Bodies(UpdateChains) + [Handler("updateEvent")])
  const DeleteRoute := Route(Delete, "/:id", [Guard, Handler("deleteEvent")])
  const ListRoute := Route(Get, "/", [Handler("getEvents")])
  const ShowRoute := Route(Get, "/:id", [Handler("getEventById")])

  const Routes := [CreateRoute, UpdateRoute, DeleteRoute, ListRoute, ShowRoute]

  /** Every route that changes events runs `protect` first; the two read
      routes have no stage besides their controller; no route has a limiter. */
  lemma RouteTableShape()
    ensures forall r :: r in Routes && r.verb != Get ==> |r.stages| > 0 && r.stages[0] == Guard
    ensures forall r :: r in Routes && r.verb == Get ==> |r.stages| == 1 && r.stages[0].Handler?
    ensures forall r, i :: r in Routes && 0 <= i < |r.stages| ==> !r.stages[i].Limit?
  {
    forall r, i | r in Routes && 0 <= i < |r.stages| ensures !r.stages[i].Limit? {
      if r == CreateRoute || r == UpdateRoute {
        var chains := if r == CreateRoute then CreateChains else UpdateChains;
        assert r.stages == [Guard] + Bodies(chains) + [Handler(r.stages[|r.stages| - 1].name)];
        if 0 < i < |r.stages| - 1 {
          assert r.stages[i] == Bodies(chains)[i - 1];
        }
      }
    }
  }

  /** A write without a token that verifies is answered 401 before its body is
      looked at: an unauthenticated create with an invalid body gets 401, not 400. */
  lemma UnauthenticatedWriteRejected(r: Route, req: Request, env: Env)
    requires r in Routes && r.verb != Get
    requires !Decide(req.authorization, env.secret, env.now, env.crypto).Proceed?
    ensures Run(r.stages, req, env).Responded?
    ensures Run(r.stages, req, env).response.status == 401
  {
    RouteTableShape();
    assert r.stages == [Guard] + r.stages[1..];
    GuardFirstRejects(r.stages[1..], req, env);
  }

  /** The read routes serve every request, with or without a token. */
  lemma ReadsArePublic(r: Route, req: Request, env: Env)
    requires r in Routes && r.verb == Get
    ensures Run(r.stages, req, env) == Reached(r.stages[0].name, req)
  {
    RouteTableShape();
  }

  /** The create and update chains each see the body as it arrived. */
  lemma EventChainsDistinct()
    ensures DistinctFields(CreateChains) && DistinctFields(UpdateChains)
  {
  }

  /** With a verified token, the create request reaches the controller with
      `req.user` set and the validation errors added. */
  lemma AuthenticatedCreateReachesController(req: Request, env: Env)
    requires Decide(req.authorization, env.secret, env.now, env.crypto).Proceed?
    ensures var user := Decide(req.authorization, env.secret, env.now, env.crypto).user;
      var out := Run(CreateRoute.stages, req, env);
      out.Reached? && out.handler == "createEvent" && out.req.user == Some(user) &&
      out.req.errors == req.errors + AllErrors(CreateChains, req.body, env.lib)
  {
    var user := Decide(req.authorization, env.secret, env.now, env.crypto).user;
    var stages := CreateRoute.stages;
    assert stages[1..] == Bodies(CreateChains) + [Handler("createEvent")];
    RunBodies(CreateChains, [Handler("createEvent")], req.(user := Some(user)), env);
    EventChainsDistinct();
    ApplyChainsErrors(CreateChains, req.(user := Some(user)), env.lib);
    var validated := ApplyChains(CreateChains, req.(user := Some(user)), env.lib);
    assert Run([Handler("createEvent")], validated, env) == Reached("createEvent", validated);
    assert validated.user == Some(user) by {
      ApplyChainsKeepsUser(CreateChains, req.(user := Some(user)), env.lib);
    }
  }

  lemma {:induction false} ApplyChainsKeepsUser(chains: seq<FieldChain>, req: Request, lib: Lib)
    ensures ApplyChains(chains, req, lib).user == req.user
    decreases |chains|
  {
    if chains != [] {
      ApplyChainsKeepsUser(chains[1..], RunChain(chains[0], req, lib), lib);
    }
  }

  /** A required text field passes exactly when it is non-blank after trimming. */
  lemma RequiredTextErrors(field: string, msg: string, body: Body, lib: Lib)
    requires EscapeKeepsEmptiness(lib)
    ensures ChainErrors(RequiredText(field, msg), body, lib) ==
      if JsStrings.Trim(Text(Field(body, field))) != "" then [] else [FieldError(field, msg)]
  {
    var v := Field(body, field);
    var trimmed := Sanitized(Trim, v, lib);
    var escaped := Sanitized(Escape, trimmed, lib);
    TextAfterTrim(v, lib);
    assert Text(escaped) == "" <==> JsStrings.Trim(Text(v)) == "";
    StepErrorsCons(Validate(NotEmpty, msg), [], field, escaped, lib);
    StepErrorsCons(Sanitize(Escape), [Validate(NotEmpty, msg)], field, trimmed, lib);
    StepErrorsCons(Sanitize(Trim), [Sanitize(Escape), Validate(NotEmpty, msg)], field, v, lib);
    assert RequiredText(field, msg).steps == [Sanitize(Trim)] + [Sanitize(Escape), Validate(NotEmpty, msg)];
  }

  lemma DateErrors(optional: bool, msg: string, body: Body, lib: Lib)
    ensures var ch := FieldChain("date", optional, [Validate(IsISO8601, msg), Sanitize(ToDate)]);
      var v := Field(body, "date");
      ChainErrors(ch, body, lib) ==
        if (optional && v.Missing?) || lib.isISO8601(Text(v)) then [] else [FieldError("date", msg)]
  {
    var v := Field(body, "date");
    StepErrorsCons(Sanitize(ToDate), [], "date", v, lib);
    StepErrorsCons(Validate(IsISO8601, msg), [Sanitize(ToDate)], "date", v, lib);
  }

  /** Create requires a name and a location that are non-blank after trimming
      and a date passing the ISO 8601 check. */
  lemma CreateValidation(body: Body, lib: Lib)
    requires EscapeKeepsEmptiness(lib)
    ensures AllErrors(CreateChains, body, lib) == [] <==>
      && JsStrings.Trim(Text(Field(body, "name"))) != ""
      && JsStrings.Trim(Text(Field(body, "location"))) != ""
      && lib.isISO8601(Text(Field(body, "date")))
  {
    var c1, c2, c3 := CreateChains[0], CreateChains[1], CreateChains[2];
    AllErrorsOfThree(c1, c2, c3, body, lib);
    assert CreateChains == [c1, c2, c3];
    assert ChainErrors(c1, body, lib) == [] <==> JsStrings.Trim(Text(Field(body, "name"))) != "" by {
      RequiredTextErrors("name", "Event name is required", body, lib);
    }
    assert ChainErrors(c2, body, lib) == [] <==> JsStrings.Trim(Text(Field(body, "location"))) != "" by {
      RequiredTextErrors("location", "Location is required", body, lib);
    }
    assert ChainErrors(c3, body, lib) == [] <==> lib.isISO8601(Text(Field(body, "date"))) by {
      DateErrors(false, "Valid date is required", body, lib);
    }
  }

  /** On update every field is optional and only a supplied date is checked:
      the body passes exactly when the date is absent or passes the ISO 8601 check. */
  lemma UpdateValidation(body: Body, lib: Lib)
    ensures AllErrors(UpdateChains, body, lib) == [] <==>
      Field(body, "date").Missing? || lib.isISO8601(Text(Field(body, "date")))
  {
    var c1, c2, c3 := UpdateChains[0], UpdateChains[1], UpdateChains[2];
    StepErrorsCons(Sanitize(Escape), [], c1.field, Sanitized(Trim, Field(body, c1.field), lib), lib);
    StepErrorsCons(Sanitize(Trim), [Sanitize(Escape)], c1.field, Field(body, c1.field), lib);
    StepErrorsCons(Sanitize(Escape), [], c2.field, Sanitized(Trim, Field(body, c2.field), lib), lib);
    StepErrorsCons(Sanitize(Trim), [Sanitize(Escape)], c2.field, Field(body, c2.field), lib);
    DateErrors(true, DefaultMessage, body, lib);
    var e1, e2, e3 := ChainErrors(c1, body, lib), ChainErrors(c2, body, lib), ChainErrors(c3, body, lib);
    assert e1 == [] && e2 == [];
    AllErrorsCons(c3, [], body, lib);
    AllErrorsCons(c2, [c3], body, lib);
    AllErrorsCons(c1, [c2, c3], body, lib);
    assert UpdateChains == [c1] + [c2, c3];
    assert AllErrors(UpdateChains, body, lib) == e1 + (e2 + (e3 + []));
  }
}
