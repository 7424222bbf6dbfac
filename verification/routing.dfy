/** The root router: which gates a request passes before it reaches a
    handler.

    The root router is a list of layers tried in order. `router.use(x).use(y)`
    mounts both `x` and `y` on the root router (each `use` returns the router),
    so `authMiddleware` is a root-level layer that runs for every request that
    reaches it, not only for the router mounted next to it; it is mounted four
    times, and `recruiterMiddleware` once, before the recruiter routes. A
    mounted router runs its own layers on the rest of the path and falls
    through to the next root layer when none of its routes match. Paths are
    sequences of segments; the session each `authMiddleware` run resolves is
    the same input. */
module Routing {
  import opened Values
  import opened Types
  import AuthMiddleware
  import RecruiterMiddleware

  datatype Method = Get | Head | Post | Put | Patch | Delete | Options

  /** The handlers the router can reach. */
  datatype Endpoint =
    | Ping | Index | ListJobs | JobDetails
    | PipelineRequirements
    | Apply
    | ProfileInfo
    | CreateJob | RecruiterJobs | UpdateJobStatus | RecruiterApplications

  datatype Gate = Auth | Recruiter

  datatype Route = Route(verb: Method, path: seq<string>, endpoint: Endpoint)

  /** A layer inside a mounted router. */
  datatype Step = Check(gate: Gate) | Handle(route: Route)

  /** A layer of the root router. */
  datatype Layer = Use(gate: Gate) | Mount(prefix: seq<string>, steps: seq<Step>)

  datatype Request = Request(verb: Method, path: seq<string>)

  /** The result of routing one request: a handler runs with the session
      context the request carries, a gate answers, or nothing matches. */
  datatype Outcome = Served(endpoint: Endpoint, context: Option<Session>) | Refused(reply: ErrorReply) | NotFound

  /** Inside a mounted router: a handler ran, a gate answered, or the request
      leaves the router with its (possibly updated) context. */
  datatype StepsResult = Finished(outcome: Outcome) | FallThrough(context: Option<Session>)

  /** `router.get` also answers HEAD requests. */
  predicate MethodMatches(route: Method, request: Method) {
    route == request || (route == Get && request == Head)
  }

  function RunGate(gate: Gate, session: Session, context: Option<Session>): GateResult
  {
    match gate
    case Auth => AuthMiddleware.Authenticate(session)
    case Recruiter => RecruiterMiddleware.RequireRecruiter(context)
  }

  function RunSteps(steps: seq<Step>, verb: Method, rest: seq<string>, session: Session, context: Option<Session>): StepsResult
    decreases |steps|
  {
    if |steps| == 0 then FallThrough(context)
    else match steps[0]
      case Check(gate) =>
        (match RunGate(gate, session, context)
         case Refuse(reply) => Finished(Refused(reply))
         case Proceed(c) => RunSteps(steps[1..], verb, rest, session, c))
      case Handle(route) =>
        if MethodMatches(route.verb, verb) && route.path == rest then Finished(Served(route.endpoint, context))
        else RunSteps(steps[1..], verb, rest, session, context)
  }

  function RunLayers(layers: seq<Layer>, request: Request, session: Session, context: Option<Session>): Outcome
    decreases |layers|
  {
    if |layers| == 0 then NotFound
    else match layers[0]
      case Use(gate) =>
        (match RunGate(gate, session, context)
         case Refuse(reply) => Refused(reply)
         case Proceed(c) => RunLayers(layers[1..], request, session, c))
      case Mount(prefix, steps) =>
        if prefix <= request.path then
          match RunSteps(steps, request.verb, request.path[|prefix|..], session, context)
          case Finished(outcome) => outcome
          case FallThrough(c) => RunLayers(layers[1..], request, session, c)
        else RunLayers(layers[1..], request, session, context)
  }

  const ApiRouter := [Handle(Route(Get, ["ping"], Ping)), Handle(Route(Get, [], Index))]
  const JobsRouter := [Handle(Route(Get, ["list-jobs"], ListJobs)), Handle(Route(Get, ["job-details"], JobDetails))]
  const PipelineRouter := [Check(Recruiter), Handle(Route(Post, ["requirements"], PipelineRequirements))]
  const ApplicationRouter := [Handle(Route(Post, ["apply"], Apply))]
  const UserRouter := [Handle(Route(Get, ["get-profile-info"], ProfileInfo))]
  const RecruiterRouter := [
    Handle(Route(Post, ["create"], CreateJob)),
    Handle(Route(Get, ["recruiter-jobs"], RecruiterJobs)),
    Handle(Route(Post, ["update-job-status"], UpdateJobStatus)),
    Handle(Route(Get, ["applications"], RecruiterApplications))]

  /** The root router, layer by layer. */
  const RootRouter := [
    Mount([], ApiRouter),
    Mount([], JobsRouter),
    Use(Auth), Mount(["pipeline_result"], PipelineRouter),
    Use(Auth), Mount([], ApplicationRouter),
    Use(Auth), Mount(["user"], UserRouter),
    Use(Auth), Use(Recruiter), Mount(["recruiter"], RecruiterRouter)]

  /** Routing a fresh request (nothing attached yet) through the root
      router. A handler sees either no session or the authenticated one, and
      a refusal is a 401, or a 403 for a logged-in user without a recruiter
      profile. */
  function Dispatch(request: Request, session: Session): (r: Outcome)
    ensures ProperOutcome(r, session)
  {
    LayersKeepConsistent(RootRouter, request, session, None);
    RunLayers(RootRouter, request, session, None)
  }

  /** What the first gate says when it refuses an unauthenticated session. */
  function LoginReply(session: Session): ErrorReply
  {
    ErrorReply(401, "Unauthorized", UnauthorizedMessage(session.Error()))
  }

  /** The ping, index, job-listing and job-details routes are mounted before
      any gate: they are served with no session attached, whatever the auth
      server says. */
  lemma PublicRoutesNeedNoSession(session: Session)
    ensures Dispatch(Request(Get, ["ping"]), session) == Served(Ping, None)
    ensures Dispatch(Request(Get, []), session) == Served(Index, None)
    ensures Dispatch(Request(Get, ["list-jobs"]), session) == Served(ListJobs, None)
    ensures Dispatch(Request(Get, ["job-details"]), session) == Served(JobDetails, None)
  {
    var rest := RootRouter[1..];
    assert RunSteps(ApiRouter, Get, ["list-jobs"], session, None) == FallThrough(None);
    assert RunSteps(ApiRouter, Get, ["job-details"], session, None) == FallThrough(None);
    assert RunLayers(rest, Request(Get, ["list-jobs"]), session, None) == Served(ListJobs, None);
    assert RunLayers(rest, Request(Get, ["job-details"]), session, None) == Served(JobDetails, None);
  }

  const ForbiddenReply := ErrorReply(403, "Forbidden", RecruiterMiddleware.NoPermission)

  /** `layer` lets the request through, which then carries `after`. */
  predicate Passes(layer: Layer, request: Request, session: Session, context: Option<Session>, after: Option<Session>)
  {
    match layer
    case Use(gate) => RunGate(gate, session, context) == Proceed(after)
    case Mount(prefix, steps) =>
      if prefix <= request.path
      then RunSteps(steps, request.verb, request.path[|prefix|..], session, context) == FallThrough(after)
      else after == context
  }

  /** `layer` settles the request with `outcome`. */
  predicate Settles(layer: Layer, request: Request, session: Session, context: Option<Session>, outcome: Outcome)
  {
    match layer
    case Use(gate) => RunGate(gate, session, context).Refuse? && outcome == Refused(RunGate(gate, session, context).reply)
    case Mount(prefix, steps) =>
      prefix <= request.path && RunSteps(steps, request.verb, request.path[|prefix|..], session, context) == Finished(outcome)
  }

  lemma PassLayer(k: nat, request: Request, session: Session, context: Option<Session>, after: Option<Session>)
    requires k < |RootRouter|
    requires Passes(RootRouter[k], request, session, context, after)
    ensures RunLayers(RootRouter[k..], request, session, context) == RunLayers(RootRouter[k + 1..], request, session, after)
  {
    assert RootRouter[k..][0] == RootRouter[k];
    assert RootRouter[k..][1..] == RootRouter[k + 1..];
  }

  lemma StopAtLayer(k: nat, request: Request, session: Session, context: Option<Session>, outcome: Outcome)
    requires k < |RootRouter|
    requires Settles(RootRouter[k], request, session, context, outcome)
    ensures RunLayers(RootRouter[k..], request, session, context) == outcome
  {
    assert RootRouter[k..][0] == RootRouter[k];
  }

  /** A request for none of the public routes passes the two public
      routers with nothing attached. */
  lemma EntryLayersPass(request: Request, session: Session)
    requires |request.path| >= 1
    requires request.path[0] != "ping" && request.path[0] != "list-jobs" && request.path[0] != "job-details"
    ensures Dispatch(request, session) == RunLayers(RootRouter[2..], request, session, None)
  {
    assert RootRouter[0..] == RootRouter;
    PassLayer(0, request, session, None, None);
    PassLayer(1, request, session, None, None);
  }

  /** Each root-level `authMiddleware` answers 401 to an unauthenticated
      session and otherwise attaches it. */
  lemma AuthLayer(k: nat, request: Request, session: Session, context: Option<Session>)
    requires k == 2 || k == 4 || k == 6 || k == 8
    ensures RunLayers(RootRouter[k..], request, session, context) ==
      if session.Unauthenticated? then Refused(LoginReply(session))
      else RunLayers(RootRouter[k + 1..], request, session, Some(session))
  {
    if session.Unauthenticated? {
      StopAtLayer(k, request, session, context, Refused(LoginReply(session)));
    } else {
      PassLayer(k, request, session, context, Some(session));
    }
  }

  /** `/apply` needs an authenticated session, and nothing more; the
      handler then sees that session. */
  lemma ApplyNeedsLogin(session: Session)
    ensures Dispatch(Request(Post, ["apply"]), session) ==
      (if session.Unauthenticated? then Refused(LoginReply(session)) else Served(Apply, Some(session)))
  {
    var apply := Request(Post, ["apply"]);
    EntryLayersPass(apply, session);
    AuthLayer(2, apply, session, None);
    if session.Authenticated? {
      ApplyAfterLogin(session);
    }
  }

  /** Past the first `authMiddleware`, `/apply` passes the pipeline router
      and the next `authMiddleware` and is served. */
  lemma ApplyAfterLogin(session: Session)
    requires session.Authenticated?
    ensures RunLayers(RootRouter[3..], Request(Post, ["apply"]), session, Some(session)) == Served(Apply, Some(session))
  {
    var c := Some(session);
    var apply := Request(Post, ["apply"]);
    assert !(["pipeline_result"] <= apply.path) by {
      assert apply.path[0] != "pipeline_result";
    }
    PassLayer(3, apply, session, c, c);
    AuthLayer(4, apply, session, c);
    StopAtLayer(5, apply, session, c, Served(Apply, c));
  }

  /** Past the first `authMiddleware`, the profile route passes the
      pipeline and application routers and meets the next
      `authMiddleware`. */
  lemma ProfileInfoPassesMiddleRouters(session: Session)
    requires session.Authenticated?
    ensures RunLayers(RootRouter[3..], Request(Get, ["user", "get-profile-info"]), session, Some(session)) ==
      RunLayers(RootRouter[6..], Request(Get, ["user", "get-profile-info"]), session, Some(session))
  {
    var c := Some(session);
    var profile := Request(Get, ["user", "get-profile-info"]);
    assert !(["pipeline_result"] <= profile.path) by {
      assert profile.path[0] != "pipeline_result";
    }
    PassLayer(3, profile, session, c, c);
    AuthLayer(4, profile, session, c);
    PassLayer(5, profile, session, c, c);
  }

  /** The `/user` routes need an authenticated session, and nothing more;
      the handler then sees that session. */
  lemma ProfileInfoNeedsLogin(session: Session)
    ensures Dispatch(Request(Get, ["user", "get-profile-info"]), session) ==
      (if session.Unauthenticated? then Refused(LoginReply(session)) else Served(ProfileInfo, Some(session)))
  {
    var c := Some(session);
    var profile := Request(Get, ["user", "get-profile-info"]);
    EntryLayersPass(profile, session);
    AuthLayer(2, profile, session, None);
    if session.Authenticated? {
      ProfileInfoPassesMiddleRouters(session);
      AuthLayer(6, profile, session, c);
      StopAtLayer(7, profile, session, c, Served(ProfileInfo, c));
    }
  }

  /** `/pipeline_result/requirements` passes `authMiddleware` and then the
      pipeline router's own `recruiterMiddleware`: 401 without a session, 403
      without a recruiter profile, and otherwise served with the session. */
  lemma PipelineRouteNeedsRecruiter(session: Session)
    ensures Dispatch(Request(Post, ["pipeline_result", "requirements"]), session) ==
      (if session.Unauthenticated? then Refused(LoginReply(session))
       else if session.user.recruiter == Null then Refused(ForbiddenReply)
       else Served(PipelineRequirements, Some(session)))
  {
    var c := Some(session);
    var r := Request(Post, ["pipeline_result", "requirements"]);
    EntryLayersPass(r, session);
    AuthLayer(2, r, session, None);
    if session.Authenticated? {
      assert ["pipeline_result"] <= r.path && r.path[1..] == ["requirements"];
      if session.user.recruiter == Null {
        StopAtLayer(3, r, session, c, Refused(ForbiddenReply));
      } else {
        StopAtLayer(3, r, session, c, Served(PipelineRequirements, c));
      }
    }
  }

  /** Each recruiter route is the first one of its router to match its own
      method and path. */
  lemma RecruiterRouterServes(route: Route, session: Session, context: Option<Session>)
    requires Handle(route) in RecruiterRouter
    ensures RunSteps(RecruiterRouter, route.verb, route.path, session, context) == Finished(Served(route.endpoint, context))
  {
    var i :| 0 <= i < |RecruiterRouter| && RecruiterRouter[i] == Handle(route);
    if i == 0 {
    } else if i == 1 {
    } else if i == 2 {
    } else {
    }
  }

  /** Past the first `authMiddleware`, a logged-in request under
      `/recruiter` passes the pipeline and application routers unchanged. */
  lemma RecruiterPathPassesEarlyRouters(session: Session, request: Request)
    requires session.Authenticated?
    requires |request.path| == 2 && request.path[0] == "recruiter"
    ensures RunLayers(RootRouter[3..], request, session, Some(session)) ==
      RunLayers(RootRouter[6..], request, session, Some(session))
  {
    var c := Some(session);
    assert !(["pipeline_result"] <= request.path);
    PassLayer(3, request, session, c, c);
    AuthLayer(4, request, session, c);
    assert request.path != ["apply"];
    assert RunSteps(ApplicationRouter, request.verb, request.path, session, c) == FallThrough(c);
    PassLayer(5, request, session, c, c);
  }

  /** Between the first `authMiddleware` and `recruiterMiddleware`, a
      logged-in request under `/recruiter` passes every layer unchanged. */
  lemma MiddleLayersPass(session: Session, request: Request)
    requires session.Authenticated?
    requires |request.path| == 2 && request.path[0] == "recruiter"
    ensures RunLayers(RootRouter[3..], request, session, Some(session)) ==
      RunLayers(RootRouter[9..], request, session, Some(session))
  {
    var c := Some(session);
    RecruiterPathPassesEarlyRouters(session, request);
    AuthLayer(6, request, session, c);
    assert !(["user"] <= request.path);
    PassLayer(7, request, session, c, c);
    AuthLayer(8, request, session, c);
  }

  /** Past the first `authMiddleware`, a logged-in request for a recruiter
      route meets `recruiterMiddleware` before its handler. */
  lemma RecruiterLayersAfterLogin(session: Session, route: Route)
    requires session.Authenticated?
    requires Handle(route) in RecruiterRouter
    ensures RunLayers(RootRouter[3..], Request(route.verb, ["recruiter"] + route.path), session, Some(session)) ==
      (if session.user.recruiter == Null then Refused(ForbiddenReply)
       else Served(route.endpoint, Some(session)))
  {
    var c := Some(session);
    var r := Request(route.verb, ["recruiter"] + route.path);
    assert |r.path| == 2 && r.path[0] == "recruiter" && r.path[1..] == route.path;
    MiddleLayersPass(session, r);
    if session.user.recruiter == Null {
      StopAtLayer(9, r, session, c, Refused(ForbiddenReply));
    } else {
      PassLayer(9, r, session, c, c);
      RecruiterRouterServes(route, session, c);
      StopAtLayer(10, r, session, c, Served(route.endpoint, c));
    }
  }

  /** The recruiter routes sit behind `authMiddleware` and then
      `recruiterMiddleware`: an unauthenticated caller gets 401 before any
      403, an authenticated one without a recruiter profile gets 403, and a
      recruiter is served with the session. */
  lemma RecruiterRoutesNeedRecruiter(session: Session, route: Route)
    requires Handle(route) in RecruiterRouter
    ensures Dispatch(Request(route.verb, ["recruiter"] + route.path), session) ==
      (if session.Unauthenticated? then Refused(LoginReply(session))
       else if session.user.recruiter == Null then Refused(ForbiddenReply)
       else Served(route.endpoint, Some(session)))
  {
    var r := Request(route.verb, ["recruiter"] + route.path);
    assert |route.path| == 1 by {
      var i :| 0 <= i < |RecruiterRouter| && RecruiterRouter[i] == Handle(route);
    }
    assert r.path[0] == "recruiter";
    EntryLayersPass(r, session);
    AuthLayer(2, r, session, None);
    if session.Authenticated? {
      RecruiterLayersAfterLogin(session, route);
    }
  }

  /** The request carries no session, or the one the auth server reported
      as authenticated. */
  predicate Consistent(context: Option<Session>, session: Session) {
    context.None? || (context == Some(session) && session.Authenticated?)
  }

  /** A handler only ever sees a consistent context, and a gate answers
      either 401 or, for an authenticated user without a recruiter profile,
      403. */
  predicate ProperOutcome(outcome: Outcome, session: Session) {
    && (outcome.Served? ==> Consistent(outcome.context, session))
    && (outcome.Refused? ==>
          || outcome.reply.status == 401
          || (outcome.reply.status == 403 && session.Authenticated? && session.user.recruiter == Null))
  }

  lemma {:induction false} StepsKeepConsistent(steps: seq<Step>, verb: Method, rest: seq<string>, session: Session, context: Option<Session>)
    requires Consistent(context, session)
    ensures match RunSteps(steps, verb, rest, session, context)
      case FallThrough(c) => Consistent(c, session)
      case Finished(o) => ProperOutcome(o, session)
    decreases |steps|
  {
    if |steps| > 0 {
      match steps[0]
      case Check(gate) =>
        match RunGate(gate, session, context) {
          case Refuse(_) =>
          case Proceed(c) => StepsKeepConsistent(steps[1..], verb, rest, session, c);
        }
      case Handle(_) => StepsKeepConsistent(steps[1..], verb, rest, session, context);
    }
  }

  /** Whatever the router's layers, as long as gates are the only thing that
      attaches a session, 403 is only ever returned to an authenticated user
      without a recruiter profile, so 401 takes precedence; and a handler
      never sees a session the auth server did not authenticate. */
  lemma {:induction false} LayersKeepConsistent(layers: seq<Layer>, request: Request, session: Session, context: Option<Session>)
    requires Consistent(context, session)
    ensures ProperOutcome(RunLayers(layers, request, session, context), session)
    decreases |layers|
  {
    if |layers| > 0 {
      match layers[0]
      case Use(gate) =>
        match RunGate(gate, session, context) {
          case Refuse(_) =>
          case Proceed(c) => LayersKeepConsistent(layers[1..], request, session, c);
        }
      case Mount(prefix, steps) =>
        if prefix <= request.path {
          StepsKeepConsistent(steps, request.verb, request.path[|prefix|..], session, context);
          match RunSteps(steps, request.verb, request.path[|prefix|..], session, context) {
            case Finished(_) =>
            case FallThrough(c) => LayersKeepConsistent(layers[1..], request, session, c);
          }
        } else {
          LayersKeepConsistent(layers[1..], request, session, context);
        }
    }
  }

  /** For every request the root router answers 403 only to an authenticated
      caller without a recruiter profile, and every other refusal is 401. */
  lemma ForbiddenOnlyAfterLogin(request: Request, session: Session)
    ensures ProperOutcome(Dispatch(request, session), session)
  {
  }
}
