/** The two gate middlewares: `authMiddleware` answers 401 unless the auth
    server reports an authenticated session, which it then attaches to the
    request; `recruiterMiddleware` reads the attached session and answers 401
    when there is none or it is unauthenticated, 403 when the user's
    `recruiter` is null, and otherwise passes the request on.

    The request's attached session is an explicit context value: `None` when
    nothing was attached (`getSessionContext` returns null), `Some(s)` when `s`
    was. */
module AuthMiddleware {
  import opened Values
  import opened Types

  /** `authMiddleware`, given the session the auth server resolved. */
  function Authenticate(session: Session): (g: GateResult)
    ensures g.Proceed? <==> session.Authenticated?
    ensures g.Proceed? ==> g.context == Some(session)
    ensures g.Refuse? ==> g.reply == ErrorReply(401, "Unauthorized", UnauthorizedMessage(session.reason))
  {
    match session
    case Unauthenticated(reason) => Refuse(ErrorReply(401, "Unauthorized", UnauthorizedMessage(reason)))
    case Authenticated(_) => Proceed(Some(session))
  }
}

module RecruiterMiddleware {
  import opened Values
  import opened Types

  const NoPermission := "You do not have permission to access this resource."

  /** The condition under which `recruiterMiddleware` calls `next`: an
      attached authenticated session whose user's `recruiter` is not null
      (an absent `recruiter` field is not null and passes). */
  predicate MayPass(context: Option<Session>) {
    && context.Some?
    && context.value.Authenticated?
    && context.value.user.recruiter != Null
  }

  /** `recruiterMiddleware`: 401 for a missing or unauthenticated session,
      then 403 for a null recruiter, else `next` with the context unchanged. */
  function RequireRecruiter(context: Option<Session>): (g: GateResult)
    ensures g.Proceed? <==> MayPass(context)
    ensures g.Proceed? ==> g.context == context
    ensures g.Refuse? ==> g.reply.status == 401 || g.reply.status == 403
    ensures g.Refuse? && g.reply.status == 401 <==> context.None? || context.value.Unauthenticated?
    ensures g.Refuse? && g.reply.status == 401 ==>
      g.reply.message == UnauthorizedMessage(if context.Some? then context.value.reason else None)
    ensures g.Refuse? && g.reply.status == 403 ==>
      context.Some? && context.value.Authenticated? && context.value.user.recruiter == Null
  {
    match context
    case None => Refuse(ErrorReply(401, "Unauthorized", UnauthorizedMessage(None)))
    case Some(Unauthenticated(reason)) => Refuse(ErrorReply(401, "Unauthorized", UnauthorizedMessage(reason)))
    case Some(Authenticated(user)) =>
      if user.recruiter == Null then Refuse(ErrorReply(403, "Forbidden", NoPermission))
      else Proceed(context)
  }
}
