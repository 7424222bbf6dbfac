/** The shapes shared by the request handlers: the user record the auth
    server returns, the tagged session result, and the event envelope handed to
    the scoring pipeline.

    The user record reaches the server through an unchecked cast of the auth
    server's JSON, so nothing guarantees its declared field types at run time.
    The fields that handlers test for both `null` and `undefined` (the user id,
    the recruiter profile and its id) are therefore `Nullable`. */
module Types {
  import opened Values

  type Id = nat

  datatype RecruiterProfile = RecruiterProfile(
    id: Nullable<string>,
    name: string,
    organization: string,
    phone: string,
    address: string,
    position: string)

  datatype User = User(
    id: Nullable<string>,
    email: string,
    name: string,
    image: Option<string>,
    recruiter: Nullable<RecruiterProfile>)

  /** `ServerSessionReturn`: the authenticated variant carries the user (its
      `error` is null), the unauthenticated one carries no user (its `data` is
      null) and an error text that may be null. */
  datatype Session = Authenticated(user: User) | Unauthenticated(reason: Option<string>) {

    /** The `data` field of the tagged union. */
    function Data(): (d: Option<User>)
      ensures d.Some? <==> Authenticated?
      ensures Authenticated? ==> d == Some(user)
    {
      if Authenticated? then Some(user) else None
    }

    /** The `error` field of the tagged union. */
    function Error(): (e: Option<string>)
      ensures Authenticated? ==> e.None?
      ensures Unauthenticated? ==> e == reason
    {
      if Authenticated? then None else reason
    }
  }

  /** The event kinds the handlers emit; only `REQUIREMENTS` is used. */
  datatype EventType = Requirements

  /** The correlation block of an event: the session id is always present,
      the job and application ids only when they apply. */
  datatype EventSession = EventSession(
    sessionId: string,
    jobId: Option<Id>,
    applicationId: Option<Id>)

  /** The queued envelope. `file` is base64 text or null. */
  datatype Event = Event(
    eventType: EventType,
    timestamp: string,
    session: EventSession,
    data: map<string, string>,
    file: Option<string>)

  /** The body of an error reply: an HTTP status, an error title and a
      human-readable message. */
  datatype ErrorReply = ErrorReply(status: int, error: string, message: string)

  /** What a gate middleware does with a request: call `next` with the
      session context the request then carries, or answer it itself. */
  datatype GateResult = Proceed(context: Option<Session>) | Refuse(reply: ErrorReply)

  /** The message of a 401 reply: the session's error when it is a non-empty
      string, otherwise the default text (`session.error || default`). */
  const LoginRequired := "You must be logged in to access this resource."

  function UnauthorizedMessage(error: Option<string>): (m: string)
    ensures error.Some? && error.value != "" ==> m == error.value
    ensures error.None? || error.value == "" ==> m == LoginRequired
  {
    if error.Some? && Truthy(error.value) then error.value else LoginRequired
  }
}
