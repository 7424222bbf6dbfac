/** `/requirements`: the processing pipeline's callback that stores a job's
    parsed requirements.

    The body's `result.processed_result` arrives already serialised
    (`JSON.stringify` is not modelled): `payload` is that text, or `None`
    when the body has no `result`. `jobId` is `session.job_id`, or `None`
    when the body has no `session`. Reading a field of a missing object
    throws before the handler's `try`, so no reply is sent. */
module Pipeline {
  import opened Values
  import opened Types
  import opened Store

  datatype CallbackBody = CallbackBody(payload: Option<string>, jobId: Option<Id>)

  datatype CallbackReply =
    | Stored
    | CallbackRefused(status: int, message: string)
    | CallbackEscaped

  /** The table with `parsedRequirements` of the rows whose id is `id` set
      to `payload`. */
  function SetRequirements(jobs: seq<JobRow>, id: Id, payload: string): (r: seq<JobRow>)
    ensures |r| == |jobs|
    ensures forall i :: 0 <= i < |jobs| ==>
      r[i] == if jobs[i].id == id then jobs[i].(parsedRequirements := Some(payload)) else jobs[i]
  {
    if |jobs| == 0 then []
    else
      var head := if jobs[0].id == id then jobs[0].(parsedRequirements := Some(payload)) else jobs[0];
      [head] + SetRequirements(jobs[1..], id, payload)
  }

  /** The handler. Only an explicitly unauthenticated context is refused
      (`session?.status == "unauthenticated"`); `writeFails` is the
      database's answer. An id that matches no row updates nothing and still
      succeeds. */
  function ReceiveRequirements(db: Db, context: Option<Session>, body: CallbackBody, writeFails: bool): (r: (CallbackReply, Db))
    ensures context.Some? && context.value.Unauthenticated? ==>
      r == (CallbackRefused(401, "Unauthorized access. Please log in."), db)
    ensures r.0.Stored? <==>
      !(context.Some? && context.value.Unauthenticated?) && body.payload.Some? && body.jobId.Some? && !writeFails
    ensures !(context.Some? && context.value.Unauthenticated?) && (body.payload.None? || body.jobId.None?) ==>
      r == (CallbackEscaped, db)
    ensures !(context.Some? && context.value.Unauthenticated?) && body.payload.Some? && body.jobId.Some? && writeFails ==>
      r == (CallbackRefused(500, "Failed to update job opening"), db)
    ensures !r.0.Stored? ==> r.1 == db
    ensures r.0.Stored? ==>
      && r.1 == db.(jobs := r.1.jobs)
      && |r.1.jobs| == |db.jobs|
      && (forall i :: 0 <= i < |db.jobs| && db.jobs[i].id != body.jobId.value ==> r.1.jobs[i] == db.jobs[i])
      && (forall i :: 0 <= i < |db.jobs| && db.jobs[i].id == body.jobId.value ==>
            r.1.jobs[i] == db.jobs[i].(parsedRequirements := body.payload))
  {
    if context.Some? && context.value.Unauthenticated? then
      (CallbackRefused(401, "Unauthorized access. Please log in."), db)
    else if body.payload.None? || body.jobId.None? then (CallbackEscaped, db)
    else if writeFails then (CallbackRefused(500, "Failed to update job opening"), db)
    else (Stored, db.(jobs := SetRequirements(db.jobs, body.jobId.value, body.payload.value)))
  }

  /** Last write wins: of two stored payloads for a job, the second
      remains. */
  lemma LastWriteWins(jobs: seq<JobRow>, id: Id, first: string, second: string)
    ensures SetRequirements(SetRequirements(jobs, id, first), id, second) == SetRequirements(jobs, id, second)
  {
    var a := SetRequirements(SetRequirements(jobs, id, first), id, second);
    var b := SetRequirements(jobs, id, second);
    forall i | 0 <= i < |a| ensures a[i] == b[i] {
      assert SetRequirements(jobs, id, first)[i].id == jobs[i].id;
    }
  }

  /** Two successful callbacks for the same job leave the second payload;
      repeating a callback changes nothing. */
  lemma CallbacksLastWinsAndIdempotent(db: Db, context: Option<Session>, body1: CallbackBody, body2: CallbackBody)
    requires ReceiveRequirements(db, context, body1, false).0.Stored?
    requires body2.jobId == body1.jobId && body2.payload.Some?
    ensures var db1 := ReceiveRequirements(db, context, body1, false).1;
      && ReceiveRequirements(db1, context, body2, false) == ReceiveRequirements(db, context, body2, false)
      && ReceiveRequirements(db1, context, body1, false) == (Stored, db1)
  {
    LastWriteWins(db.jobs, body1.jobId.value, body1.payload.value, body2.payload.value);
    LastWriteWins(db.jobs, body1.jobId.value, body1.payload.value, body1.payload.value);
  }

  /** A callback for an id no job has succeeds and changes nothing. */
  lemma UnknownJobUntouched(db: Db, context: Option<Session>, body: CallbackBody)
    requires ReceiveRequirements(db, context, body, false).0.Stored?
    requires FindJob(db.jobs, body.jobId.value).None?
    ensures ReceiveRequirements(db, context, body, false).1 == db
  {
    var db' := ReceiveRequirements(db, context, body, false).1;
    assert db'.jobs == db.jobs;
  }
}
