/** `/apply`: a candidate applies to a job with a résumé file.

    The handler's checks run in a fixed order (session user, job id,
    duplicate application, file), then the résumé goes to the storage
    service, an `Uploads` row is inserted and finally the `Application` row.
    What the outside world answers (the storage service's reply and whether
    each insert fails) is an input. An error the handler does not catch
    leaves it without sending a reply (`Escaped`); the model records the
    store as it is at that point. The event for the processing pipeline is
    built but never pushed (the push is commented out), so no queue appears
    here. */
module Applications {
  import opened Values
  import opened Types
  import opened Store
  import opened UploadMiddleware
  import opened UploadService

  datatype ApplyRequest = ApplyRequest(jobId: Nullable<Id>, file: Option<UploadedFile>)

  /** The answers of the storage service and the database. */
  datatype ApplyIo = ApplyIo(storage: StorageReply, uploadInsertFails: bool, applicationInsertFails: bool)

  datatype ApplyReply =
    | Applied(applicationId: Id)
    | ApplyRefused(status: int, error: string, message: string)
    | Escaped
    /** The upload middleware's reply, which names the offending field. */
    | UploadRefused(status: int, error: string, message: string, field: Option<string>)

  /** `session?.data?.id`, when it is neither undefined nor null. */
  function SessionUserId(context: Option<Session>): (uid: Option<string>)
    ensures uid.Some? <==> context.Some? && context.value.Authenticated? && context.value.user.id.Val?
    ensures uid.Some? ==> uid.value == context.value.user.id.value
  {
    if context.Some? && context.value.Authenticated? && context.value.user.id.Val? then Some(context.value.user.id.value)
    else None
  }

  /** The application rows a successful apply appends. */
  function NewApplication(id: Id, jobId: Id, userId: string, resumeId: Id): ApplicationRow
  {
    ApplicationRow(id, jobId, userId, resumeId, Pending, 0.0, 0.0)
  }

  /** Every precondition of the handler holds and every outside answer is
      favourable. */
  predicate Succeeds(db: Db, context: Option<Session>, req: ApplyRequest, io: ApplyIo)
  {
    && SessionUserId(context).Some?
    && req.jobId.Val?
    && !HasApplied(db.applications, req.jobId.value, SessionUserId(context).value)
    && req.file.Some?
    && io.storage.status == Created
    && !io.uploadInsertFails
    && FindJob(db.jobs, req.jobId.value).Some?
    && !io.applicationInsertFails
  }

  /** The handler, with the tag its `Uploads` row is given as a parameter. */
  function ApplyWith(db: Db, context: Option<Session>, req: ApplyRequest, io: ApplyIo, rowTag: UploadType): (r: (ApplyReply, Db))
    ensures r.0.Applied? <==> Succeeds(db, context, req, io)
    ensures r.0.ApplyRefused? ==> r.1 == db
    ensures SessionUserId(context).None? ==>
      r == (ApplyRefused(401, "Unauthorized", "You must be logged in to apply for a job."), db)
    ensures SessionUserId(context).Some? && req.jobId.IsNullish() ==>
      r.0 == ApplyRefused(400, "Bad Request", "Job ID is required")
    ensures SessionUserId(context).Some? && req.jobId.Val? && HasApplied(db.applications, req.jobId.value, SessionUserId(context).value) ==>
      r.0 == ApplyRefused(400, "Already Applied", "You have already applied for this job.")
    ensures SessionUserId(context).Some? && req.jobId.Val? && !HasApplied(db.applications, req.jobId.value, SessionUserId(context).value) ==>
      && (req.file.None? ==> r.0 == ApplyRefused(400, "File Upload Error", "No file uploaded"))
      && (req.file.Some? && io.storage.status != Created ==> r.0 == ApplyRefused(io.storage.status, "File Upload Error", "Failed to upload file"))
    ensures SessionUserId(context).Some? && req.jobId.Val? && !HasApplied(db.applications, req.jobId.value, SessionUserId(context).value)
            && req.file.Some? && io.storage.status == Created ==>
      && (io.uploadInsertFails ==> r == (Escaped, db))
      && (!io.uploadInsertFails && (FindJob(db.jobs, req.jobId.value).None? || io.applicationInsertFails) ==>
            && r.0.Escaped?
            && r.1.uploads == db.uploads + [UploadRow(db.nextId, req.file.value.originalName, req.file.value.mimeType,
                                                      rowTag, io.storage.url, None)])
    ensures r.0.Escaped? ==> r.1.applications == db.applications && r.1.jobs == db.jobs
    ensures r.0.Applied? ==>
      var uid := SessionUserId(context).value;
      var file := req.file.value;
      && r.1.jobs == db.jobs
      && r.1.uploads == db.uploads + [UploadRow(db.nextId, file.originalName, file.mimeType, rowTag, io.storage.url, None)]
      && r.1.applications == db.applications + [NewApplication(r.0.applicationId, req.jobId.value, uid, db.nextId)]
      && r.0.applicationId == db.nextId + 1
    ensures IdsBelowCounter(db) ==> IdsBelowCounter(r.1)
  {
    var uid := SessionUserId(context);
    if uid.None? then (ApplyRefused(401, "Unauthorized", "You must be logged in to apply for a job."), db)
    else if req.jobId.IsNullish() then (ApplyRefused(400, "Bad Request", "Job ID is required"), db)
    else if HasApplied(db.applications, req.jobId.value, uid.value) then
      (ApplyRefused(400, "Already Applied", "You have already applied for this job."), db)
    else if req.file.None? then (ApplyRefused(400, "File Upload Error", "No file uploaded"), db)
    else if io.storage.status != Created then (ApplyRefused(io.storage.status, "File Upload Error", "Failed to upload file"), db)
    // The catch block reads the storage reply's body a second time, which
    // throws, so an insert failure is not answered.
    else if io.uploadInsertFails then (Escaped, db)
    else
      var file := req.file.value;
      var (upload, db1) := InsertUpload(db, file.originalName, file.mimeType, rowTag, io.storage.url, None);
      if FindJob(db1.jobs, req.jobId.value).None? || io.applicationInsertFails then (Escaped, db1)
      else
        var row := NewApplication(db1.nextId, req.jobId.value, uid.value, upload.id);
        (Applied(row.id), db1.(applications := db1.applications + [row], nextId := db1.nextId + 1))
  }

  /** `/apply` as written: the résumé's row is tagged `requirements`. */
  function ApplyAsWritten(db: Db, context: Option<Session>, req: ApplyRequest, io: ApplyIo): (r: (ApplyReply, Db))
    ensures r == ApplyWith(db, context, req, io, UploadType.Requirements)
    ensures r.0.Applied? ==> r.1.uploads[|db.uploads|].uploadType == UploadType.Requirements
  {
    ApplyWith(db, context, req, io, UploadType.Requirements)
  }

  /** `/apply` as evidently intended: the résumé's row is tagged `resume`,
      the bucket the file is sent to. */
  function Apply(db: Db, context: Option<Session>, req: ApplyRequest, io: ApplyIo): (r: (ApplyReply, Db))
    ensures r == ApplyWith(db, context, req, io, Resume)
    ensures r.0.Applied? ==>
      && r.1.uploads[|db.uploads|].uploadType == Resume
      && r.1.applications[|db.applications|].resumeId == r.1.uploads[|db.uploads|].id
  {
    ApplyWith(db, context, req, io, Resume)
  }

  /** The discrepancy: after a successful apply as written, the row the new
      application's `resumeId` points to is not tagged `resume`. */
  lemma ResumeRowMistagged(db: Db, context: Option<Session>, req: ApplyRequest, io: ApplyIo)
    requires Succeeds(db, context, req, io)
    ensures var (reply, db') := ApplyAsWritten(db, context, req, io);
      && reply.Applied?
      && db'.applications[|db.applications|].resumeId == db'.uploads[|db.uploads|].id
      && db'.uploads[|db.uploads|].uploadType != Resume
  {
  }

  /** `/apply` behind its upload middleware `fileUpload("resumeFile")`,
      with the handler as written: a middleware refusal is the reply and
      nothing is stored. */
  function ApplyRoute(db: Db, context: Option<Session>, jobId: Nullable<Id>, incoming: Incoming, io: ApplyIo): (r: (ApplyReply, Db))
    ensures HandleUpload(FileUpload("resumeFile", None, None), incoming).Reject? ==>
      var reject := HandleUpload(FileUpload("resumeFile", None, None), incoming);
      && r == (UploadRefused(reject.status, reject.error, reject.message, reject.field), db)
      && r.0.status in {400, 500}
    ensures HandleUpload(FileUpload("resumeFile", None, None), incoming).Next? ==>
      r == ApplyAsWritten(db, context, ApplyRequest(jobId, incoming.file), io)
  {
    match HandleUpload(FileUpload("resumeFile", None, None), incoming)
    case Reject(status, error, message, field) => (UploadRefused(status, error, message, field), db)
    case Next(file, _) => ApplyAsWritten(db, context, ApplyRequest(jobId, file), io)
  }

  /** The middleware lets a request without a file through; the handler
      refuses it (once the earlier checks pass). */
  lemma MissingResumeRefusedByHandler(db: Db, context: Option<Session>, jobId: Nullable<Id>, io: ApplyIo)
    requires SessionUserId(context).Some? && jobId.Val?
    requires !HasApplied(db.applications, jobId.value, SessionUserId(context).value)
    ensures ApplyRoute(db, context, jobId, Incoming(None, None), io) ==
      (ApplyRefused(400, "File Upload Error", "No file uploaded"), db)
  {
  }

  /** A successful apply adds one applicant to its job and none to any
      other job, the count `/recruiter-jobs` reports. */
  lemma ApplyAddsOneApplicant(db: Db, context: Option<Session>, req: ApplyRequest, io: ApplyIo, rowTag: UploadType, jobId: Id)
    requires ApplyWith(db, context, req, io, rowTag).0.Applied?
    ensures CountApplications(ApplyWith(db, context, req, io, rowTag).1.applications, jobId) ==
      CountApplications(db.applications, jobId) + (if jobId == req.jobId.value then 1 else 0)
  {
    var db' := ApplyWith(db, context, req, io, rowTag).1;
    CountApplicationsAppend(db.applications, db'.applications[|db.applications|], jobId);
    assert db'.applications == db.applications + [db'.applications[|db.applications|]];
  }

  /** At most one application per (job, candidate). */
  predicate UniqueApplications(apps: seq<ApplicationRow>)
  {
    forall i, j :: 0 <= i < j < |apps| ==> apps[i].jobId != apps[j].jobId || apps[i].userId != apps[j].userId
  }

  /** One apply keeps applications unique, whatever its outcome. */
  lemma ApplyKeepsUnique(db: Db, context: Option<Session>, req: ApplyRequest, io: ApplyIo, rowTag: UploadType)
    requires UniqueApplications(db.applications)
    ensures UniqueApplications(ApplyWith(db, context, req, io, rowTag).1.applications)
  {
    var (reply, db') := ApplyWith(db, context, req, io, rowTag);
    if reply.Applied? {
      var n := |db.applications|;
      var row := db'.applications[n];
      assert !HasApplied(db.applications, row.jobId, row.userId);
      forall i, j | 0 <= i < j < |db'.applications|
        ensures db'.applications[i].jobId != db'.applications[j].jobId || db'.applications[i].userId != db'.applications[j].userId
      {
        if j == n {
          assert db'.applications[i] == db.applications[i];
        }
      }
    }
  }

  /** One call of a sequential run. */
  datatype ApplyCall = ApplyCall(context: Option<Session>, req: ApplyRequest, io: ApplyIo)

  /** The store after a sequence of applies, one after another, each
      tagging its upload row `rowTag` (`requirements` as written). */
  function RunApplies(db: Db, calls: seq<ApplyCall>, rowTag: UploadType): Db
    decreases |calls|
  {
    if |calls| == 0 then db
    else RunApplies(ApplyWith(db, calls[0].context, calls[0].req, calls[0].io, rowTag).1, calls[1..], rowTag)
  }

  /** In any sequential run of applies, as written or corrected, there is at
      most one application per (job, candidate). */
  lemma {:induction false} RunAppliesKeepsUnique(db: Db, calls: seq<ApplyCall>, rowTag: UploadType)
    requires UniqueApplications(db.applications)
    ensures UniqueApplications(RunApplies(db, calls, rowTag).applications)
    decreases |calls|
  {
    if |calls| > 0 {
      ApplyKeepsUnique(db, calls[0].context, calls[0].req, calls[0].io, rowTag);
      RunAppliesKeepsUnique(ApplyWith(db, calls[0].context, calls[0].req, calls[0].io, rowTag).1, calls[1..], rowTag);
    }
  }

  /** Once a candidate has applied, applying again to the same job is
      refused as a duplicate and stores nothing (as written or corrected). */
  lemma SecondApplyRefused(db: Db, context: Option<Session>, req: ApplyRequest, io: ApplyIo, req2: ApplyRequest, io2: ApplyIo,
                           rowTag: UploadType)
    requires ApplyWith(db, context, req, io, rowTag).0.Applied?
    requires req2.jobId == req.jobId
    ensures var db1 := ApplyWith(db, context, req, io, rowTag).1;
      ApplyWith(db1, context, req2, io2, rowTag) == (ApplyRefused(400, "Already Applied", "You have already applied for this job."), db1)
  {
    var db1 := ApplyWith(db, context, req, io, rowTag).1;
    assert db1.applications[|db.applications|].jobId == req.jobId.value;
    assert HasApplied(db1.applications, req.jobId.value, SessionUserId(context).value);
  }
}
