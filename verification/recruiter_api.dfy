/** The recruiter endpoints: `/create` (a job opening, with an optional
    requirements file and an event for the processing pipeline),
    `/recruiter-jobs` and `/update-job-status`.

    The answers of the storage service, the database and the queue are
    inputs, as are the current time, the timestamp text, the base64 encoder
    and the email check. An error a handler does not catch leaves it
    without sending a reply (`...Escaped`). The event queue is a sequence,
    newest first (`lPush`). */
module RecruiterApi {
  import opened Values
  import opened Types
  import opened Store
  import opened Ordering
  import opened UploadMiddleware
  import opened UploadService
  import opened JobSchema
  import SessionUtils = Session
  import RecruiterMiddleware

  /** `session?.data?.recruiter`: undefined without an authenticated
      session. */
  function RecruiterOf(context: Option<Session>): (rec: Nullable<RecruiterProfile>)
    ensures context.Some? && context.value.Authenticated? ==> rec == context.value.user.recruiter
    ensures context.None? || context.value.Unauthenticated? ==> rec.Undefined?
  {
    if context.Some? && context.value.Authenticated? then context.value.user.recruiter else Undefined
  }

  /** The handlers' own check: the recruiter is undefined or its id is
      null. A null recruiter passes it (`null?.id` is undefined). */
  predicate Forbidden(context: Option<Session>)
  {
    var rec := RecruiterOf(context);
    rec.Undefined? || (rec.Val? && rec.value.id.Null?)
  }

  /** `session.data.recruiter?.id` when it is a value. */
  function RecruiterIdOf(context: Option<Session>): (rid: Option<string>)
    ensures rid.Some? <==> RecruiterOf(context).Val? && RecruiterOf(context).value.id.Val?
    ensures rid.Some? ==> rid.value == RecruiterOf(context).value.id.value
  {
    var rec := RecruiterOf(context);
    if rec.Val? && rec.value.id.Val? then Some(rec.value.id.value) else None
  }

  /** The handlers' check and `recruiterMiddleware` in front of them: a
      null recruiter, which the handlers' check lets through, is stopped by
      the middleware; a context the middleware passes whose recruiter has an
      id passes the handlers' check too. */
  lemma MiddlewareCoversHandlerCheck(context: Option<Session>)
    ensures context.Some? && context.value.Authenticated? && context.value.user.recruiter.Null? ==>
      !Forbidden(context) && !RecruiterMiddleware.MayPass(context)
    ensures RecruiterMiddleware.MayPass(context) && RecruiterIdOf(context).Some? ==> !Forbidden(context)
  {
  }

  // ---------------------------------------------------------------- /create

  /** The upload field name, spelled as the route spells it. */
  const RequirementsField := "requiremetsFile"

  datatype CreateRequest = CreateRequest(form: JobForm, file: Option<UploadedFile>, cookieHeader: Option<string>)

  /** The outside world during `/create`. */
  datatype CreateIo = CreateIo(
    storage: StorageReply,
    uploadInsertFails: bool,
    jobInsertFails: bool,
    pushFails: bool,
    now: int,
    timestamp: string)

  /** The primitives the handler calls: the session cookie's name, the
      base64 encoder and the email check. */
  datatype Primitives = Primitives(tokenName: string, encode: seq<byte> -> string, isEmail: string -> bool)

  datatype CreateReply =
    | JobCreated(job: JobRow, fileName: Option<string>, data: JobData)
    | CreateRefused(status: int, error: string, message: string)
    | CreateEscaped
    /** The upload middleware's reply, which names the offending field. */
    | UploadRefused(status: int, error: string, message: string, field: Option<string>)

  /** The event `/create` queues for a new job. */
  function RequirementsEvent(job: JobRow, req: CreateRequest, io: CreateIo, prims: Primitives): (e: Event)
    ensures e.eventType == EventType.Requirements && e.timestamp == io.timestamp
    ensures e.session == EventSession(SessionUtils.SessionToken(SessionUtils.ParseCookies(req.cookieHeader), prims.tokenName), Some(job.id), None)
    ensures e.data == map["title" := job.title, "description" := job.description]
    ensures e.file.Some? <==> req.file.Some? && prims.encode(req.file.value.buffer) != ""
    ensures e.file.Some? ==> e.file.value == prims.encode(req.file.value.buffer)
  {
    var sessionId := SessionUtils.SessionToken(SessionUtils.ParseCookies(req.cookieHeader), prims.tokenName);
    var file := if req.file.Some? && Truthy(prims.encode(req.file.value.buffer)) then Some(prims.encode(req.file.value.buffer)) else None;
    Event(EventType.Requirements, io.timestamp, EventSession(sessionId, Some(job.id), None),
      map["title" := job.title, "description" := job.description], file)
  }

  /** The row a parsed body becomes. */
  function NewJob(id: Id, data: JobData, recruiterId: string, requirementsFileId: Option<Id>, now: int): JobRow
  {
    JobRow(id, data.title, data.company, data.location, data.jobType, data.description, data.contact,
      data.address, recruiterId, requirementsFileId, Open, None, now)
  }

  /** The insert, the event push (whose failure is swallowed) and the
      reply, once the body has parsed. */
  function InsertJob(db: Db, queue: seq<Event>, context: Option<Session>, req: CreateRequest, data: JobData,
                     uploadId: Option<Id>, io: CreateIo, prims: Primitives): (r: (CreateReply, Db, seq<Event>))
    ensures r.0.JobCreated? <==> RecruiterIdOf(context).Some? && !io.jobInsertFails
    ensures !r.0.JobCreated? ==>
      r == (CreateRefused(500, "Database Error", "Failed to create job in database"), db, queue)
    ensures r.0.JobCreated? ==>
      && r.0.data == data
      && r.0.job == NewJob(db.nextId, data, RecruiterIdOf(context).value, uploadId, io.now)
      && r.1 == db.(jobs := db.jobs + [r.0.job], nextId := db.nextId + 1)
      && r.2 == (if io.pushFails then queue else [RequirementsEvent(r.0.job, req, io, prims)] + queue)
    ensures IdsBelowCounter(db) ==> IdsBelowCounter(r.1)
  {
    // Without a recruiter id the insert passes undefined (or the text "0")
    // where a uuid is expected, and the database refuses it.
    if RecruiterIdOf(context).None? || io.jobInsertFails then
      (CreateRefused(500, "Database Error", "Failed to create job in database"), db, queue)
    else
      var job := NewJob(db.nextId, data, RecruiterIdOf(context).value, uploadId, io.now);
      var db' := db.(jobs := db.jobs + [job], nextId := db.nextId + 1);
      var queue' := if io.pushFails then queue else [RequirementsEvent(job, req, io, prims)] + queue;
      var fileName := if req.file.Some? then Some(req.file.value.originalName) else None;
      (JobCreated(job, fileName, data), db', queue')
  }

  /** The upload row for the requirements file, when one was sent, and
      the id the job row is given (the new row's only when `attachUpload`
      holds). */
  function StoreRequirementsFile(db: Db, req: CreateRequest, io: CreateIo, attachUpload: bool): (r: (Option<Id>, Db))
    ensures r.1.jobs == db.jobs && r.1.applications == db.applications
    ensures req.file.None? ==> r == (None, db)
    ensures req.file.Some? ==>
      && r.1.uploads == db.uploads + [UploadRow(db.nextId, req.file.value.originalName, req.file.value.mimeType,
                                                UploadType.Requirements, io.storage.url, None)]
      && r.1.nextId == db.nextId + 1
      && r.0 == (if attachUpload then Some(db.nextId) else None)
    ensures IdsBelowCounter(db) ==> IdsBelowCounter(r.1)
  {
    if req.file.Some? then
      var (row, db1) := InsertUpload(db, req.file.value.originalName, req.file.value.mimeType,
                                     UploadType.Requirements, io.storage.url, None);
      (if attachUpload then Some(row.id) else None, db1)
    else (None, db)
  }

  /** The body's parse and, when it succeeds, the insert: what `/create`
      does once the file, if any, is stored. */
  function ParseAndInsert(db: Db, queue: seq<Event>, context: Option<Session>, req: CreateRequest,
                          uploadId: Option<Id>, io: CreateIo, prims: Primitives): (r: (CreateReply, Db, seq<Event>))
    ensures r.0.JobCreated? <==> Acceptable(req.form, prims.isEmail) && RecruiterIdOf(context).Some? && !io.jobInsertFails
    ensures !Acceptable(req.form, prims.isEmail) ==>
      r == (CreateRefused(400, "Failed to parse request body", "Invalid request data"), db, queue)
    ensures Acceptable(req.form, prims.isEmail) && (RecruiterIdOf(context).None? || io.jobInsertFails) ==>
      r == (CreateRefused(500, "Database Error", "Failed to create job in database"), db, queue)
    ensures r.0.JobCreated? ==>
      && r.0.data == ParseJobForm(req.form, prims.isEmail).data
      && r.0.job == NewJob(db.nextId, r.0.data, RecruiterIdOf(context).value, uploadId, io.now)
      && r.1 == db.(jobs := db.jobs + [r.0.job], nextId := db.nextId + 1)
      && r.2 == (if io.pushFails then queue else [RequirementsEvent(r.0.job, req, io, prims)] + queue)
    ensures IdsBelowCounter(db) ==> IdsBelowCounter(r.1)
  {
    match ParseJobForm(req.form, prims.isEmail)
    case Invalid(_) =>
      (CreateRefused(400, "Failed to parse request body", "Invalid request data"), db, queue)
    case Parsed(data) =>
      InsertJob(db, queue, context, req, data, uploadId, io, prims)
  }

  /** What `/create` does once the recruiter check and the storage call
      have passed: the upload row, the parse and the insert. */
  function StoreAndInsert(db: Db, queue: seq<Event>, context: Option<Session>, req: CreateRequest, io: CreateIo,
                          prims: Primitives, attachUpload: bool): (r: (CreateReply, Db, seq<Event>))
    requires req.file.Some? ==> io.storage.status == Created && !io.uploadInsertFails
    ensures r.0.JobCreated? <==> Acceptable(req.form, prims.isEmail) && RecruiterIdOf(context).Some? && !io.jobInsertFails
    ensures !r.0.JobCreated? ==> r.0.CreateRefused? && r.1.jobs == db.jobs && r.2 == queue
    ensures r.1.applications == db.applications
    ensures r.1.uploads == if req.file.Some? then
      db.uploads + [UploadRow(db.nextId, req.file.value.originalName, req.file.value.mimeType,
                              UploadType.Requirements, io.storage.url, None)]
      else db.uploads
    ensures |db.uploads| <= |r.1.uploads| && r.1.uploads[..|db.uploads|] == db.uploads
    ensures !Acceptable(req.form, prims.isEmail) ==>
      r.0 == CreateRefused(400, "Failed to parse request body", "Invalid request data")
    ensures Acceptable(req.form, prims.isEmail) && (RecruiterIdOf(context).None? || io.jobInsertFails) ==>
      r.0 == CreateRefused(500, "Database Error", "Failed to create job in database")
    ensures r.0.JobCreated? ==>
      var job := r.0.job;
      && r.0.data == ParseJobForm(req.form, prims.isEmail).data
      && (IdsBelowCounter(db) ==> forall i :: 0 <= i < |db.jobs| ==> db.jobs[i].id != job.id)
      && job == NewJob(job.id, r.0.data, RecruiterIdOf(context).value, job.requirementsFileId, io.now)
      && r.1.jobs == db.jobs + [job]
      && r.2 == (if io.pushFails then queue else [RequirementsEvent(job, req, io, prims)] + queue)
    ensures IdsBelowCounter(db) ==> IdsBelowCounter(r.1)
  {
    var (uploadId, db1) := StoreRequirementsFile(db, req, io, attachUpload);
    assert db1.uploads[..|db.uploads|] == db.uploads;
    ParseAndInsert(db1, queue, context, req, uploadId, io, prims)
  }

  /** Every precondition of `/create` holds and every outside answer that
      decides whether a job row is inserted is favourable. */
  predicate CreateSucceeds(context: Option<Session>, req: CreateRequest, io: CreateIo, prims: Primitives)
  {
    && !Forbidden(context)
    && (req.file.Some? ==> io.storage.status == Created && !io.uploadInsertFails)
    && ParseJobForm(req.form, prims.isEmail).Parsed?
    && RecruiterIdOf(context).Some?
    && !io.jobInsertFails
  }

  /** `/create`, with a switch for whether the new upload's id reaches the
      job row. */
  function CreateWith(db: Db, queue: seq<Event>, context: Option<Session>, req: CreateRequest, io: CreateIo,
                      prims: Primitives, attachUpload: bool): (r: (CreateReply, Db, seq<Event>))
    ensures r.0.JobCreated? <==> CreateSucceeds(context, req, io, prims)
    ensures Forbidden(context) ==>
      r == (CreateRefused(403, "Forbidden", "You do not have permission to create a job."), db, queue)
    ensures !Forbidden(context) && req.file.Some? && io.storage.status != Created ==>
      r == (CreateRefused(io.storage.status, "File Upload Error", "Failed to upload file"), db, queue)
    ensures r.0.CreateRefused? || r.0.CreateEscaped? ==> r.1.jobs == db.jobs && r.2 == queue
    ensures r.1.applications == db.applications
    ensures |db.uploads| <= |r.1.uploads| && r.1.uploads[..|db.uploads|] == db.uploads
    ensures !Forbidden(context) && req.file.Some? && io.storage.status == Created && !io.uploadInsertFails ==>
      && |r.1.uploads| == |db.uploads| + 1
      && r.1.uploads[|db.uploads|] == UploadRow(db.nextId, req.file.value.originalName, req.file.value.mimeType,
                                                UploadType.Requirements, io.storage.url, None)
    ensures !Forbidden(context) && req.file.Some? && io.storage.status == Created && io.uploadInsertFails ==>
      r == (CreateEscaped, db, queue)
    ensures req.file.None? ==> r.1.uploads == db.uploads
    ensures !Forbidden(context) && (req.file.Some? ==> io.storage.status == Created && !io.uploadInsertFails)
            && !Acceptable(req.form, prims.isEmail) ==>
      && r.0 == CreateRefused(400, "Failed to parse request body", "Invalid request data")
      && r.1.jobs == db.jobs && r.2 == queue
    ensures !Forbidden(context) && (req.file.Some? ==> io.storage.status == Created && !io.uploadInsertFails)
            && Acceptable(req.form, prims.isEmail) && (RecruiterIdOf(context).None? || io.jobInsertFails) ==>
      && r.0 == CreateRefused(500, "Database Error", "Failed to create job in database")
      && r.1.jobs == db.jobs && r.2 == queue
    ensures CreateSucceeds(context, req, io, prims) ==>
      var job := r.0.job;
      && r.0.data == ParseJobForm(req.form, prims.isEmail).data
      && r.1.jobs == db.jobs + [job]
      && job == NewJob(job.id, r.0.data, RecruiterIdOf(context).value, job.requirementsFileId, io.now)
      && (IdsBelowCounter(db) ==> forall i :: 0 <= i < |db.jobs| ==> db.jobs[i].id != job.id)
      && job.status == Open && job.parsedRequirements.None?
      && (io.pushFails ==> r.2 == queue)
      && (!io.pushFails ==> r.2 == [RequirementsEvent(job, req, io, prims)] + queue)
    ensures IdsBelowCounter(db) ==> IdsBelowCounter(r.1)
  {
    if Forbidden(context) then
      (CreateRefused(403, "Forbidden", "You do not have permission to create a job."), db, queue)
    else if req.file.Some? && io.storage.status != Created then
      (CreateRefused(io.storage.status, "File Upload Error", "Failed to upload file"), db, queue)
    // As in `/apply`, the catch block reads the storage reply twice.
    else if req.file.Some? && io.uploadInsertFails then (CreateEscaped, db, queue)
    else
      StoreAndInsert(db, queue, context, req, io, prims, attachUpload)
  }

  /** `/create` as written: the insert returns a row list and the handler
      reads `.id` off the list itself, which is undefined, so the job row
      never gets its requirements file. */
  function CreateAsWritten(db: Db, queue: seq<Event>, context: Option<Session>, req: CreateRequest, io: CreateIo,
                           prims: Primitives): (r: (CreateReply, Db, seq<Event>))
    ensures r == CreateWith(db, queue, context, req, io, prims, false)
    ensures r.0.JobCreated? ==> r.0.job.requirementsFileId.None?
  {
    CreateWith(db, queue, context, req, io, prims, false)
  }

  /** `/create` as evidently intended: the new upload's id becomes the
      job's `requirementsFileId`. */
  function Create(db: Db, queue: seq<Event>, context: Option<Session>, req: CreateRequest, io: CreateIo,
                  prims: Primitives): (r: (CreateReply, Db, seq<Event>))
    ensures r == CreateWith(db, queue, context, req, io, prims, true)
    ensures r.0.JobCreated? ==> (r.0.job.requirementsFileId.Some? <==> req.file.Some?)
    ensures r.0.JobCreated? && req.file.Some? ==>
      && r.1.uploads[|db.uploads|].id == r.0.job.requirementsFileId.value
      && r.1.uploads[|db.uploads|].uploadType == UploadType.Requirements
      && r.1.uploads[|db.uploads|].url == io.storage.url
  {
    CreateWith(db, queue, context, req, io, prims, true)
  }

  /** The discrepancy: a job created with a file has an `Uploads` row for
      that file, but as written nothing refers to it. */
  lemma RequirementsFileOrphaned(db: Db, queue: seq<Event>, context: Option<Session>, req: CreateRequest, io: CreateIo, prims: Primitives)
    requires CreateSucceeds(context, req, io, prims) && req.file.Some?
    ensures var (reply, db', _) := CreateAsWritten(db, queue, context, req, io, prims);
      && reply.JobCreated?
      && |db'.uploads| == |db.uploads| + 1
      && reply.job.requirementsFileId.None?
    ensures var (reply, _, _) := Create(db, queue, context, req, io, prims);
      reply.JobCreated? && reply.job.requirementsFileId.Some?
  {
  }

  /** A body the schema refuses is answered with 400 and stores no job, but
      a file already uploaded keeps its `Uploads` row (whether or not the
      upload's id is attached). */
  lemma InvalidBodyLeavesUploadRow(db: Db, queue: seq<Event>, context: Option<Session>, req: CreateRequest, io: CreateIo,
                                   prims: Primitives, attachUpload: bool)
    requires !Forbidden(context) && req.file.Some? && io.storage.status == Created && !io.uploadInsertFails
    requires !Acceptable(req.form, prims.isEmail)
    ensures var (reply, db', queue') := CreateWith(db, queue, context, req, io, prims, attachUpload);
      && reply == CreateRefused(400, "Failed to parse request body", "Invalid request data")
      && db'.jobs == db.jobs && queue' == queue
      && |db'.uploads| == |db.uploads| + 1
  {
  }

  /** A failing push does not change the reply or the store (whether or
      not the upload's id is attached). */
  lemma PushFailureSwallowed(db: Db, queue: seq<Event>, context: Option<Session>, req: CreateRequest, io: CreateIo,
                             prims: Primitives, attachUpload: bool)
    requires CreateSucceeds(context, req, io, prims)
    ensures var ok := CreateWith(db, queue, context, req, io.(pushFails := false), prims, attachUpload);
      var failed := CreateWith(db, queue, context, req, io.(pushFails := true), prims, attachUpload);
      && failed.0 == ok.0 && failed.1 == ok.1
      && failed.2 == queue && ok.2 == [RequirementsEvent(ok.0.job, req, io, prims)] + queue
  {
  }

  /** `/create` behind its upload middleware `fileUpload("requiremetsFile")`,
      with the handler as written. */
  function CreateRoute(db: Db, queue: seq<Event>, context: Option<Session>, form: JobForm, incoming: Incoming,
                       cookieHeader: Option<string>, io: CreateIo, prims: Primitives): (r: (CreateReply, Db, seq<Event>))
    ensures HandleUpload(FileUpload(RequirementsField, None, None), incoming).Reject? ==>
      var reject := HandleUpload(FileUpload(RequirementsField, None, None), incoming);
      r == (UploadRefused(reject.status, reject.error, reject.message, reject.field), db, queue)
    ensures HandleUpload(FileUpload(RequirementsField, None, None), incoming).Next? ==>
      r == CreateAsWritten(db, queue, context, CreateRequest(form, incoming.file, cookieHeader), io, prims)
  {
    match HandleUpload(FileUpload(RequirementsField, None, None), incoming)
    case Reject(status, error, message, field) => (UploadRefused(status, error, message, field), db, queue)
    case Next(file, _) => CreateAsWritten(db, queue, context, CreateRequest(form, file, cookieHeader), io, prims)
  }

  /** A file sent under the correctly spelled field name is refused. */
  lemma CorrectSpellingRefused(db: Db, queue: seq<Event>, context: Option<Session>, form: JobForm, file: UploadedFile,
                               cookieHeader: Option<string>, io: CreateIo, prims: Primitives)
    requires file.fieldName == "requirementsFile"
    ensures CreateRoute(db, queue, context, form, Incoming(None, Some(file)), cookieHeader, io, prims).0 ==
      UploadRefused(400, "File Upload Error", "Unexpected field", Some("requirementsFile"))
  {
    assert file.fieldName != RequirementsField;
  }

  // -------------------------------------------------------- /recruiter-jobs

  /** One job as `/recruiter-jobs` renders it. */
  datatype RecruiterJobView = RecruiterJobView(
    id: Id,
    title: string,
    company: string,
    status: JobStatus,
    location: string,
    jobType: JobType,
    postedAt: int,
    description: string,
    applicantCount: nat,
    requirements: Option<string>)

  function ViewOf(job: JobRow, applications: seq<ApplicationRow>): (v: RecruiterJobView)
    ensures v.id == job.id && v.applicantCount == CountApplications(applications, job.id)
    ensures v.title == job.title && v.company == job.company && v.status == job.status
    ensures v.jobType == job.jobType && v.postedAt == job.createdAt && v.description == job.description
    ensures v.location == (if job.location.Some? then job.location.value else "")
    ensures v.requirements.Some? <==> job.parsedRequirements.Some? && job.parsedRequirements.value != ""
    ensures v.requirements.Some? ==> v.requirements == job.parsedRequirements
  {
    var requirements := if job.parsedRequirements.Some? && Truthy(job.parsedRequirements.value) then job.parsedRequirements else None;
    RecruiterJobView(job.id, job.title, job.company, job.status, job.location.GetOr(""), job.jobType,
      job.createdAt, job.description, CountApplications(applications, job.id), requirements)
  }

  function ViewAll(jobs: seq<JobRow>, applications: seq<ApplicationRow>): (r: seq<RecruiterJobView>)
    ensures |r| == |jobs|
    ensures forall i :: 0 <= i < |jobs| ==> r[i] == ViewOf(jobs[i], applications)
  {
    if |jobs| == 0 then [] else [ViewOf(jobs[0], applications)] + ViewAll(jobs[1..], applications)
  }

  /** The rows `where: { recruiterId }` selects; an undefined id drops the
      condition, so every row is selected. */
  function OwnedBy(jobs: seq<JobRow>, recruiterId: Option<string>): (r: seq<JobRow>)
    ensures forall x :: x in r <==> x in jobs && (recruiterId.Some? ==> x.recruiterId == recruiterId.value)
    ensures recruiterId.None? ==> r == jobs
  {
    if |jobs| == 0 then []
    else
      assert jobs == [jobs[0]] + jobs[1..];
      (if recruiterId.None? || jobs[0].recruiterId == recruiterId.value then [jobs[0]] else []) + OwnedBy(jobs[1..], recruiterId)
  }

  datatype JobsReply = RecruiterJobs(jobs: seq<RecruiterJobView>) | JobsRefused(status: int, error: string, message: string)

  /** `/recruiter-jobs`; `queryFails` is the database's answer. */
  function ListRecruiterJobs(db: Db, context: Option<Session>, queryFails: bool): (r: JobsReply)
    ensures Forbidden(context) ==> r == JobsRefused(403, "Forbidden", "You do not have permission to list jobs.")
    ensures !Forbidden(context) && queryFails ==>
      r == JobsRefused(500, "Internal Server Error", "An error occurred while fetching recruiter jobs")
    ensures r.RecruiterJobs? <==> !Forbidden(context) && !queryFails
  {
    if Forbidden(context) then JobsRefused(403, "Forbidden", "You do not have permission to list jobs.")
    else if queryFails then JobsRefused(500, "Internal Server Error", "An error occurred while fetching recruiter jobs")
    else RecruiterJobs(ViewAll(NewestFirst(OwnedBy(db.jobs, RecruiterIdOf(context))), db.applications))
  }

  /** Every job listed belongs to the caller and carries its number of
      applications; the list is newest first. */
  lemma RecruiterJobsAreOwnJobs(db: Db, context: Option<Session>)
    requires !Forbidden(context) && RecruiterIdOf(context).Some?
    ensures var r := ListRecruiterJobs(db, context, false);
      && (forall i :: 0 <= i < |r.jobs| ==>
            exists job :: job in db.jobs && job.recruiterId == RecruiterIdOf(context).value && r.jobs[i] == ViewOf(job, db.applications))
      && (forall i, j :: 0 <= i < j < |r.jobs| ==> r.jobs[i].postedAt >= r.jobs[j].postedAt)
  {
    var owned := OwnedBy(db.jobs, RecruiterIdOf(context));
    var ordered := NewestFirst(owned);
    NewestFirstIsSorted(owned);
    var views := ViewAll(ordered, db.applications);
    assert ListRecruiterJobs(db, context, false).jobs == views;
    forall i | 0 <= i < |views|
      ensures exists job :: job in db.jobs && job.recruiterId == RecruiterIdOf(context).value && views[i] == ViewOf(job, db.applications)
    {
      assert ordered[i] in ordered;
      assert ordered[i] in owned;
    }
    forall i, j | 0 <= i < j < |views|
      ensures views[i].postedAt >= views[j].postedAt
    {
      assert views[i] == ViewOf(ordered[i], db.applications);
      assert views[j] == ViewOf(ordered[j], db.applications);
    }
  }

  /** Every job of the caller is listed. */
  lemma RecruiterJobsListEveryOwnJob(db: Db, context: Option<Session>, job: JobRow)
    requires !Forbidden(context) && RecruiterIdOf(context).Some?
    requires job in db.jobs && job.recruiterId == RecruiterIdOf(context).value
    ensures ViewOf(job, db.applications) in ListRecruiterJobs(db, context, false).jobs
  {
    var owned := OwnedBy(db.jobs, RecruiterIdOf(context));
    var ordered := NewestFirst(owned);
    NewestFirstIsSorted(owned);
    assert job in owned;
    assert job in ordered;
    var i :| 0 <= i < |ordered| && ordered[i] == job;
    var views := ViewAll(ordered, db.applications);
    assert views[i] == ViewOf(job, db.applications);
    assert ListRecruiterJobs(db, context, false).jobs == views;
  }

  /** A recruiter profile without an `id` key (undefined, not null) passes
      the check, and the condition on the recruiter id is dropped: every
      job in the table is listed. */
  lemma MissingRecruiterIdListsEveryJob(db: Db, context: Option<Session>)
    requires context.Some? && context.value.Authenticated?
    requires context.value.user.recruiter.Val? && context.value.user.recruiter.value.id.Undefined?
    ensures ListRecruiterJobs(db, context, false) ==
      RecruiterJobs(ViewAll(NewestFirst(db.jobs), db.applications))
  {
  }

  // ------------------------------------------------------ /update-job-status

  datatype StatusReply =
    | StatusUpdated
    | StatusRefused(status: int, error: string, message: string)
    | StatusEscaped

  /** The table with the status of the rows whose id is `id` set to `s`. */
  function SetStatus(jobs: seq<JobRow>, id: Id, s: JobStatus): (r: seq<JobRow>)
    ensures |r| == |jobs|
    ensures forall i :: 0 <= i < |jobs| ==> r[i] == if jobs[i].id == id then jobs[i].(status := s) else jobs[i]
  {
    if |jobs| == 0 then []
    else [if jobs[0].id == id then jobs[0].(status := s) else jobs[0]] + SetStatus(jobs[1..], id, s)
  }

  /** `/update-job-status`. A null id or status is answered with 400, but
      the handler goes on to the update, which the database rejects for the
      null; an undefined id, an unknown status name or a missing job make
      the update throw without a reply; an undefined status updates
      nothing. No check ties the job to the caller. */
  function UpdateJobStatus(db: Db, jobId: Nullable<Id>, status: Nullable<string>): (r: (StatusReply, Db))
    ensures r.0.StatusUpdated? <==>
      jobId.Val? && FindJob(db.jobs, jobId.value).Some? && (status.Undefined? || (status.Val? && ParseJobStatus(status.value).Some?))
    ensures jobId.Null? || status.Null? ==>
      r == (StatusRefused(400, "Bad Request", "Job ID and status are required."), db)
    ensures !jobId.Null? && !status.Null? && !r.0.StatusUpdated? ==> r == (StatusEscaped, db)
    ensures !r.0.StatusUpdated? || status.Undefined? ==> r.1 == db
    ensures r.0.StatusUpdated? && status.Val? ==>
      && r.1 == db.(jobs := r.1.jobs)
      && |r.1.jobs| == |db.jobs|
      && forall i :: 0 <= i < |db.jobs| ==>
           r.1.jobs[i] == (if db.jobs[i].id == jobId.value then db.jobs[i].(status := ParseJobStatus(status.value).value) else db.jobs[i])
  {
    if jobId.Null? || status.Null? then (StatusRefused(400, "Bad Request", "Job ID and status are required."), db)
    else if jobId.Undefined? || FindJob(db.jobs, jobId.value).None? then (StatusEscaped, db)
    else if status.Undefined? then (StatusUpdated, db)
    else match ParseJobStatus(status.value)
      case None => (StatusEscaped, db)
      case Some(s) => (StatusUpdated, db.(jobs := SetStatus(db.jobs, jobId.value, s)))
  }

  /** Setting a status twice is the same as setting the second one:
      whatever the current status, the last update wins. */
  lemma SetStatusLastWins(jobs: seq<JobRow>, id: Id, s1: JobStatus, s2: JobStatus)
    ensures SetStatus(SetStatus(jobs, id, s1), id, s2) == SetStatus(jobs, id, s2)
  {
    var a := SetStatus(SetStatus(jobs, id, s1), id, s2);
    var b := SetStatus(jobs, id, s2);
    assert |a| == |b|;
    forall i | 0 <= i < |a| ensures a[i] == b[i] {
      assert SetStatus(jobs, id, s1)[i].id == jobs[i].id;
    }
  }

  /** A status update of one job leaves every other job as it was. */
  lemma UpdateTouchesOneJob(db: Db, id: Id, status: string, other: Id)
    requires other != id
    ensures var db' := UpdateJobStatus(db, Val(id), Val(status)).1;
      FindJob(db'.jobs, other) == FindJob(db.jobs, other)
  {
    var db' := UpdateJobStatus(db, Val(id), Val(status)).1;
    if db' != db {
      FindJobAfterSetStatus(db.jobs, id, ParseJobStatus(status).value, other);
    }
  }

  lemma {:induction false} FindJobAfterSetStatus(jobs: seq<JobRow>, id: Id, s: JobStatus, other: Id)
    requires other != id
    ensures FindJob(SetStatus(jobs, id, s), other) == FindJob(jobs, other)
  {
    if |jobs| > 0 {
      FindJobAfterSetStatus(jobs[1..], id, s, other);
      assert SetStatus(jobs, id, s)[1..] == SetStatus(jobs[1..], id, s);
    }
  }
}
