/** The relational store as in-memory tables: `Uploads`, `JobOpening` and
    `Application` as sequences of rows in insertion order. Row ids are drawn
    from one counter, which stands for the database's id generation: every
    insert takes the next unused id. */
module Store {
  import opened Values
  import opened Types

  datatype UploadType = Resume | Requirements | LayoutTemplate

  datatype JobStatus = Open | Closed | Draft

  datatype ApplicationStatus = Pending | Accepted | Rejected

  datatype JobType =
    | FullTime | PartTime | Contract | Internship | Freelance
    | Temporary | Volunteer | Remote | OnSite | Hybrid

  /** The wire name of each job type. */
  function JobTypeName(t: JobType): string
  {
    match t
    case FullTime => "fullTime"
    case PartTime => "partTime"
    case Contract => "contract"
    case Internship => "internship"
    case Freelance => "freelance"
    case Temporary => "temporary"
    case Volunteer => "volunteer"
    case Remote => "remote"
    case OnSite => "onSite"
    case Hybrid => "hybrid"
  }

  /** The job type with wire name `s`, if any: exactly the ten names above. */
  function ParseJobType(s: string): (t: Option<JobType>)
    ensures t.Some? ==> JobTypeName(t.value) == s
    ensures t.None? ==> forall u: JobType :: JobTypeName(u) != s
  {
    if s == "fullTime" then Some(FullTime)
    else if s == "partTime" then Some(PartTime)
    else if s == "contract" then Some(Contract)
    else if s == "internship" then Some(Internship)
    else if s == "freelance" then Some(Freelance)
    else if s == "temporary" then Some(Temporary)
    else if s == "volunteer" then Some(Volunteer)
    else if s == "remote" then Some(Remote)
    else if s == "onSite" then Some(OnSite)
    else if s == "hybrid" then Some(Hybrid)
    else None
  }

  /** Every job type's name parses back to it. */
  lemma JobTypeRoundTrip(t: JobType)
    ensures ParseJobType(JobTypeName(t)) == Some(t)
  {
  }

  function JobStatusName(s: JobStatus): string
  {
    match s
    case Open => "open"
    case Closed => "closed"
    case Draft => "draft"
  }

  function ParseJobStatus(s: string): (st: Option<JobStatus>)
    ensures st.Some? ==> JobStatusName(st.value) == s
    ensures st.None? ==> forall u: JobStatus :: JobStatusName(u) != s
  {
    if s == "open" then Some(Open)
    else if s == "closed" then Some(Closed)
    else if s == "draft" then Some(Draft)
    else None
  }

  datatype UploadRow = UploadRow(
    id: Id,
    name: string,
    fileType: string,
    uploadType: UploadType,
    url: string,
    userId: Option<string>)

  datatype JobRow = JobRow(
    id: Id,
    title: string,
    company: string,
    location: Option<string>,
    jobType: JobType,
    description: string,
    contact: string,
    address: string,
    recruiterId: string,
    requirementsFileId: Option<Id>,
    status: JobStatus,
    parsedRequirements: Option<string>,
    createdAt: int)

  datatype ApplicationRow = ApplicationRow(
    id: Id,
    jobId: Id,
    userId: string,
    resumeId: Id,
    status: ApplicationStatus,
    layoutScore: real,
    contentScore: real)

  datatype Db = Db(
    uploads: seq<UploadRow>,
    jobs: seq<JobRow>,
    applications: seq<ApplicationRow>,
    nextId: Id)

  /** Every id in use is below the counter, so the counter is a fresh id. */
  predicate IdsBelowCounter(db: Db) {
    && (forall i :: 0 <= i < |db.uploads| ==> db.uploads[i].id < db.nextId)
    && (forall i :: 0 <= i < |db.jobs| ==> db.jobs[i].id < db.nextId)
    && (forall i :: 0 <= i < |db.applications| ==> db.applications[i].id < db.nextId)
  }

  /** `INSERT INTO "Uploads" ... RETURNING *`: the new row and the table
      after the insert. */
  function InsertUpload(db: Db, name: string, fileType: string, tag: UploadType, url: string, userId: Option<string>): (r: (UploadRow, Db))
    ensures r.0 == UploadRow(db.nextId, name, fileType, tag, url, userId)
    ensures r.1 == db.(uploads := db.uploads + [r.0], nextId := db.nextId + 1)
    ensures IdsBelowCounter(db) ==> IdsBelowCounter(r.1)
  {
    var row := UploadRow(db.nextId, name, fileType, tag, url, userId);
    (row, db.(uploads := db.uploads + [row], nextId := db.nextId + 1))
  }

  /** The first job row with id `id`, if any. `IdsBelowCounter` only
      bounds the ids; each insert takes a fresh id above every stored one,
      so a table built by inserts holds each id once. */
  function FindJob(jobs: seq<JobRow>, id: Id): (r: Option<JobRow>)
    ensures r.Some? ==> r.value in jobs && r.value.id == id
    ensures r.None? ==> forall i :: 0 <= i < |jobs| ==> jobs[i].id != id
  {
    if |jobs| == 0 then None
    else if jobs[0].id == id then Some(jobs[0])
    else FindJob(jobs[1..], id)
  }

  /** Whether an application for `(jobId, userId)` exists
      (`application.findFirst` with both fields). */
  predicate HasApplied(applications: seq<ApplicationRow>, jobId: Id, userId: string)
  {
    exists i :: 0 <= i < |applications| && applications[i].jobId == jobId && applications[i].userId == userId
  }

  /** The number of applications to job `jobId`. */
  function CountApplications(applications: seq<ApplicationRow>, jobId: Id): (n: nat)
    ensures n <= |applications|
    ensures n == 0 <==> forall i :: 0 <= i < |applications| ==> applications[i].jobId != jobId
  {
    if |applications| == 0 then 0
    else (if applications[0].jobId == jobId then 1 else 0) + CountApplications(applications[1..], jobId)
  }

  /** Appending an application adds one to its job's count and nothing to
      any other job's: with the empty table counting zero, this fixes the
      count as the number of applications naming the job. */
  lemma {:induction false} CountApplicationsAppend(applications: seq<ApplicationRow>, a: ApplicationRow, jobId: Id)
    ensures CountApplications(applications + [a], jobId) ==
      CountApplications(applications, jobId) + (if a.jobId == jobId then 1 else 0)
  {
    if |applications| == 0 {
      assert applications + [a] == [a];
    } else {
      assert (applications + [a])[1..] == applications[1..] + [a];
      CountApplicationsAppend(applications[1..], a, jobId);
    }
  }
}
