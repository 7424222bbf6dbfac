# Job-management server: a Dafny model of its request core

This project models the request-handling core of the job-management server,
an Express back end. Candidates browse open jobs and apply with a résumé.
Recruiters post jobs, list their own jobs and change a job's status. An
external processing pipeline posts parsed requirements back. The model covers:

- **Session and gates.**
  - The Cookie-header parser (`getCookies`) and the token sent to the auth server.
  - The mapping from the auth server's reply to the tagged session result.
  - `authMiddleware` and `recruiterMiddleware`.
  - The root router, which decides which gates guard which routes.
  - The CORS origin rule and the environment settings it reads.
- **Validators.**
  - The `createJobSchema` field rules.
  - The decision made by the `fileUpload` middleware.
- **Handlers over abstract tables.** `Uploads`, `JobOpening` and `Application` are sequences of rows in a `Db` record. Ids come from one counter, standing in for the database's generated uuids. The handlers are:
  - `uploadFile`, `/list-jobs`, `/job-details`, `/apply`;
  - `/create`, `/recruiter-jobs`, `/update-job-status`;
  - the `/requirements` callback.

  Each handler is a pure function from the store, the request and the answers of the outside world to a reply and the new store. The outside world is the storage service's status, whether each insert fails, and whether the queue push fails.

JavaScript semantics are modelled explicitly where they decide an outcome:

- `Nullable<T>` tells `undefined` from `null`. `recruiterMiddleware` tests only `null`, while the `/apply` and `/create` handlers and the recruiter-job listing also test `undefined`.
- A string is truthy exactly when it is non-empty.
- `split` keeps empty pieces. `trim` strips ECMAScript white space and line terminators.
- Assigning to the key `__proto__` of a plain object is ignored.
- A `where` field that is `undefined` is dropped by the ORM.

An exception that a handler does not catch is modelled as an outcome of its own (`Escaped`): the handler sends no reply. `getSessionContext` is the `context` parameter the handlers receive, which is the session a gate attached, or `None`.

Modules follow the source files; `Values`, `Strings`, `Store` and `Ordering` are shared helpers that model no single file. The modules are: `Values`, `Strings`, `Types`, `Session`, `AuthMiddleware`/`RecruiterMiddleware` (gates.dfy), `Routing`, `Env`/`Cors` (config.dfy), `Store`, `Ordering`, `JobSchema`, `UploadMiddleware`, `UploadService`, `Jobs`, `Applications`, `RecruiterApi` and `Pipeline`.

Notable behaviour of the code:

- `/create` takes one optional requirements file and no layout file.
- `/create` parses the body after the upload, so a refused body leaves an orphaned `Uploads` row.
- `/apply` uploads the résumé itself, rather than taking the id of an existing upload, and pushes no event.
- The `/requirements` callback refuses only a context that is explicitly unauthenticated.

## Model

| member | source | states |
|---|---|---|
| Strings.Split | lib/env.ts:14 | splitting on a separator gives at least one piece, and no piece contains the separator |
| Strings.JoinSplit | lib/env.ts:14 | joining the pieces with the separator gives back the original string |
| Strings.SplitJoin | lib/env.ts:14 | splitting pieces that were joined, none containing the separator, gives the pieces back |
| Strings.SplitCount | lib/env.ts:14 | the number of pieces is the number of separators plus one |
| Strings.Trim | lib/utils/utils.ts:9 | the trimmed piece starts after the leading white space, only white space follows it, and it neither starts nor ends with white space |
| Strings.TrimUntrimmed | lib/utils/utils.ts:9 | trimming a string with no white space at either end leaves it unchanged |
| Session.NoHeaderNoCookies | lib/utils/utils.ts:7-15 | a request without a Cookie header yields the empty cookie map |
| Session.ParseCookies | lib/utils/utils.ts:6-16 | no header gives the empty map. Otherwise `__proto__` is never a name, and every other name is bound to the value of the last piece carrying it, or unbound when no piece does, as an independent scan from the end finds |
| Session.CollectLastWins | lib/utils/utils.ts:10-13 | the parsed value of any name other than `__proto__` is the value its last piece gives, which matches an independent scan from the end |
| Session.CollectNeverPrototype | lib/utils/utils.ts:10-12 | `__proto__` is never stored as a cookie name |
| Session.CollectedPartsAreClean | lib/utils/utils.ts:8-11 | every parsed name, and every parsed value, is free of "=" and ";" |
| Session.CookiePairSplitsAtFirstEquals | lib/utils/utils.ts:9-10 | for `name=value` followed by nothing or by a further "=" part, the name and value are taken and the value is cut at its next "=" |
| Session.SessionToken | lib/utils/utils.ts:21-22 | the upstream token is the session cookie's value, or "" when that cookie is absent or has no value |
| Session.UpstreamCookieRoundTrip | lib/utils/utils.ts:21-28 | the Cookie header sent to the auth server parses back to the same token |
| Session.ResolveSession | lib/utils/utils.ts:31-44 | status 200 gives an authenticated session with the reply's user and no error; any other status gives an unauthenticated session with no user and the body text as its error |
| Types.UnauthorizedMessage | lib/middleware/auth.ts:14-15 | the 401 message is the session error when that is non-empty, and otherwise the default login text |
| AuthMiddleware.Authenticate | lib/middleware/auth.ts:9-22 | `next` runs exactly for an authenticated session, which is attached unchanged; otherwise the reply is 401 with the session's message and nothing is attached |
| RecruiterMiddleware.RequireRecruiter | lib/middleware/recruiter.ts:10-29 | `next` runs iff the context is authenticated with a non-null recruiter. A missing or unauthenticated context gets 401 with its message. 403 goes only to an authenticated user whose recruiter is null |
| Routing.PublicRoutesNeedNoSession | lib/api/index.ts:14-15 | ping, index, list-jobs and job-details are served with no session attached, whatever the auth server says |
| Routing.PipelineRouteNeedsRecruiter | lib/api/index.ts:16 | `/pipeline_result/requirements` gives 401 to an unauthenticated caller and 403 to a user with a null recruiter; any other caller is served |
| Routing.ApplyNeedsLogin | lib/api/index.ts:17 | `/apply` gives 401 to an unauthenticated caller; an authenticated one is served with the session attached |
| Routing.ProfileInfoNeedsLogin | lib/api/index.ts:18 | `/user/get-profile-info` gives 401 to an unauthenticated caller; an authenticated one is served with the session attached |
| Routing.RecruiterRouterServes | lib/api/recruiter.ts:16-272 | each route of the recruiter router is served by its own handler |
| Routing.MiddleLayersPass | lib/api/index.ts:16-18 | for an authenticated caller, a `/recruiter/...` request passes the pipeline, application and user layers untouched |
| Routing.RecruiterLayersAfterLogin | lib/api/index.ts:19-22 | after login, a recruiter route gives 403 to a user with a null recruiter and is served otherwise |
| Routing.RecruiterRoutesNeedRecruiter | lib/api/index.ts:19-22 | every `/recruiter/...` route gives 401 before any 403, then 403 for a null recruiter, and is served otherwise |
| Routing.StepsKeepConsistent | lib/api/index.ts:14-22 | in a mounted router, the context stays either empty or the authenticated session, and every refusal is a proper 401 or 403 |
| Routing.LayersKeepConsistent | lib/api/index.ts:14-22 | the same holds across any sequence of root layers |
| Routing.ForbiddenOnlyAfterLogin | lib/api/index.ts:14-22 | the corollary of `Routing.Dispatch`'s contract, stated for every request: the router answers 403 only to an authenticated user without a recruiter profile, and every other refusal is 401 |
| Routing.Dispatch | lib/api/index.ts:12-24 | routing through the root router's layers in mounting order, a handler sees either no session or the authenticated one, and a refusal is a 401, or a 403 for a logged-in user without a recruiter profile |
| Env.CorsAllowedOrigins | lib/env.ts:11-14 | the origin list is never empty, has one entry more than the raw value has commas, contains no commas, and joins back to the raw value (default "*") |
| Env.DefaultOriginsIsWildcard | lib/env.ts:13-14 | when the variable is unset, the list is exactly `["*"]` |
| Env.EventQueue | lib/env.ts:20 | the queue name defaults to "events" and is otherwise the configured value |
| Env.Port | lib/env.ts:6 | the port defaults to 8080 and is otherwise the configured value |
| Cors.CheckOrigin | lib/config/config.ts:5-25 | an origin is allowed iff it is absent or empty, or "*" is listed, or it is listed exactly; a refusal names the origin |
| Cors.WideningKeepsAllowed | lib/config/config.ts:14-21 | adding entries to the list, before or after, never refuses an origin that was allowed |
| Cors.DefaultConfigAllowsEveryOrigin | lib/config/config.ts:14-16 | with the default setting, every origin is allowed |
| Store.ParseJobType | lib/utils/zod.ts:7-18 | a name is accepted exactly when it is one of the ten job-type names |
| Store.JobTypeRoundTrip | lib/utils/zod.ts:7-18 | every job type's name parses back to that type |
| Store.ParseJobStatus | lib/api/recruiter.ts:263-266 | a status name is accepted exactly when it is open, closed or draft |
| Store.InsertUpload | lib/utils/upload.ts:33-44 | an insert appends exactly one row under the fresh id and keeps every id below the counter |
| Store.FindJob | lib/api/jobs.ts:104-116 | a lookup finds a row with the requested id, or reports that no row has it |
| Store.CountApplications | lib/api/recruiter.ts:212-216 | the applicant count is zero exactly when no application names the job |
| Store.CountApplicationsAppend | lib/api/recruiter.ts:212-216 | appending an application adds one to its own job's count and nothing to any other job's, so the count is the number of applications naming the job |
| JobSchema.Failing | lib/utils/zod.ts:3-23 | the reported issues are exactly the fields that break their rule |
| JobSchema.AllFieldsListed | lib/utils/zod.ts:3-23 | no issue is reported iff every field rule holds |
| JobSchema.ParseJobForm | lib/utils/zod.ts:3-23 | a body parses iff every rule holds: title, company and description non-empty, type one of the ten names, contact an email, address present. A parsed body carries the form's values and a refused one lists its failing fields |
| JobSchema.AddressMayBeEmptyLocationMayBeAbsent | lib/utils/zod.ts:6-21 | an empty address and an absent location are accepted; an absent address is refused |
| UploadMiddleware.FileUpload | lib/middleware/upload.ts:22-26 | the file is optional by default and the default size limit is 50*1024*1024 bytes |
| UploadMiddleware.InfoOf | lib/middleware/upload.ts:67-74 | `fileInfo` copies the name, size, mime type and buffer unchanged |
| UploadMiddleware.HandleUpload | lib/middleware/upload.ts:36-78 | `next` runs iff there is no error and a file is present or optional. A parser error gives 400 with its message and field, any other error gives 500 "Server Error", and a missing required file gives 400 "Missing File" naming the field |
| UploadMiddleware.DefaultsLetMissingFileThrough | lib/middleware/upload.ts:22-64 | with the default arguments, a request without a file passes through |
| UploadMiddleware.OtherFieldNameRefused | lib/middleware/upload.ts:27-46 | a file sent under another field name gets 400 "Unexpected field", naming that field |
| UploadService.UploadFile | lib/utils/upload.ts:11-54 | success only on status 201 with a successful insert, which appends exactly one row (name, mime type, bucket, returned URL, user id). The handle carries that row's fresh id and URL. Otherwise the result is null and the store is unchanged |
| UploadService.NoDeduplication | lib/utils/upload.ts:33-44 | uploading the same file twice appends two rows with equal contents under different ids |
| Ordering.InsertByDate | lib/api/jobs.ts:57-59 | placing a row keeps every row and adds exactly this one |
| Ordering.InsertKeepsOrder | lib/api/jobs.ts:57-59 | placing a row into a newest-first list keeps it newest first |
| Ordering.NewestFirst | lib/api/jobs.ts:57-59 | the ordered rows are a permutation of the input |
| Ordering.NewestFirstIsSorted | lib/api/jobs.ts:57-59 | the ordered rows are newest first and contain exactly the input rows |
| Jobs.Matching | lib/api/jobs.ts:19-46 | a row is selected iff it is open, contains the search in its title, description or company, has a location containing the location filter, and has a type in the type list — each filter applying only when its parameter is given |
| Jobs.MatchingKeepsMultiplicity | lib/api/jobs.ts:19-50 | every matching row is selected as often as the table holds it, and no other row is, so the reported total is the number of matching rows |
| Jobs.Summarize | lib/api/jobs.ts:65-74 | a listed job copies its row's fields, and a missing location is rendered as "" |
| Jobs.SummarizeAll | lib/api/jobs.ts:65-74 | the listing renders each row of the page, in order |
| Jobs.Window | lib/api/jobs.ts:53-56 | a page holds at most 28 rows, namely the ordered rows from `skip` on, and is empty past the end |
| Jobs.PageCount | lib/api/jobs.ts:49-50 | the page count is the ceiling of total/28; zero matches give zero pages |
| Jobs.ListJobs | lib/api/jobs.ts:7-91 | the listing fails with 500 "An error occurred while fetching jobs" iff the page gives a negative skip or a listed type name is not a job type; otherwise it reports the match count, the page count, the page number and at most 28 jobs |
| Jobs.ListedJobsMatch | lib/api/jobs.ts:20-60 | every listed job comes from an open row that meets every given filter, and the page is newest first |
| Jobs.EveryMatchIsOnItsPage | lib/api/jobs.ts:11-56 | the k-th newest match appears on page k/28+1, at position k%28 |
| Jobs.MatchingIgnoresPage | lib/api/jobs.ts:19-46 | the page number plays no part in the selection |
| Jobs.SingleTypeFilter | lib/api/jobs.ts:12-46 | a single valid type name selects exactly the open jobs of that type |
| Jobs.TrailingCommaFails | lib/api/jobs.ts:12-46 | a type list with an empty entry, such as a trailing comma, makes the listing fail |
| Jobs.JobDetailsAsWritten | lib/api/jobs.ts:94-128 | with an id, it behaves as the intended lookup; without one, it answers with a job whenever the table is non-empty |
| Jobs.JobDetails | lib/api/jobs.ts:94-128 | found iff an id is given and some row has it, with that row's selected fields (whatever its status); a missing id gives 400 and an unknown id gives 404 |
| Jobs.MissingIdAnswersWithFirstJob | lib/api/jobs.ts:95-116 | for a non-empty table and no id, the handler as written returns the first job, where the intended handler returns 400 |
| Applications.SessionUserId | lib/api/application.ts:20 | the user id is present iff the context is authenticated and its user id is neither undefined nor null |
| Applications.ApplyWith | lib/api/application.ts:14-160 | success iff every check passes in order (user, job id, not yet applied, file, 201, both inserts). Each early refusal leaves the store unchanged, with 401, 400 or the storage status. A failed upload insert gets no reply and stores nothing; an unknown job or a failed application insert gets no reply but keeps the new upload row. Success appends exactly one upload row and one pending application with zero scores and the new upload's id as its résumé |
| Applications.ApplyAsWritten | lib/api/application.ts:81-92 | as written, a successful apply tags its upload row `requirements` |
| Applications.Apply | lib/api/application.ts:53-124 | as intended, the upload row is tagged `resume`, and the new application's résumé id is that row's id |
| Applications.ResumeRowMistagged | lib/api/application.ts:60-92 | after an apply as written, the row the application's résumé id points to is not tagged `resume` |
| Applications.ApplyRoute | lib/api/application.ts:14 | a refusal by `fileUpload("resumeFile")` is the reply, with status 400 or 500 and the field the middleware names, and stores nothing; otherwise the handler as written runs on the file received |
| Applications.MissingResumeRefusedByHandler | lib/api/application.ts:102-108 | a request without a file passes the middleware and is refused by the handler with "No file uploaded", storing nothing |
| Applications.ApplyKeepsUnique | lib/api/application.ts:36-124 | one apply, whatever its outcome, keeps at most one application per (job, candidate) |
| Applications.ApplyAddsOneApplicant | lib/api/application.ts:111-124 | a successful apply, as written or corrected, raises its job's applicant count by exactly one and leaves every other job's count unchanged |
| Applications.RunAppliesKeepsUnique | lib/api/application.ts:36-124 | any sequential run of applies, as written or corrected, keeps at most one application per (job, candidate) |
| Applications.SecondApplyRefused | lib/api/application.ts:36-49 | once an apply succeeds, as written or corrected, a second one to the same job gets 400 "Already Applied" and stores nothing |
| RecruiterApi.RecruiterOf | lib/api/recruiter.ts:21-23 | the recruiter is the authenticated user's field, or undefined without an authenticated session |
| RecruiterApi.RecruiterIdOf | lib/api/recruiter.ts:117-138 | the recruiter id is present iff the recruiter and its id are both values |
| RecruiterApi.MiddlewareCoversHandlerCheck | lib/api/recruiter.ts:21-24 | a null recruiter passes the handler's own check but is stopped by the middleware; a caller the middleware passes, whose recruiter has an id, passes the handler's check too |
| RecruiterApi.RequirementsEvent | lib/api/recruiter.ts:143-162 | the event has type REQUIREMENTS, the cookie's session token, the new job's id and no application id, data holding title and description, and base64 of the file or null |
| RecruiterApi.CreateWith | lib/api/recruiter.ts:16-189 | a job is created iff the recruiter check, the upload (when a file is sent), the schema and the insert all succeed. 403 and storage failures store nothing, and a failed upload insert gets no reply and stores nothing. A refused body gets 400 and a failed job insert 500 "Database Error", both storing no job. Stored uploads are never rewritten, and an upload appends one row for the file with its name, type, URL and the `requirements` tag. A created job carries every parsed field, a fresh id, the caller as owner, status open and no parsed requirements; it is the only new job. The event is queued unless the push fails |
| RecruiterApi.CreateAsWritten | lib/api/recruiter.ts:63-74 | as written, a created job never has a requirements file id |
| RecruiterApi.Create | lib/api/recruiter.ts:16-189 | as intended, a created job has a requirements file id iff a file was sent, and it is the id of the new row tagged `requirements` with the storage URL |
| RecruiterApi.RequirementsFileOrphaned | lib/api/recruiter.ts:62-139 | after a successful create with a file, the upload row exists but, as written, the job does not refer to it |
| RecruiterApi.InvalidBodyLeavesUploadRow | lib/api/recruiter.ts:35-95 | as written or corrected, a body the schema refuses gets 400 and stores no job, but keeps the already uploaded row |
| RecruiterApi.PushFailureSwallowed | lib/api/recruiter.ts:164-171 | as written or corrected, a failing push changes neither the reply nor the store, only the queue |
| RecruiterApi.CreateRoute | lib/api/recruiter.ts:16 | a refusal by `fileUpload("requiremetsFile")` is the reply, with the field the middleware names, and stores nothing; otherwise the handler as written runs |
| RecruiterApi.CorrectSpellingRefused | lib/api/recruiter.ts:16 | a file sent as `requirementsFile` is refused with 400 as an unexpected field, and the reply names `requirementsFile` |
| RecruiterApi.ViewOf | lib/api/recruiter.ts:227-238 | a listed job carries its id, title, company, status, type, posting date and description, its number of applications, "" for a missing location, and its parsed requirements exactly when they are non-empty |
| RecruiterApi.ViewAll | lib/api/recruiter.ts:227-238 | each listed row is rendered, in order |
| RecruiterApi.OwnedBy | lib/api/recruiter.ts:208-211 | the selection is exactly the rows with the caller's recruiter id; an undefined id selects every row |
| RecruiterApi.ListRecruiterJobs | lib/api/recruiter.ts:191-250 | the reply is 403 for the handler's check, 500 "Internal Server Error" on a query failure, and otherwise a listing |
| RecruiterApi.RecruiterJobsAreOwnJobs | lib/api/recruiter.ts:207-238 | every listed job is one of the caller's, with its applicant count, and the list is newest first |
| RecruiterApi.RecruiterJobsListEveryOwnJob | lib/api/recruiter.ts:207-222 | every job of the caller is listed |
| RecruiterApi.MissingRecruiterIdListsEveryJob | lib/api/recruiter.ts:195-211 | a recruiter profile without an id passes the check and is shown every job in the table |
| RecruiterApi.SetStatus | lib/api/recruiter.ts:263-266 | exactly the rows with the given id get the new status; all other rows are unchanged |
| RecruiterApi.UpdateJobStatus | lib/api/recruiter.ts:252-270 | success iff the id is a value, the job exists, and the status is undefined or a valid name. A null id or status gives 400 and changes nothing. Any other failure (an undefined id, a missing job, an unknown status name) throws in the update, so no reply is sent and nothing changes. Success changes only that job's status, with no ownership check |
| RecruiterApi.SetStatusLastWins | lib/api/recruiter.ts:263-266 | two status updates equal the second one alone, whatever the current status |
| RecruiterApi.UpdateTouchesOneJob | lib/api/recruiter.ts:263-266 | an update leaves every other job as it was |
| RecruiterApi.FindJobAfterSetStatus | lib/api/recruiter.ts:263-266 | looking up any other id after a status update finds the same row as before |
| Pipeline.SetRequirements | lib/api/pipeline.ts:24-32 | exactly the rows with the given id get the payload as their parsed requirements |
| Pipeline.ReceiveRequirements | lib/api/pipeline.ts:11-43 | an unauthenticated context gets 401 and nothing changes. Otherwise a body without `result` or `session` gets no reply and a write failure gets 500 "Failed to update job opening", both with no change. A successful write changes only the parsed requirements of the rows with the named id, and the reply is 200 |
| Pipeline.LastWriteWins | lib/api/pipeline.ts:24-32 | two writes for a job equal the second one alone |
| Pipeline.CallbacksLastWinsAndIdempotent | lib/api/pipeline.ts:24-36 | a second callback leaves its own payload, and repeating a callback changes nothing |
| Pipeline.UnknownJobUntouched | lib/api/pipeline.ts:24-36 | a callback for an id no job has succeeds and changes nothing |

## Left out

- Network calls are inputs, not modelled: the auth server, the storage service, the database and the Redis queue. Each handler receives their answers (status codes, URLs, failure flags).
- Ids are abstract naturals. A malformed uuid, which makes the database throw, is not modelled.
- The serialisers, encoders and matchers are parameters: `JSON.stringify`, base64, the email check and the case-insensitive `contains` of the database. Timestamps are too.
- lib/utils/constants.ts is not part of this model. The session cookie's name is a parameter, and the event type is the single constant `Requirements`.
- `/recruiter/applications` (lib/api/recruiter.ts:272-332) is not modelled: it is a read-only join over the users and uploads tables. Only its gates are modelled, by the router.
- `/user/get-profile-info` (lib/api/user.ts) sends no reply of its own. Only its login gate is modelled.
- The commented-out pipeline router, the logger, the server bootstrap, the static api routes and the multer storage configuration are left out: they hold no decision logic.
- The Redis client lifecycle is left out. The queue is a sequence that `lPush` prepends to.
- Concurrency is not modelled: every run is sequential. The duplicate-application check reads and then inserts without a transaction, so uniqueness under concurrent requests is not claimed.
- Shortlisting and score ranking are left out: no handler implements them. Scores are only ever written as 0.0, so they appear as a constant.
- Express matches paths case-insensitively and tolerates trailing slashes. This is not modelled: paths are exact segment lists.
- Every root `authMiddleware` layer sees the same auth-server reply. The code asks the auth server again at each of the four layers (lib/api/index.ts:16-22), and those answers could differ between calls; the routing lemmas assume they agree.
- Session.ResolveSession: a 200 reply whose body is not JSON, or has no `session`, makes `getServerSession` throw (lib/utils/utils.ts:31-34), so the middleware sends no reply. The model takes the user of a 200 reply as given.
- Escaped outcomes stop at the handler. What the framework does with a rejected handler promise is not modelled.
- The `/update-job-status` 400 branch does not return, so the handler goes on to the update. That update throws on the null, so the visible outcome is 400 with nothing changed, and the model states exactly that.
- Jobs.ListJobs: `parseInt` on a non-numeric page (NaN) is not modelled. The page is given as an already parsed integer, absent or empty meaning 1.
- Ordering.NewestFirst: rows with equal `createdAt` keep table order. The database leaves their order unspecified.
- Jobs.JobDetailsAsWritten: the row `findFirst` returns with an empty filter is taken to be the first in table order. The database does not fix which row it is.
- Env.Port: the numeric coercion of `PORT` is not modelled. The setting is given as a number.
- UploadService.UploadFile: a failure to parse the storage reply's JSON body is folded into the insert failure flag. Both lead to null.
- Applications.ApplyWith: an insert failure for the upload row is an `Escaped` outcome with nothing stored. The catch block replies using the storage body a second time, which throws, so no reply is sent. The same holds in RecruiterApi.CreateWith.
- Pipeline.ReceiveRequirements: a body without `result` or `session` throws before the handler's `try`. A `session` without `job_id` is folded into the write failure flag.

## Findings

| source | as written | input that shows it | evidently intended | confidence | as-written member | corrected member |
|---|---|---|---|---|---|---|
| lib/api/jobs.ts:95-104 | the handler reads `req.query.id` and tests it against `null`, but a missing query parameter is `undefined`. `findFirst` then drops the condition on `id` | `GET /job-details` without `id`, with at least one job stored: 200 with the first job | 400 "Job ID is required" | not executed; high | Jobs.JobDetailsAsWritten | Jobs.JobDetails |
| lib/api/application.ts:81-92 | the résumé's `Uploads` row is tagged `requirements`, although the file goes to the `resume` bucket (line 60) | any successful `/apply` | the row is tagged `resume` | not executed; high | Applications.ApplyAsWritten | Applications.Apply |
| lib/api/recruiter.ts:63-74 | the raw insert returns a list of rows, and the handler reads `.id` off the list itself, which is undefined. So the job is inserted without `requirements_file_id` | `/create` with a file that uploads successfully: the upload row exists, but the job does not refer to it | the job's requirements file id is the new upload's id, as `/apply` does with `[0].id` | not executed; high | RecruiterApi.CreateAsWritten | RecruiterApi.Create |

The route models `Applications.ApplyRoute` and `RecruiterApi.CreateRoute` run the handlers as written. The lemmas about runs of applies and about creates are stated over a row tag or a flag, so they hold for the code as written and for the corrected handlers alike.
