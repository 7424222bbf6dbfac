/** The public job endpoints: `/list-jobs` (filter, count, page) and
    `/job-details` (lookup by id).

    Case-insensitive substring matching (`contains` with mode
    "insensitive") is done by the database and is a parameter here:
    `containsCI(haystack, needle)`. */
module Jobs {
  import opened Values
  import opened Types
  import opened Strings
  import opened Store
  import opened Ordering

  const PageSize := 28

  /** The query string of `/list-jobs`. `page` is the page number as parsed
      (`None` when the parameter is absent or empty, which means page 1). */
  datatype ListQuery = ListQuery(
    search: Option<string>,
    location: Option<string>,
    page: Option<int>,
    jobTypes: Option<string>)

  /** One job as the listing renders it; a missing location becomes "". */
  datatype JobSummary = JobSummary(
    id: Id,
    title: string,
    company: string,
    location: string,
    jobType: JobType,
    postedAt: int,
    description: string)

  datatype ListReply =
    | Listing(jobs: seq<JobSummary>, totalJobs: nat, totalPages: nat, currentPage: int)
    | ListFailed(status: int, error: string)

  function PageNumber(q: ListQuery): int
  {
    q.page.GetOr(1)
  }

  function Skip(q: ListQuery): int
  {
    (PageNumber(q) - 1) * PageSize
  }

  /** The type names the filter asks for, when `jobTypes` is non-empty. */
  function TypeFilter(q: ListQuery): Option<seq<string>>
  {
    if q.jobTypes.Some? && Truthy(q.jobTypes.value) then Some(Split(q.jobTypes.value, ',')) else None
  }

  /** Whether `s` is set and non-empty, as a JavaScript condition reads it. */
  predicate Given(s: Option<string>)
  {
    s.Some? && Truthy(s.value)
  }

  /** The where-clause: open, plus each filter whose parameter is given. */
  predicate Matches(job: JobRow, q: ListQuery, containsCI: (string, string) -> bool)
  {
    && job.status == Open
    && (Given(q.search) ==>
          containsCI(job.title, q.search.value)
          || containsCI(job.description, q.search.value)
          || containsCI(job.company, q.search.value))
    && (Given(q.location) ==> job.location.Some? && containsCI(job.location.value, q.location.value))
    && (TypeFilter(q).Some? ==> JobTypeName(job.jobType) in TypeFilter(q).value)
  }

  /** The rows the where-clause selects, in table order. */
  function Matching(jobs: seq<JobRow>, q: ListQuery, containsCI: (string, string) -> bool): (r: seq<JobRow>)
    ensures |r| <= |jobs|
    ensures forall x :: x in r <==> x in jobs && Matches(x, q, containsCI)
  {
    if |jobs| == 0 then []
    else (if Matches(jobs[0], q, containsCI) then [jobs[0]] else []) + Matching(jobs[1..], q, containsCI)
  }

  /** The selection keeps every matching row as often as the table holds
      it and drops every other row, so `|Matching(..)|` is the number of
      matching rows. */
  lemma {:induction false} MatchingKeepsMultiplicity(jobs: seq<JobRow>, q: ListQuery, containsCI: (string, string) -> bool)
    ensures forall x :: multiset(Matching(jobs, q, containsCI))[x] == if Matches(x, q, containsCI) then multiset(jobs)[x] else 0
  {
    if |jobs| > 0 {
      MatchingKeepsMultiplicity(jobs[1..], q, containsCI);
      assert jobs == [jobs[0]] + jobs[1..];
    }
  }

  /** The database refuses the query: a negative `skip`, or a type name that
      is not one of the ten job types. */
  predicate QueryRefused(q: ListQuery)
  {
    || Skip(q) < 0
    || (TypeFilter(q).Some? && exists k :: 0 <= k < |TypeFilter(q).value| && ParseJobType(TypeFilter(q).value[k]).None?)
  }

  function Summarize(job: JobRow): (s: JobSummary)
    ensures s.id == job.id && s.title == job.title && s.company == job.company
    ensures s.jobType == job.jobType && s.description == job.description && s.postedAt == job.createdAt
    ensures s.location == (if job.location.Some? then job.location.value else "")
  {
    JobSummary(job.id, job.title, job.company, job.location.GetOr(""), job.jobType, job.createdAt, job.description)
  }

  function SummarizeAll(jobs: seq<JobRow>): (r: seq<JobSummary>)
    ensures |r| == |jobs|
    ensures forall i :: 0 <= i < |jobs| ==> r[i] == Summarize(jobs[i])
  {
    if |jobs| == 0 then [] else [Summarize(jobs[0])] + SummarizeAll(jobs[1..])
  }

  /** The `skip`/`take` window of the ordered rows. */
  function Window(rows: seq<JobRow>, skip: nat): (w: seq<JobRow>)
    ensures |w| <= PageSize
    ensures skip >= |rows| ==> w == []
    ensures skip < |rows| ==> w == rows[skip..if skip + PageSize <= |rows| then skip + PageSize else |rows|]
  {
    if skip >= |rows| then []
    else if skip + PageSize <= |rows| then rows[skip..skip + PageSize]
    else rows[skip..]
  }

  /** The number of pages, `ceil(total / 28)`. */
  function PageCount(total: nat): (pages: nat)
    ensures pages * PageSize >= total
    ensures total > 0 ==> (pages - 1) * PageSize < total
    ensures total == 0 <==> pages == 0
  {
    (total + PageSize - 1) / PageSize
  }

  /** `/list-jobs`. */
  function ListJobs(jobs: seq<JobRow>, q: ListQuery, containsCI: (string, string) -> bool): (r: ListReply)
    ensures r.ListFailed? <==> QueryRefused(q)
    ensures r.ListFailed? ==> r == ListFailed(500, "An error occurred while fetching jobs")
    ensures r.Listing? ==>
      && r.totalJobs == |Matching(jobs, q, containsCI)|
      && r.totalPages == PageCount(r.totalJobs)
      && r.currentPage == PageNumber(q)
      && |r.jobs| <= PageSize
  {
    if QueryRefused(q) then ListFailed(500, "An error occurred while fetching jobs")
    else
      var selected := Matching(jobs, q, containsCI);
      var ordered := NewestFirst(selected);
      Listing(SummarizeAll(Window(ordered, Skip(q))), |selected|, PageCount(|selected|), PageNumber(q))
  }

  /** A listing renders the window of the ordered matches. */
  lemma ListingIsWindow(jobs: seq<JobRow>, q: ListQuery, containsCI: (string, string) -> bool)
    requires !QueryRefused(q)
    ensures Skip(q) >= 0 && ListJobs(jobs, q, containsCI).Listing?
    ensures ListJobs(jobs, q, containsCI).jobs == SummarizeAll(Window(NewestFirst(Matching(jobs, q, containsCI)), Skip(q)))
  {
  }

  /** The window holds the rows from `skip` on, in order. */
  lemma WindowRows(rows: seq<JobRow>, skip: nat)
    ensures forall i :: 0 <= i < |Window(rows, skip)| ==> skip + i < |rows| && Window(rows, skip)[i] == rows[skip + i]
  {
    var w := Window(rows, skip);
    forall i | 0 <= i < |w| ensures skip + i < |rows| && w[i] == rows[skip + i] {
    }
  }

  /** A window of newest-first rows is newest first, and holds only rows
      of the input. */
  lemma WindowOfOrdered(rows: seq<JobRow>, skip: nat)
    requires NewestFirstOrder(rows)
    ensures NewestFirstOrder(Window(rows, skip))
    ensures forall x :: x in Window(rows, skip) ==> x in rows
  {
    WindowRows(rows, skip);
    var w := Window(rows, skip);
    forall x | x in w ensures x in rows {
      var i :| 0 <= i < |w| && w[i] == x;
      assert rows[skip + i] == x;
    }
  }

  /** Rendering keeps the order and renders only rows of the input. */
  lemma SummariesOfOrdered(rows: seq<JobRow>)
    requires NewestFirstOrder(rows)
    ensures var page := SummarizeAll(rows);
      && (forall i :: 0 <= i < |page| ==> rows[i] in rows && page[i] == Summarize(rows[i]))
      && (forall i, j :: 0 <= i < j < |page| ==> page[i].postedAt >= page[j].postedAt)
  {
  }

  /** Every job listed is open, meets every filter that was given, and the
      page is newest first. */
  lemma ListedJobsMatch(jobs: seq<JobRow>, q: ListQuery, containsCI: (string, string) -> bool)
    requires ListJobs(jobs, q, containsCI).Listing?
    ensures var page := ListJobs(jobs, q, containsCI).jobs;
      && (forall i :: 0 <= i < |page| ==>
            exists job :: job in jobs && Matches(job, q, containsCI) && page[i] == Summarize(job))
      && (forall i, j :: 0 <= i < j < |page| ==> page[i].postedAt >= page[j].postedAt)
  {
    ListingIsWindow(jobs, q, containsCI);
    var selected := Matching(jobs, q, containsCI);
    var ordered := NewestFirst(selected);
    NewestFirstIsSorted(selected);
    var w := Window(ordered, Skip(q));
    WindowOfOrdered(ordered, Skip(q));
    SummariesOfOrdered(w);
    var page := ListJobs(jobs, q, containsCI).jobs;
    forall i | 0 <= i < |page|
      ensures exists job :: job in jobs && Matches(job, q, containsCI) && page[i] == Summarize(job)
    {
      var job := w[i];
      assert job in ordered;
      assert job in selected;
    }
  }

  /** Paging covers the ordered matches: the `k`-th newest match is on page
      `k / 28 + 1`, at position `k % 28`. */
  lemma EveryMatchIsOnItsPage(jobs: seq<JobRow>, q: ListQuery, containsCI: (string, string) -> bool, k: nat)
    requires !QueryRefused(q)
    requires k < |Matching(jobs, q, containsCI)|
    ensures var onPage := q.(page := Some(k / PageSize + 1));
      var r := ListJobs(jobs, onPage, containsCI);
      && r.Listing?
      && k % PageSize < |r.jobs|
      && r.jobs[k % PageSize] == Summarize(NewestFirst(Matching(jobs, q, containsCI))[k])
  {
    var onPage := q.(page := Some(k / PageSize + 1));
    var skip := PageStart(k);
    OtherPageAccepted(q, k / PageSize + 1);
    MatchingIgnoresPage(jobs, q, onPage, containsCI);
    ListingIsWindow(jobs, onPage, containsCI);
    var ordered := NewestFirst(Matching(jobs, q, containsCI));
    RowOnItsPage(ordered, skip, k);
  }

  /** Asking for another page of an accepted query is accepted too, and
      skips the pages before it. */
  lemma OtherPageAccepted(q: ListQuery, p: int)
    requires !QueryRefused(q) && p >= 1
    ensures !QueryRefused(q.(page := Some(p)))
    ensures Skip(q.(page := Some(p))) == (p - 1) * PageSize
  {
    assert TypeFilter(q.(page := Some(p))) == TypeFilter(q);
  }

  /** Row `k` of the ordered rows is on the page that starts at `skip`,
      at position `k - skip`. */
  lemma RowOnItsPage(ordered: seq<JobRow>, skip: nat, k: nat)
    requires skip <= k < skip + PageSize && k < |ordered|
    ensures k - skip < |SummarizeAll(Window(ordered, skip))|
    ensures SummarizeAll(Window(ordered, skip))[k - skip] == Summarize(ordered[k])
  {
    WindowRows(ordered, skip);
  }

  /** The first position on the page that holds position `k`. */
  function PageStart(k: nat): (skip: nat)
    ensures skip <= k < skip + PageSize
    ensures k - skip == k % PageSize
    ensures skip == (k / PageSize + 1 - 1) * PageSize
  {
    (k / PageSize) * PageSize
  }

  /** The page number takes no part in the where-clause. */
  lemma {:induction false} MatchingIgnoresPage(jobs: seq<JobRow>, q: ListQuery, q': ListQuery, containsCI: (string, string) -> bool)
    requires q' == q.(page := q'.page)
    ensures Matching(jobs, q', containsCI) == Matching(jobs, q, containsCI)
  {
    if |jobs| > 0 {
      MatchingIgnoresPage(jobs[1..], q, q', containsCI);
      assert Matches(jobs[0], q', containsCI) == Matches(jobs[0], q, containsCI);
    }
  }

  /** `jobTypes` given as a single valid type name keeps exactly the open
      jobs of that type (other filters unset). */
  lemma SingleTypeFilter(jobs: seq<JobRow>, t: JobType, containsCI: (string, string) -> bool)
    ensures var q := ListQuery(None, None, None, Some(JobTypeName(t)));
      && !QueryRefused(q)
      && forall job :: job in Matching(jobs, q, containsCI) <==> job in jobs && job.status == Open && job.jobType == t
  {
    var name := JobTypeName(t);
    var q := ListQuery(None, None, None, Some(name));
    assert ',' !in name;
    SplitWithoutSeparator(name, ',');
    JobTypeRoundTrip(t);
    forall job: JobRow ensures JobTypeName(job.jobType) in [name] <==> job.jobType == t {
      JobTypeRoundTrip(job.jobType);
    }
  }

  /** A type list with an entry that is no job type (an empty entry left by
      a trailing comma, say) makes the listing fail. */
  lemma TrailingCommaFails(jobs: seq<JobRow>, t: JobType, containsCI: (string, string) -> bool)
    ensures ListJobs(jobs, ListQuery(None, None, None, Some(JobTypeName(t) + ",")), containsCI).ListFailed?
  {
    var name := JobTypeName(t);
    var raw := name + ",";
    assert raw == name + [','] + "";
    assert ',' !in name;
    SplitAfterPiece(name, ',', "");
    SplitWithoutSeparator("", ',');
    var q := ListQuery(None, None, None, Some(raw));
    assert TypeFilter(q) == Some(Split(raw, ','));
    assert Split(raw, ',')[1] == "";
    assert ParseJobType("").None?;
    assert QueryRefused(q);
  }

  /** The fields `/job-details` selects. */
  datatype JobDetail = JobDetail(
    id: Id,
    title: string,
    address: string,
    company: string,
    description: string,
    location: Option<string>,
    jobType: JobType,
    status: JobStatus)

  function Select(job: JobRow): JobDetail
  {
    JobDetail(job.id, job.title, job.address, job.company, job.description, job.location, job.jobType, job.status)
  }

  datatype DetailsReply = Details(data: JobDetail) | DetailsFailed(status: int, error: string)

  const JobIdRequired := "Job ID is required"
  const JobNotFound := "Job not found"

  /** `/job-details` as written. The query parameter `id` is absent
      (`None`) or a value; it is never null, so the 400 branch is dead. An
      absent id leaves the filter empty, and the database returns its first
      job (the first row in table order here). */
  function JobDetailsAsWritten(jobs: seq<JobRow>, id: Option<Id>): (r: DetailsReply)
    ensures id.None? ==> (r.Details? <==> |jobs| > 0)
    ensures id.Some? ==> r == JobDetails(jobs, id)
  {
    match id
    case None => if |jobs| == 0 then DetailsFailed(404, JobNotFound) else Details(Select(jobs[0]))
    case Some(_) => JobDetails(jobs, id)
  }

  /** `/job-details` as evidently intended: a missing id is refused with
      400; otherwise the job with that id, whatever its status, or 404. */
  function JobDetails(jobs: seq<JobRow>, id: Option<Id>): (r: DetailsReply)
    ensures r.Details? <==> id.Some? && exists i :: 0 <= i < |jobs| && jobs[i].id == id.value
    ensures id.None? ==> r == DetailsFailed(400, JobIdRequired)
    ensures r.DetailsFailed? && id.Some? ==> r == DetailsFailed(404, JobNotFound)
    ensures r.Details? ==> exists job :: job in jobs && job.id == id.value && r.data == Select(job)
  {
    if id.None? then DetailsFailed(400, JobIdRequired)
    else match FindJob(jobs, id.value)
      case None => DetailsFailed(404, JobNotFound)
      case Some(job) => Details(Select(job))
  }

  /** The discrepancy: with no id, the handler as written answers with
      some job instead of refusing. */
  lemma MissingIdAnswersWithFirstJob(jobs: seq<JobRow>)
    requires |jobs| > 0
    ensures JobDetailsAsWritten(jobs, None) == Details(Select(jobs[0]))
    ensures JobDetails(jobs, None).DetailsFailed? && JobDetails(jobs, None).status == 400
  {
  }
}
