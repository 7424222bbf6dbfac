/** `orderBy: { createdAt: "desc" }`: job rows newest first.

    The database does not fix the order of rows with equal `createdAt`; the
    model keeps such rows in table order (the sort is stable). */
module Ordering {
  import opened Store

  predicate NewestFirstOrder(s: seq<JobRow>)
  {
    forall i, j :: 0 <= i < j < |s| ==> s[i].createdAt >= s[j].createdAt
  }

  /** Place `job` into a list already newest first. */
  function InsertByDate(job: JobRow, s: seq<JobRow>): (r: seq<JobRow>)
    ensures |r| == |s| + 1
    ensures multiset(r) == multiset(s) + multiset{job}
  {
    if |s| == 0 then [job]
    else if job.createdAt >= s[0].createdAt then [job] + s
    else
      assert s == [s[0]] + s[1..];
      [s[0]] + InsertByDate(job, s[1..])
  }

  lemma {:induction false} InsertKeepsOrder(job: JobRow, s: seq<JobRow>)
    requires NewestFirstOrder(s)
    ensures NewestFirstOrder(InsertByDate(job, s))
    ensures |s| > 0 ==> InsertByDate(job, s)[0] == job || InsertByDate(job, s)[0] == s[0]
  {
    if |s| == 0 || job.createdAt >= s[0].createdAt {
    } else {
      InsertKeepsOrder(job, s[1..]);
      var rest := InsertByDate(job, s[1..]);
      assert InsertByDate(job, s) == [s[0]] + rest;
      if |s[1..]| > 0 {
        assert rest[0] == job || rest[0] == s[1];
      }
      forall k | 0 <= k < |rest|
        ensures s[0].createdAt >= rest[k].createdAt
      {
        assert rest[k] in multiset(rest);
        assert rest[k] in multiset(s[1..]) + multiset{job};
        if rest[k] != job {
          assert rest[k] in s[1..];
        }
      }
    }
  }

  /** The rows sorted newest first, ties in table order. */
  function NewestFirst(s: seq<JobRow>): (r: seq<JobRow>)
    ensures |r| == |s|
    ensures multiset(r) == multiset(s)
  {
    if |s| == 0 then []
    else
      assert s == [s[0]] + s[1..];
      InsertByDate(s[0], NewestFirst(s[1..]))
  }

  /** The sort's result is newest first, and holds the same rows. */
  lemma {:induction false} NewestFirstIsSorted(s: seq<JobRow>)
    ensures NewestFirstOrder(NewestFirst(s))
    ensures forall x :: x in NewestFirst(s) <==> x in s
  {
    if |s| > 0 {
      NewestFirstIsSorted(s[1..]);
      InsertKeepsOrder(s[0], NewestFirst(s[1..]));
    }
    forall x ensures x in NewestFirst(s) <==> x in s {
      assert x in NewestFirst(s) <==> x in multiset(NewestFirst(s));
      assert x in s <==> x in multiset(s);
    }
  }
}
