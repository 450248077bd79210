/** The read handlers of the backend: every listing is `ORDER BY id DESC`, which over
    tables kept in SERIAL order is the filtered table read backwards. */
module Queries {
  import opened Common
  import opened Seqs
  import opened Text
  import opened Tables

  /** `title ILIKE '%term%' OR company ILIKE '%term%'` (wildcards inside the term not modelled). */
  predicate SearchHit(j: Job, term: string)
  {
    ContainsIgnoringCase(j.title, term) || ContainsIgnoringCase(j.company, term)
  }

  /** `GET /api/jobs?search=term`: an empty term skips the WHERE clause. */
  function GetJobs(db: Db, term: string): (r: seq<Job>)
    ensures term == "" ==> |r| == |db.jobs|
    ensures forall i :: 0 <= i < |r| ==> r[i] in db.jobs && (term != "" ==> SearchHit(r[i], term))
  {
    if term == "" then Reverse(db.jobs) else Reverse(Filter(db.jobs, (j: Job) => SearchHit(j, term)))
  }

  /** `GET /api/recruiter/jobs/{email}`. */
  function GetRecruiterJobs(db: Db, email: string): (r: seq<Job>)
    ensures forall i :: 0 <= i < |r| ==> r[i] in db.jobs && r[i].recruiterEmail == email
  {
    Reverse(Filter(db.jobs, (j: Job) => j.recruiterEmail == email))
  }

  /** `GET /api/user/applications/{email}`. */
  function GetUserApplications(db: Db, email: string): (r: seq<Application>)
    ensures forall i :: 0 <= i < |r| ==> r[i] in db.apps && r[i].userEmail == email
  {
    Reverse(Filter(db.apps, (a: Application) => a.userEmail == email))
  }

  /** A row of the candidates query: the application joined with its job's referral bonus. */
  datatype CandidateRow = CandidateRow(app: Application, referralBonus: int)

  function RowAppId(row: CandidateRow): int { row.app.id }

  /** The application's job exists and was posted by `email`. */
  predicate OwnedBy(jobs: seq<Job>, jobId: int, email: string)
  {
    FindJob(jobs, jobId).Some? && FindJob(jobs, jobId).value.recruiterEmail == email
  }

  /** `applications JOIN jobs ON a.job_id = j.id WHERE j.recruiter_email = email`, in table order. */
  function JoinOwned(apps: seq<Application>, jobs: seq<Job>, email: string): (r: seq<CandidateRow>)
    ensures |r| <= |apps|
    ensures forall i :: 0 <= i < |r| ==>
      && r[i].app in apps
      && OwnedBy(jobs, r[i].app.jobId, email)
      && r[i].referralBonus == FindJob(jobs, r[i].app.jobId).value.referralBonus
    ensures forall i :: 0 <= i < |apps| && OwnedBy(jobs, apps[i].jobId, email) ==>
      CandidateRow(apps[i], FindJob(jobs, apps[i].jobId).value.referralBonus) in r
  {
    if |apps| == 0 then []
    else
      var rest := JoinOwned(apps[1..], jobs, email);
      assert apps == [apps[0]] + apps[1..];
      if OwnedBy(jobs, apps[0].jobId, email) then
        [CandidateRow(apps[0], FindJob(jobs, apps[0].jobId).value.referralBonus)] + rest
      else rest
  }

  /** `GET /api/recruiter/candidates/{email}`. */
  function GetCandidates(db: Db, email: string): (r: seq<CandidateRow>)
    ensures forall i :: 0 <= i < |r| ==> r[i].app in db.apps && OwnedBy(db.jobs, r[i].app.jobId, email)
  {
    Reverse(JoinOwned(db.apps, db.jobs, email))
  }

  /** An empty search term returns every job, newest first. */
  lemma EmptySearchListsAll(db: Db)
    ensures |GetJobs(db, "")| == |db.jobs|
    ensures multiset(GetJobs(db, "")) == multiset(db.jobs)
  {
  }

  /** The `if search:` shortcut agrees with what `ILIKE '%%'` would have returned. */
  lemma EmptySearchAgreesWithPattern(db: Db)
    ensures GetJobs(db, "") == Reverse(Filter(db.jobs, (j: Job) => SearchHit(j, "")))
  {
    var p := (j: Job) => SearchHit(j, "");
    forall i | 0 <= i < |db.jobs|
      ensures p(db.jobs[i])
    {
      EmptyOccursEverywhere(Lower(db.jobs[i].title));
    }
    FilterKeepsAll(db.jobs, p);
  }

  /** A non-empty term returns exactly the jobs whose title or company contains it, ignoring case. */
  lemma SearchReturnsExactlyHits(db: Db, term: string)
    requires term != ""
    ensures forall j :: j in GetJobs(db, term) ==> j in db.jobs && SearchHit(j, term)
    ensures forall i :: 0 <= i < |db.jobs| && SearchHit(db.jobs[i], term) ==> db.jobs[i] in GetJobs(db, term)
  {
    var hits := Filter(db.jobs, (j: Job) => SearchHit(j, term));
    assert multiset(GetJobs(db, term)) == multiset(hits);
    forall j | j in GetJobs(db, term)
      ensures j in db.jobs && SearchHit(j, term)
    {
      assert j in multiset(hits);
      var k :| 0 <= k < |hits| && hits[k] == j;
    }
    forall i | 0 <= i < |db.jobs| && SearchHit(db.jobs[i], term)
      ensures db.jobs[i] in GetJobs(db, term)
    {
      assert db.jobs[i] in hits;
      assert db.jobs[i] in multiset(GetJobs(db, term));
    }
  }

  /** Rows owned by `email` are exactly its jobs. */
  lemma RecruiterJobsExactlyOwned(db: Db, email: string)
    ensures forall j :: j in GetRecruiterJobs(db, email) <==> j in db.jobs && j.recruiterEmail == email
  {
    var owned := Filter(db.jobs, (j: Job) => j.recruiterEmail == email);
    assert multiset(GetRecruiterJobs(db, email)) == multiset(owned);
    forall j
      ensures j in GetRecruiterJobs(db, email) <==> j in db.jobs && j.recruiterEmail == email
    {
      if j in GetRecruiterJobs(db, email) {
        assert j in multiset(owned);
        var k :| 0 <= k < |owned| && owned[k] == j;
      }
      if j in db.jobs && j.recruiterEmail == email {
        var k :| 0 <= k < |db.jobs| && db.jobs[k] == j;
        assert j in owned;
        assert j in multiset(GetRecruiterJobs(db, email));
      }
    }
  }

  /** A user's listing holds exactly the applications filed under that user's email. */
  lemma UserApplicationsExactlyOwn(db: Db, email: string)
    ensures forall a :: a in GetUserApplications(db, email) <==> a in db.apps && a.userEmail == email
  {
    var mine := Filter(db.apps, (a: Application) => a.userEmail == email);
    assert multiset(GetUserApplications(db, email)) == multiset(mine);
    forall a
      ensures a in GetUserApplications(db, email) <==> a in db.apps && a.userEmail == email
    {
      if a in GetUserApplications(db, email) {
        assert a in multiset(mine);
        var k :| 0 <= k < |mine| && mine[k] == a;
      }
      if a in db.apps && a.userEmail == email {
        var k :| 0 <= k < |db.apps| && db.apps[k] == a;
        assert a in mine;
        assert a in multiset(GetUserApplications(db, email));
      }
    }
  }

  /** Ordering the joined rows by application id: the join walks the table in id order. */
  lemma {:induction false} JoinOwnedAscending(apps: seq<Application>, jobs: seq<Job>, email: string)
    requires Ascending(apps, AppId)
    ensures Ascending(JoinOwned(apps, jobs, email), RowAppId)
    decreases |apps|
  {
    if |apps| > 0 {
      AscendingTail(apps, AppId);
      JoinOwnedAscending(apps[1..], jobs, email);
      var rest := JoinOwned(apps[1..], jobs, email);
      if OwnedBy(jobs, apps[0].jobId, email) {
        var head := CandidateRow(apps[0], FindJob(jobs, apps[0].jobId).value.referralBonus);
        forall k | 0 <= k < |rest|
          ensures RowAppId(head) < RowAppId(rest[k])
        {
          var m :| 0 <= m < |apps[1..]| && apps[1..][m] == rest[k].app;
        }
        ConsAscending(head, rest, RowAppId);
      }
    }
  }

  /** Every listing comes back newest first: ids strictly decrease along it. */
  lemma ListingsNewestFirst(db: Db, term: string, email: string)
    requires Valid(db)
    ensures Descending(GetJobs(db, term), JobId)
    ensures Descending(GetRecruiterJobs(db, email), JobId)
    ensures Descending(GetUserApplications(db, email), AppId)
    ensures Descending(GetCandidates(db, email), RowAppId)
  {
    if term == "" {
      ReverseOfAscending(db.jobs, JobId);
    } else {
      var p := (j: Job) => SearchHit(j, term);
      FilterKeepsAscending(db.jobs, p, JobId);
      ReverseOfAscending(Filter(db.jobs, p), JobId);
    }
    var mine := (j: Job) => j.recruiterEmail == email;
    FilterKeepsAscending(db.jobs, mine, JobId);
    ReverseOfAscending(Filter(db.jobs, mine), JobId);
    var applied := (a: Application) => a.userEmail == email;
    FilterKeepsAscending(db.apps, applied, AppId);
    ReverseOfAscending(Filter(db.apps, applied), AppId);
    JoinOwnedAscending(db.apps, db.jobs, email);
    ReverseOfAscending(JoinOwned(db.apps, db.jobs, email), RowAppId);
  }
}
