/** The recruiter's candidate pipeline (frontend/app/recruiter-dashboard/applications/page.tsx):
    the optimistic status change, the status and AI-score styling, and the status selector. */
module PipelineView {
  import opened Seqs
  import opened Tables
  import Api
  import Queries
  import RecruiterDashboard

  /** The body of `PUT /api/applications/status`. */
  datatype StatusRequest = StatusRequest(id: int, status: string)

  /** `handleStatusChange`: the shown rows with the one whose id matches re-labelled, and the
      request sent to the server. Length, order and every other field stay as they were. */
  function ChangeStatus(rows: seq<Application>, id: int, status: string): (r: (seq<Application>, StatusRequest))
    ensures r.1 == StatusRequest(id, status)
    ensures |r.0| == |rows|
    ensures forall i :: 0 <= i < |rows| && rows[i].id != id ==> r.0[i] == rows[i]
    ensures forall i :: 0 <= i < |rows| && rows[i].id == id ==> r.0[i] == rows[i].(status := status)
  {
    (Restatus(rows, id, status), StatusRequest(id, status))
  }

  /** A row test that does not look at the status. */
  ghost predicate StatusBlind(p: Application -> bool)
  {
    forall a: Application, s: string :: p(a.(status := s)) == p(a)
  }

  lemma {:induction false} FilterRestatus(rows: seq<Application>, p: Application -> bool, id: int, status: string)
    requires StatusBlind(p)
    ensures Filter(Restatus(rows, id, status), p) == Restatus(Filter(rows, p), id, status)
    decreases |rows|
  {
    if |rows| > 0 {
      var a := rows[0];
      assert p(Restatus(rows, id, status)[0]) == p(a) by {
        assert Restatus(rows, id, status)[0] == (if a.id == id then a.(status := status) else a);
      }
      assert Restatus(rows, id, status)[1..] == Restatus(rows[1..], id, status);
      FilterRestatus(rows[1..], p, id, status);
      if p(a) {
        assert Filter(rows, p) == [a] + Filter(rows[1..], p);
        assert Restatus([a] + Filter(rows[1..], p), id, status)
            == Restatus([a], id, status) + Restatus(Filter(rows[1..], p), id, status);
      }
    }
  }

  lemma ReverseRestatus(rows: seq<Application>, id: int, status: string)
    ensures Reverse(Restatus(rows, id, status)) == Restatus(Reverse(rows), id, status)
  {
    var left := Reverse(Restatus(rows, id, status));
    var right := Restatus(Reverse(rows), id, status);
    forall i | 0 <= i < |rows|
      ensures left[i] == right[i]
    {
      var a := rows[|rows| - 1 - i];
      assert Reverse(rows)[i] == a;
      assert left[i] == Restatus(rows, id, status)[|rows| - 1 - i];
    }
  }

  /** The optimistic update shows what a refetch after the server's update would show: for any
      listing that selects rows without looking at their status and orders them newest first,
      re-labelling the old listing equals listing the updated table. */
  lemma OptimisticAgreesWithRefetch(db: Db, p: Application -> bool, id: int, status: string)
    requires StatusBlind(p)
    requires Storable(status)
    ensures ChangeStatus(Reverse(Filter(db.apps, p)), id, status).0
         == Reverse(Filter(Api.UpdateStatus(db, id, status).db.apps, p))
  {
    FilterRestatus(db.apps, p, id, status);
    ReverseRestatus(Filter(db.apps, p), id, status);
  }

  /** In particular for a candidate's own listing, `GET /api/user/applications/{email}`. */
  lemma OptimisticAgreesWithUserListing(db: Db, email: string, id: int, status: string)
    requires Storable(status)
    ensures ChangeStatus(Queries.GetUserApplications(db, email), id, status).0
         == Queries.GetUserApplications(Api.UpdateStatus(db, id, status).db, email)
  {
    OptimisticAgreesWithRefetch(db, (a: Application) => a.userEmail == email, id, status);
  }

  const HiredStyle := "bg-green-100 text-green-700 border-green-200"
  const RejectedStyle := "bg-red-50 text-red-600 border-red-200"
  const InterviewingStyle := "bg-blue-50 text-blue-600 border-blue-200"
  const ShortlistedStyle := "bg-purple-50 text-purple-600 border-purple-200"
  const DefaultStyle := "bg-slate-100 text-slate-600 border-slate-200"

  /** `getStatusStyle`: Hired, Rejected, Interviewing and Shortlisted each have a style of their
      own; every other string, `Received` included, gets the default. */
  function StatusStyle(status: string): (r: string)
    ensures r == HiredStyle <==> status == "Hired"
    ensures r == RejectedStyle <==> status == "Rejected"
    ensures r == InterviewingStyle <==> status == "Interviewing"
    ensures r == ShortlistedStyle <==> status == "Shortlisted"
    ensures r == DefaultStyle <==>
      status != "Hired" && status != "Rejected" && status != "Interviewing" && status != "Shortlisted"
  {
    match status
    case "Hired" => HiredStyle
    case "Rejected" => RejectedStyle
    case "Interviewing" => InterviewingStyle
    case "Shortlisted" => ShortlistedStyle
    case _ => DefaultStyle
  }

  /** A new application, filed as `Received`, is shown in the default style. */
  lemma ReceivedLooksDefault()
    ensures StatusStyle(Api.ReceivedStatus) == DefaultStyle
  {
  }

  /** The colour of the AI-screening badge. */
  datatype Band = HighMatch | MediumMatch | LowMatch

  function ScoreBand(score: int): (b: Band)
    ensures b == HighMatch <==> score >= 80
    ensures b == MediumMatch <==> 50 <= score < 80
    ensures b == LowMatch <==> score < 50
  {
    if score >= 80 then HighMatch else if score >= 50 then MediumMatch else LowMatch
  }

  /** Scores drawn by the apply handler (70 to 95) are never in the low band, and are high
      exactly from 80 up. */
  lemma AppliedScoresNeverLow(score: int)
    requires Api.MinAiScore <= score <= Api.MaxAiScore
    ensures ScoreBand(score) != LowMatch
    ensures ScoreBand(score) == HighMatch <==> score >= 80
  {
  }

  /** The selector's options, in their on-screen order. Any of them may be picked from any
      current status. */
  const StatusChoices: seq<string> := ["Received", "Shortlisted", "Interviewing", "Hired", "Rejected"]

  /** The pipeline and the recruiter dashboard's candidate tab offer the same five statuses,
      in different orders, and the filing status is one of them. */
  lemma SelectorsOfferSameStatuses()
    ensures multiset(StatusChoices) == multiset(RecruiterDashboard.CandidateStatusChoices)
    ensures StatusChoices != RecruiterDashboard.CandidateStatusChoices
    ensures Api.ReceivedStatus in StatusChoices
  {
    assert StatusChoices[1] != RecruiterDashboard.CandidateStatusChoices[1];
  }

  /** Every choice but Received has a style of its own, and no two choices share one. */
  lemma ChoiceStylesDistinct()
    ensures forall i, j :: 0 <= i < j < |StatusChoices| ==>
      StatusStyle(StatusChoices[i]) != StatusStyle(StatusChoices[j])
  {
  }

  /** A status picked from the selector can always be stored, so for the candidate's own listing
      the optimistic update and a refetch agree whichever option is picked. */
  lemma PickedStatusAgreesWithRefetch(db: Db, email: string, id: int, k: int)
    requires 0 <= k < |StatusChoices|
    ensures Storable(StatusChoices[k])
    ensures ChangeStatus(Queries.GetUserApplications(db, email), id, StatusChoices[k]).0
         == Queries.GetUserApplications(Api.UpdateStatus(db, id, StatusChoices[k]).db, email)
  {
    assert Storable(StatusChoices[k]) by {
      if k == 0 {
        assert StatusChoices[k] == "Received";
      } else if k == 1 {
        assert StatusChoices[k] == "Shortlisted";
      } else if k == 2 {
        assert StatusChoices[k] == "Interviewing";
      } else if k == 3 {
        assert StatusChoices[k] == "Hired";
      } else {
        assert StatusChoices[k] == "Rejected";
      }
    }
    OptimisticAgreesWithUserListing(db, email, id, StatusChoices[k]);
  }

  /** A candidate row with its application's status re-labelled when the id matches. */
  function RelabelRow(row: Queries.CandidateRow, id: int, status: string): Queries.CandidateRow
  {
    if row.app.id == id then row.(app := row.app.(status := status)) else row
  }

  /** The recruiter join does not look at status: joining the re-labelled table gives the old
      joined rows with the matching ones re-labelled, in the same order. */
  lemma {:induction false} JoinOwnedRestatus(apps: seq<Application>, jobs: seq<Job>, email: string, id: int, status: string)
    ensures var before := Queries.JoinOwned(apps, jobs, email);
      var after := Queries.JoinOwned(Restatus(apps, id, status), jobs, email);
      && |after| == |before|
      && forall i :: 0 <= i < |before| ==> after[i] == RelabelRow(before[i], id, status)
    decreases |apps|
  {
    if |apps| > 0 {
      var r := Restatus(apps, id, status);
      assert r[1..] == Restatus(apps[1..], id, status);
      JoinOwnedRestatus(apps[1..], jobs, email, id, status);
      var before := Queries.JoinOwned(apps, jobs, email);
      var after := Queries.JoinOwned(r, jobs, email);
      var restBefore := Queries.JoinOwned(apps[1..], jobs, email);
      var restAfter := Queries.JoinOwned(r[1..], jobs, email);
      assert r[0].jobId == apps[0].jobId;
      if Queries.OwnedBy(jobs, apps[0].jobId, email) {
        var bonus := FindJob(jobs, apps[0].jobId).value.referralBonus;
        assert before == [Queries.CandidateRow(apps[0], bonus)] + restBefore;
        assert after == [Queries.CandidateRow(r[0], bonus)] + restAfter;
        forall i | 0 <= i < |before|
          ensures after[i] == RelabelRow(before[i], id, status)
        {
          if i > 0 {
            assert after[i] == restAfter[i - 1] && before[i] == restBefore[i - 1];
          }
        }
      } else {
        assert before == restBefore;
        assert after == restAfter;
      }
    }
  }

  /** The candidates tab of the recruiter dashboard sends the status change and fetches the
      candidates again: what it then shows is the old listing with only the rows of that
      application re-labelled, in the same newest-first order. */
  lemma CandidatesRefetchRelabels(db: Db, email: string, id: int, status: string)
    requires Storable(status)
    ensures var before := Queries.GetCandidates(db, email);
      var after := Queries.GetCandidates(Api.UpdateStatus(db, id, status).db, email);
      && |after| == |before|
      && forall i :: 0 <= i < |before| ==> after[i] == RelabelRow(before[i], id, status)
  {
    var updated := Api.UpdateStatus(db, id, status).db;
    assert updated.apps == Restatus(db.apps, id, status);
    assert updated.jobs == db.jobs;
    JoinOwnedRestatus(db.apps, db.jobs, email, id, status);
  }
}
