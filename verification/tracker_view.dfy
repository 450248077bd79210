/** The candidate's application tracker (frontend/app/user-dashboard/applications/page.tsx):
    when it loads, how a row is labelled and styled, and the empty-list notice. */
module TrackerView {
  import opened Common
  import opened Tables
  import Api
  import Queries
  import Ledger
  import PipelineView

  /** The tracker's state: the stored email (empty until one is read) and the fetched rows. */
  datatype Tracker = Tracker(userEmail: string, apps: seq<Application>)

  /** On mount: with a stored email (a non-empty `localStorage` value) the page keeps it and shows
      what the fetch returns; otherwise it keeps its initial state and sends nothing. */
  function Load(stored: Option<string>, fetched: seq<Application>): (t: Tracker)
    ensures Truthy(stored) ==> t == Tracker(stored.value, fetched)
    ensures !Truthy(stored) ==> t == Tracker("", [])
  {
    if Truthy(stored) then Tracker(stored.value, fetched) else Tracker("", [])
  }

  datatype RowKind = YouReferred | SelfApply

  /** `app.referrer_email === userEmail`: a row with no referrer is never "YOU REFERRED". */
  function KindOf(app: Application, viewer: string): (k: RowKind)
    ensures k == YouReferred <==> app.referrerEmail.Some? && app.referrerEmail.value == viewer
  {
    if app.referrerEmail == Some(viewer) then YouReferred else SelfApply
  }

  /** The tracker's own `getStatusStyle`: only Hired, Rejected and Interviewing are coloured. */
  function TrackerStyle(status: string): (r: string)
    ensures r == PipelineView.DefaultStyle <==>
      status != "Hired" && status != "Rejected" && status != "Interviewing"
  {
    match status
    case "Hired" => PipelineView.HiredStyle
    case "Rejected" => PipelineView.RejectedStyle
    case "Interviewing" => PipelineView.InterviewingStyle
    case _ => PipelineView.DefaultStyle
  }

  /** The tracker styles every status as the recruiter's pipeline does, except Shortlisted,
      which it leaves in the default style. */
  lemma TrackerStyleAgreesWithPipeline(status: string)
    ensures status != "Shortlisted" ==> TrackerStyle(status) == PipelineView.StatusStyle(status)
    ensures TrackerStyle("Shortlisted") == PipelineView.DefaultStyle
    ensures PipelineView.StatusStyle("Shortlisted") != PipelineView.DefaultStyle
  {
  }

  const EmptyNotice := "No records found."

  /** The notice under the table: shown exactly when there are no rows. */
  function Notice(t: Tracker): (n: Option<string>)
    ensures n.Some? <==> |t.apps| == 0
    ensures n.Some? ==> n.value == EmptyNotice
  {
    if |t.apps| == 0 then Some(EmptyNotice) else None
  }

  /** No application in the table names a referrer. */
  predicate NoReferrals(db: Db)
  {
    forall i :: 0 <= i < |db.apps| ==> db.apps[i].referrerEmail.None?
  }

  /** The only handler that inserts applications leaves `referrer_email` empty, and no handler
      writes it, so every request keeps the table free of referrals. */
  lemma StepKeepsNoReferrals(db: Db, op: Ledger.Op, hash: string -> string)
    requires Ledger.WellFormed(op) && NoReferrals(db)
    ensures NoReferrals(Ledger.Step(db, op, hash))
  {
  }

  lemma {:induction false} RunKeepsNoReferrals(db: Db, ops: seq<Ledger.Op>, hash: string -> string)
    requires forall i :: 0 <= i < |ops| ==> Ledger.WellFormed(ops[i])
    requires NoReferrals(db)
    ensures NoReferrals(Ledger.Run(db, ops, hash))
    decreases |ops|
  {
    if |ops| > 0 {
      StepKeepsNoReferrals(db, ops[0], hash);
      RunKeepsNoReferrals(Ledger.Step(db, ops[0], hash), ops[1..], hash);
    }
  }

  /** So on tables built only by these handlers, every row the tracker can show is labelled
      "SELF APPLY", whoever is viewing. */
  lemma EveryRowIsSelfApply(ops: seq<Ledger.Op>, hash: string -> string, viewer: string)
    requires forall i :: 0 <= i < |ops| ==> Ledger.WellFormed(ops[i])
    ensures forall a :: a in Ledger.Run(EmptyDb, ops, hash).apps ==> KindOf(a, viewer) == SelfApply
  {
    RunKeepsNoReferrals(EmptyDb, ops, hash);
  }

  /** Were the page handed the candidate's listing as `GET /api/user/applications/{email}` serves
      it, the empty-list notice would show exactly when no email is stored or the stored user has
      filed no application at all. */
  lemma NoticeIffNoApplications(db: Db, stored: Option<string>)
    ensures var fetched := if Truthy(stored) then Queries.GetUserApplications(db, stored.value) else [];
      Notice(Load(stored, fetched)).Some? <==>
        !Truthy(stored) || forall a :: a in db.apps ==> a.userEmail != stored.value
  {
    if Truthy(stored) {
      var rows := Queries.GetUserApplications(db, stored.value);
      Queries.UserApplicationsExactlyOwn(db, stored.value);
      if |rows| > 0 {
        assert rows[0] in rows;
      }
    }
  }
}
