/** The recruiter dashboard (frontend/app/recruiter-dashboard/page.tsx): location autocomplete
    over a fixed city list, the job form, its submit (create or edit) and `startEdit`. */
module RecruiterDashboard {
  import opened Common
  import opened Seqs
  import opened Text
  import opened Tables
  import Api

  const IndianCities: seq<string> :=
    ["Bangalore", "Hyderabad", "Mumbai", "Pune", "Delhi NCR", "Chennai", "Gurgaon", "Noida", "Remote"]

  /** `jobForm`. */
  datatype JobForm = JobForm(
    title: string, company: string, location: string, salary: string, description: string,
    experience: string, skills: string, referralBonus: int)

  const BlankForm := JobForm("", "", "", "", "", "", "", 0)

  datatype Tab = ManageTab | PostTab | CandidatesTab

  /** The part of the page's state the job form uses; `editing` is `isEditing`. */
  datatype Composer = Composer(
    tab: Tab, form: JobForm, editing: Option<int>, suggestions: seq<string>, successModal: bool)

  /** The test a city must pass to be offered for `input`. */
  function CityMatches(input: string): string -> bool
  {
    (c: string) => ContainsIgnoringCase(c, input)
  }

  /** The cities offered for a typed location: none for an empty input, otherwise those whose
      lower-cased name contains the lower-cased input, in list order. */
  function Suggestions(input: string): (r: seq<string>)
    ensures input == "" ==> r == []
    ensures input != "" ==> forall i :: 0 <= i < |r| ==> r[i] in IndianCities && ContainsIgnoringCase(r[i], input)
    ensures input != "" ==> forall i :: 0 <= i < |IndianCities| && ContainsIgnoringCase(IndianCities[i], input) ==>
      IndianCities[i] in r
  {
    if |input| > 0 then Filter(IndianCities, CityMatches(input)) else []
  }

  /** The suggestions keep the order of the city list. */
  lemma SuggestionsKeepListOrder(input: string)
    ensures SubsequenceOf(Suggestions(input), IndianCities)
  {
    if |input| > 0 {
      FilterIsSubsequence(IndianCities, CityMatches(input));
    }
  }

  /** `handleLocationChange`: only the form's location changes, and the suggestions follow the input. */
  function ChangeLocation(c: Composer, input: string): (r: Composer)
    ensures r.form == c.form.(location := input)
    ensures r.suggestions == Suggestions(input)
    ensures r.(form := c.form, suggestions := c.suggestions) == c
  {
    c.(form := c.form.(location := input), suggestions := Suggestions(input))
  }

  /** Clicking a suggestion fills the location with that city and closes the list. */
  function PickSuggestion(c: Composer, city: string): (r: Composer)
    ensures r.form.location == city && r.suggestions == []
    ensures r.form.(location := c.form.location) == c.form
    ensures r.(form := c.form, suggestions := c.suggestions) == c
  {
    c.(form := c.form.(location := city), suggestions := [])
  }

  /** The request `handlePostJob` sends: POST `/api/jobs` or PUT `/api/jobs/{id}`. */
  datatype JobRequest = CreateJob(post: Api.JobPost) | UpdateJob(id: int, post: Api.JobPost)

  function Method(req: JobRequest): string
  {
    if req.CreateJob? then "POST" else "PUT"
  }

  /** The request and the page state after a submit. */
  datatype Submitted = Submitted(request: JobRequest, after: Composer)

  /** `handlePostJob`. `isEditing ?` is JavaScript truthiness, so an id of 0 would post instead of put.
      The body is the form with the recruiter's email and company written over it. */
  function SubmitForm(c: Composer, recruiter: User): (r: Submitted)
    ensures r.request.UpdateJob? <==> c.editing.Some? && c.editing.value != 0
    ensures r.request.UpdateJob? ==> r.request.id == c.editing.value
    ensures Method(r.request) == "PUT" <==> r.request.UpdateJob?
    ensures var b := r.request.post;
      && b.title == c.form.title && b.location == c.form.location && b.salary == c.form.salary
      && b.description == c.form.description && b.experience == c.form.experience
      && b.skills == c.form.skills && b.referralBonus == c.form.referralBonus
      && b.recruiterEmail == recruiter.email && b.company == recruiter.company
    ensures r.after == c.(form := BlankForm, editing := None, successModal := true)
  {
    var body := Api.JobPost(c.form.title, recruiter.company, c.form.location, c.form.salary,
                            c.form.description, c.form.experience, c.form.skills,
                            c.form.referralBonus, recruiter.email);
    var req := if c.editing.Some? && c.editing.value != 0 then UpdateJob(c.editing.value, body) else CreateJob(body);
    Submitted(req, c.(form := BlankForm, editing := None, successModal := true))
  }

  /** What the backend does with the request. */
  function Dispatch(db: Db, req: JobRequest, today: string): Api.Response<()>
  {
    match req
    case CreateJob(post) => Api.PostJob(db, post, today)
    case UpdateJob(id, post) => Api.EditJob(db, id, post)
  }

  /** `startEdit`: the job's fields fill the form and the job's id is being edited. */
  function StartEdit(c: Composer, job: Job): (r: Composer)
    ensures r.editing == Some(job.id) && r.tab == PostTab
    ensures r.form.title == job.title && r.form.company == job.company && r.form.location == job.location
    ensures r.form.salary == job.salary && r.form.description == job.description
    ensures r.form.experience == job.experience && r.form.skills == job.skills
    ensures r.form.referralBonus == job.referralBonus
    ensures r.suggestions == c.suggestions && r.successModal == c.successModal
  {
    c.(tab := PostTab, editing := Some(job.id),
       form := JobForm(job.title, job.company, job.location, job.salary, job.description,
                       job.experience, job.skills, job.referralBonus))
  }

  /** The "Post Job" tab button clears any edit in progress. */
  function OpenPostTab(c: Composer): (r: Composer)
    ensures r.tab == PostTab && r.editing.None? && r.form == BlankForm
    ensures r.suggestions == c.suggestions && r.successModal == c.successModal
  {
    c.(tab := PostTab, editing := None, form := BlankForm)
  }

  /** The "Post Job" tab always leads to a create, and it discards an edit in progress entirely. */
  lemma PostTabCreates(c: Composer, job: Job, recruiter: User)
    ensures SubmitForm(OpenPostTab(c), recruiter).request.CreateJob?
    ensures SubmitForm(OpenPostTab(c), recruiter).request.post.title == ""
    ensures OpenPostTab(StartEdit(c, job)) == OpenPostTab(c)
  {
  }

  /** A city picked from the list offered for what was typed is a listed city matching the input,
      and it is the location the next submit sends. */
  lemma PickedCityIsListed(c: Composer, input: string, k: int, recruiter: User)
    requires 0 <= k < |Suggestions(input)|
    ensures var city := Suggestions(input)[k];
      var picked := PickSuggestion(ChangeLocation(c, input), city);
      && city in IndianCities
      && ContainsIgnoringCase(city, input)
      && picked.suggestions == []
      && SubmitForm(picked, recruiter).request.post.location == city
  {
  }

  /** A new posting carries the recruiter's own email and company, whatever the form held;
      it is stored exactly when every value it sends can be stored. */
  lemma CreatedJobBelongsToRecruiter(db: Db, c: Composer, recruiter: User, today: string)
    requires !(c.editing.Some? && c.editing.value != 0)
    ensures var r := Dispatch(db, SubmitForm(c, recruiter).request, today);
      r.reply.Ok? <==> Api.PostStorable(SubmitForm(c, recruiter).request.post)
    ensures var r := Dispatch(db, SubmitForm(c, recruiter).request, today);
      var after := r.db;
      r.reply.Ok? ==>
      && |after.jobs| == |db.jobs| + 1
      && after.jobs[|db.jobs|].recruiterEmail == recruiter.email
      && after.jobs[|db.jobs|].company == recruiter.company
      && after.jobs[|db.jobs|].title == c.form.title
  {
  }

  /** Opening a listed job for edit and saving it untouched sends a PUT that leaves the tables as they were. */
  lemma UntouchedEditIsNoOp(db: Db, c: Composer, k: int, recruiter: User, today: string)
    requires Valid(db) && 0 <= k < |db.jobs|
    ensures SubmitForm(StartEdit(c, db.jobs[k]), recruiter).request.UpdateJob?
    ensures Dispatch(db, SubmitForm(StartEdit(c, db.jobs[k]), recruiter).request, today).db == db
  {
    var job := db.jobs[k];
    assert JobId(job) >= 1;
    var post := SubmitForm(StartEdit(c, job), recruiter).request.post;
    var after := Api.EditJob(db, job.id, post).db;
    forall i | 0 <= i < |db.jobs|
      ensures after.jobs[i] == db.jobs[i]
    {
      if db.jobs[i].id == job.id {
        JobIdsUnique(db, i, k);
      }
    }
    assert after.jobs == db.jobs;
  }

  /** The status choices the candidates table offers (a second copy lives on the pipeline page). */
  const CandidateStatusChoices: seq<string> := ["Received", "Interviewing", "Shortlisted", "Hired", "Rejected"]
}
