/** The candidate dashboard (frontend/app/user-dashboard/page.tsx): the apply precheck, the
    client-only profile award, the interview countdown and answer, and the skills tags. */
module SeekerDashboard {
  import opened Common
  import opened Text
  import opened Tables
  import Api

  const PhoneField := "Phone Number"
  const LinkedInField := "LinkedIn URL"
  const ProfileReward := 5
  const InterviewSeconds := 60

  /** The page's local state. `user` is the row `GET /api/user/{email}` returned;
      `profileField` is the open profile modal (`showProfileEdit`). */
  datatype Dashboard = Dashboard(
    user: User,
    selectedJob: Option<Job>,
    profileField: Option<string>,
    editValue: string,
    question: Option<Api.Question>,
    timer: int)

  /** Badged "Premium" and priced "Apply Now (6)" on the page. */
  predicate IsPremium(job: Job)
  {
    job.referralBonus > 0
  }

  /** What pressing Apply does before any request: nothing without a selected job, a toast
      for a premium job the balance cannot cover, otherwise the `POST /api/apply` form fields. */
  datatype ApplyAction = NoJob | RefusedLocally | SendApply(userEmail: string, jobId: int)

  function ApplyPrecheck(d: Dashboard): (a: ApplyAction)
    ensures a.NoJob? <==> d.selectedJob.None?
    ensures a.RefusedLocally? <==>
      d.selectedJob.Some? && IsPremium(d.selectedJob.value) && d.user.tokens < Api.PremiumApplyCost
    ensures a.SendApply? ==> a.userEmail == d.user.email && a.jobId == d.selectedJob.value.id
  {
    match d.selectedJob
    case None => NoJob
    case Some(job) =>
      if IsPremium(job) && d.user.tokens < Api.PremiumApplyCost then RefusedLocally
      else SendApply(d.user.email, job.id)
  }

  /** The client refuses exactly the applications the server would refuse, as long as the page
      holds the current user row and the current job row. */
  lemma PrecheckAgreesWithServer(db: Db, d: Dashboard, aiScore: int, today: string)
    requires Valid(db)
    requires d.user.email in db.users && d.user == db.users[d.user.email]
    requires d.selectedJob.Some? && FindJob(db.jobs, d.selectedJob.value.id) == d.selectedJob
    requires Api.MinAiScore <= aiScore <= Api.MaxAiScore
    ensures ApplyPrecheck(d).RefusedLocally? <==>
      Api.ApplyForJob(db, d.user.email, d.selectedJob.value.id, aiScore, today).reply.Err?
  {
  }

  /** After the apply reply: success closes the job modal, an error keeps it open. */
  function AfterApply(d: Dashboard, reply: Result<int>): (r: Dashboard)
    ensures reply.Ok? ==> r == d.(selectedJob := None)
    ensures reply.Err? ==> r == d
  {
    if reply.Ok? then d.(selectedJob := None) else d
  }

  /** With the page in step with the tables, the job modal closes after a press of Apply exactly
      when the precheck let the request through: the server then always accepts it. */
  lemma SentApplyClosesModal(db: Db, d: Dashboard, aiScore: int, today: string)
    requires Valid(db)
    requires d.user.email in db.users && d.user == db.users[d.user.email]
    requires d.selectedJob.Some? && FindJob(db.jobs, d.selectedJob.value.id) == d.selectedJob
    requires Api.MinAiScore <= aiScore <= Api.MaxAiScore
    ensures var r := Api.ApplyForJob(db, d.user.email, d.selectedJob.value.id, aiScore, today);
      AfterApply(d, r.reply).selectedJob.None? <==> ApplyPrecheck(d).SendApply?
  {
    PrecheckAgreesWithServer(db, d, aiScore, today);
  }

  /** `handleUpdateProfile`: an empty value does nothing; otherwise +5 tokens in local state only,
      the phone flag for "Phone Number", the email flag for "LinkedIn URL", and the modal closes. */
  function SaveProfile(d: Dashboard): (r: Dashboard)
    ensures d.editValue == "" ==> r == d
    ensures d.editValue != "" ==>
      && r.user.tokens == d.user.tokens + ProfileReward
      && r.user.phoneVerified == (d.user.phoneVerified || d.profileField == Some(PhoneField))
      && r.user.emailVerified == (d.user.emailVerified || d.profileField == Some(LinkedInField))
      && r.user.(tokens := d.user.tokens, phoneVerified := d.user.phoneVerified,
                 emailVerified := d.user.emailVerified) == d.user
      && r.profileField.None? && r.editValue == ""
      && r.(user := d.user, profileField := d.profileField, editValue := d.editValue) == d
  {
    if d.editValue == "" then d
    else
      var u := d.user.(tokens := d.user.tokens + ProfileReward);
      var u' :=
        if d.profileField == Some(PhoneField) then u.(phoneVerified := true)
        else if d.profileField == Some(LinkedInField) then u.(emailVerified := true)
        else u;
      d.(user := u', profileField := None, editValue := "")
  }

  /** Which "+5" / "+20" earn controls the sidebar shows. */
  datatype EarnOffers = EarnOffers(phone: bool, linkedIn: bool, resume: bool)

  function Offers(u: User): (o: EarnOffers)
    ensures o.phone <==> !u.phoneVerified
    ensures o.linkedIn <==> !u.emailVerified
    ensures o.resume <==> !Truthy(u.resumeText)
  {
    EarnOffers(!u.phoneVerified, !u.emailVerified, !Truthy(u.resumeText))
  }

  /** Saving a phone number withdraws the phone offer and leaves the others as they were. */
  lemma SavingPhoneWithdrawsItsOffer(d: Dashboard)
    requires d.editValue != "" && d.profileField == Some(PhoneField)
    ensures !Offers(SaveProfile(d).user).phone
    ensures Offers(SaveProfile(d).user).linkedIn == Offers(d.user).linkedIn
    ensures Offers(SaveProfile(d).user).resume == Offers(d.user).resume
  {
  }

  /** A resume upload with non-empty extracted text withdraws the resume offer once the user row
      is fetched again; one whose text came out empty stores "" (falsy), so the offer stays and the
      next upload earns another 20 tokens. */
  lemma ResumeOfferAfterUpload(db: Db, email: string, text: string)
    requires email in db.users
    ensures var r := Api.UploadResume(db, email, Some(text));
      r.reply.Ok? ==>
      && r.db.users[email].tokens == db.users[email].tokens + Api.ResumeReward
      && (Offers(r.db.users[email]).resume <==> text == "")
  {
    var t := Api.Truncate(text, Api.ResumeTextLimit);
    assert |text| > 0 ==> |t| > 0 by {
      if |text| > 0 && |text| > Api.ResumeTextLimit {
        assert |t| == Api.ResumeTextLimit;
      }
    }
  }

  /** One second of the countdown effect: it only runs while a question is shown and time is left. */
  function Tick(d: Dashboard): (r: Dashboard)
    ensures r.(timer := d.timer) == d
    ensures d.timer >= 0 ==> r.timer >= 0
    ensures d.question.None? || d.timer <= 0 ==> r == d
    ensures d.question.Some? && d.timer > 0 ==> r.timer == d.timer - 1
  {
    if d.question.Some? && d.timer > 0 then d.(timer := d.timer - 1) else d
  }

  function Ticks(d: Dashboard, n: nat): Dashboard
    decreases n
  {
    if n == 0 then d else Ticks(Tick(d), n - 1)
  }

  /** After `n` seconds with a question shown the timer reads `max(0, start - n)`: it stops at 0,
      and reaching 0 changes nothing else (no forfeit, the question stays answerable). */
  lemma {:induction false} CountdownClampsAtZero(d: Dashboard, n: nat)
    requires d.question.Some? && d.timer >= 0
    ensures Ticks(d, n).timer == (if d.timer >= n then d.timer - n else 0)
    ensures Ticks(d, n).(timer := d.timer) == d
    decreases n
  {
    if n > 0 {
      CountdownClampsAtZero(Tick(d), n - 1);
    }
  }

  /** Once an interview starts, the clock reads `max(0, 60 - n)` after `n` seconds and the
      generated question stays on screen. */
  lemma InterviewCountdown(d: Dashboard, generated: Api.Question, n: nat)
    requires Truthy(d.user.resumeText)
    ensures Ticks(StartInterview(d, generated), n).timer ==
      (if n <= InterviewSeconds then InterviewSeconds - n else 0)
    ensures Ticks(StartInterview(d, generated), n).question == Some(generated)
  {
    CountdownClampsAtZero(StartInterview(d, generated), n);
  }

  /** `startInterview`: refused without resume text; otherwise the generated question is shown
      and the timer restarts at 60. */
  function StartInterview(d: Dashboard, generated: Api.Question): (r: Dashboard)
    ensures !Truthy(d.user.resumeText) ==> r == d
    ensures Truthy(d.user.resumeText) ==>
      r == d.(question := Some(generated), timer := InterviewSeconds)
  {
    if !Truthy(d.user.resumeText) then d else d.(question := Some(generated), timer := InterviewSeconds)
  }

  /** The outcome of picking an option: the new state and the `is_correct` flag sent to the server. */
  datatype Answered = Answered(after: Dashboard, isCorrect: bool)

  /** `submitAnswer`: correct iff the option is the question's `answer` string, whatever the timer
      shows; the question is cleared. */
  function SubmitAnswer(d: Dashboard, option: string): (r: Answered)
    requires d.question.Some?
    ensures r.isCorrect <==> option == d.question.value.answer
    ensures r.after == d.(question := None)
  {
    Answered(d.(question := None), option == d.question.value.answer)
  }

  /** Answering and reporting it to `POST /api/interview/submit` adds 5 tokens iff the option was
      right, unless the balance is already so close to the `INTEGER` limit that 5 more overflow. */
  lemma AnswerEarnsIffCorrect(db: Db, d: Dashboard, option: string)
    requires Valid(db)
    requires d.question.Some? && d.user.email in db.users
    ensures var sent := SubmitAnswer(d, option).isCorrect;
      var after := Api.SubmitInterview(db, d.user.email, sent).db;
      var before := db.users[d.user.email].tokens;
      after.users[d.user.email].tokens ==
        before + (if option == d.question.value.answer && before + Api.InterviewReward <= IntegerMax
                  then Api.InterviewReward else 0)
  {
  }

  /** The requirement tags under a job's description: `skills.split(',')`. */
  function SkillTags(job: Job): (tags: seq<string>)
    ensures |tags| >= 1
    ensures forall i :: 0 <= i < |tags| ==> ',' !in tags[i]
  {
    Split(job.skills, ',')
  }

  /** The tags are the skills string cut at its commas: joined back they give the string. */
  lemma SkillTagsRoundTrip(job: Job)
    ensures Join(SkillTags(job), ',') == job.skills
  {
    JoinSplit(job.skills, ',');
  }
}
