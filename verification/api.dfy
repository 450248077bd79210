/** The write handlers of the FastAPI backend (backend/main.py) as pure state transitions:
    each takes the tables and the request and returns the reply and the new tables.
    bcrypt, PDF text extraction, the Gemini model and `random` are parameters. */
module Api {
  import opened Common
  import opened Seqs
  import opened Text
  import opened Tables

  /** A handler's reply together with the tables it leaves behind. */
  datatype Response<+T> = Response(reply: Result<T>, db: Db)

  const SignupTokens := 50
  const ResumeReward := 20
  const InterviewReward := 5
  const PremiumApplyCost := 6
  const ResumeTextLimit := 5000
  const PromptContextLimit := 500
  const MinAiScore := 70
  const MaxAiScore := 95
  const ReceivedStatus := "Received"
  const GeneralContext := "General Software Engineering"
  /** FastAPI's answer, with status 500, when a handler raises outside any `try`. */
  const ServerError := "Internal Server Error"

  /** Body of `POST /api/signup`. */
  datatype SignupForm = SignupForm(
    email: string, password: string, role: string, name: string, company: string, designation: string)

  /** Body of `POST /api/jobs` and `PUT /api/jobs/{id}`. */
  datatype JobPost = JobPost(
    title: string, company: string, location: string, salary: string, description: string,
    experience: string, skills: string, referralBonus: int, recruiterEmail: string)

  /** A multiple-choice interview question as the model is asked to return it. */
  datatype Question = Question(question: string, options: seq<string>, answer: string)

  /** The first `n` characters of `s` (Python `s[:n]`). */
  function Truncate(s: string, n: nat): (r: string)
    ensures |r| <= n && StartsWith(s, r)
    ensures |s| <= n ==> r == s
  {
    if |s| <= n then s else s[..n]
  }

  /** Whether the `INSERT INTO users` of a signup can be sent: passlib's bcrypt refuses a NUL in
      the password, and psycopg2 refuses a NUL in any value. */
  predicate SignupStorable(form: SignupForm, hash: string -> string)
  {
    && Storable(form.email) && Storable(form.password) && Storable(form.role) && Storable(form.name)
    && Storable(form.company) && Storable(form.designation) && Storable(hash(form.password))
  }

  /** `POST /api/signup`: a new user with 50 tokens. Whatever makes the insert raise (the UNIQUE
      key clashing, or a value that cannot be sent) is caught and answered "Email exists". */
  function Signup(db: Db, form: SignupForm, hash: string -> string): (r: Response<()>)
    ensures r.reply.Ok? <==> form.email !in db.users && SignupStorable(form, hash)
    ensures r.reply.Err? ==> r == Response(Err("Email exists"), db)
    ensures r.reply.Ok? ==>
      && r.db.users.Keys == db.users.Keys + {form.email}
      && r.db.users[form.email].email == form.email
      && r.db.users[form.email].tokens == SignupTokens
      && r.db.users[form.email].role == form.role
      && r.db.users[form.email].name == form.name
      && r.db.users[form.email].company == form.company
      && r.db.users[form.email].designation == form.designation
      && r.db.users[form.email].passwordHash == hash(form.password)
      && r.db.users[form.email].resumeText.None?
      && !r.db.users[form.email].phoneVerified
      && !r.db.users[form.email].emailVerified
      && (forall e :: e in db.users ==> r.db.users[e] == db.users[e])
      && r.db.(users := db.users) == db
    ensures Valid(db) ==> Valid(r.db)
  {
    if form.email in db.users || !SignupStorable(form, hash) then Response(Err("Email exists"), db)
    else
      var user := User(form.email, hash(form.password), form.role, form.name, SignupTokens,
                       form.company, form.designation, None, false, false);
      Response(Ok(()), db.(users := db.users[form.email := user]))
  }

  /** `POST /api/login`: the stored row when the password verifies against its hash. The `SELECT`
      raises on an email holding NUL, and bcrypt's check raises on a password holding NUL; it is
      only reached when the row exists. Neither is caught, so both answer 500. */
  function Login(db: Db, email: string, password: string, verify: (string, string) -> bool): (r: Result<User>)
    ensures r.Ok? <==>
      Storable(email) && email in db.users && Storable(password) && verify(password, db.users[email].passwordHash)
    ensures r.Ok? ==> r.value == db.users[email]
    ensures r.Err? && r.message != ServerError ==> r.message == "Invalid Credentials"
    ensures r == Err(ServerError) <==>
      !Storable(email) || (email in db.users && !Storable(password))
  {
    if !Storable(email) then Err(ServerError)
    else if email !in db.users then Err("Invalid Credentials")
    else if !Storable(password) then Err(ServerError)
    else if verify(password, db.users[email].passwordHash) then Ok(db.users[email])
    else Err("Invalid Credentials")
  }

  /** Whether `INSERT INTO jobs` can be sent and stored: no NUL in a text value, and the bonus
      within the `INTEGER` column. */
  predicate PostStorable(post: JobPost)
  {
    && Storable(post.title) && Storable(post.company) && Storable(post.location) && Storable(post.salary)
    && Storable(post.description) && Storable(post.experience) && Storable(post.skills)
    && Storable(post.recruiterEmail) && FitsInteger(post.referralBonus)
  }

  /** `POST /api/jobs`: a new row with the next SERIAL id, dated `today`. A value that cannot be
      stored makes the insert raise before a SERIAL value is drawn; nothing catches it (500). */
  function PostJob(db: Db, post: JobPost, today: string): (r: Response<()>)
    ensures r.reply.Ok? <==> PostStorable(post)
    ensures r.reply.Err? ==> r == Response(Err(ServerError), db)
    ensures r.db.users == db.users && r.db.apps == db.apps
    ensures r.reply.Ok? ==> |r.db.jobs| == |db.jobs| + 1 && r.db.jobs[..|db.jobs|] == db.jobs
    ensures r.reply.Ok? ==> var j := r.db.jobs[|db.jobs|];
      && j.id == db.nextJobId
      && j.title == post.title && j.company == post.company && j.location == post.location
      && j.salary == post.salary && j.description == post.description
      && j.experience == post.experience && j.skills == post.skills
      && j.referralBonus == post.referralBonus && j.recruiterEmail == post.recruiterEmail
      && j.postedDate == today
    ensures Valid(db) ==> Valid(r.db)
  {
    if !PostStorable(post) then Response(Err(ServerError), db)
    else
      var job := Job(db.nextJobId, post.title, post.company, post.location, post.salary, post.description,
                     post.experience, post.skills, post.referralBonus, post.recruiterEmail, today);
      var r := db.(jobs := db.jobs + [job], nextJobId := db.nextJobId + 1);
      assert Valid(db) ==> Valid(r) by {
        if Valid(db) {
          var s := r.jobs;
          forall i, k | 0 <= i < k < |s|
            ensures JobId(s[i]) < JobId(s[k])
          {
            if k < |db.jobs| {
              assert s[i] == db.jobs[i] && s[k] == db.jobs[k];
            } else {
              assert s[i] == db.jobs[i];
            }
          }
        }
      }
      Response(Ok(()), r)
  }

  /** One row of `UPDATE jobs SET title, location, salary, description, experience, skills,
      referral_bonus WHERE id = ...`: `company`, `recruiter_email` and `posted_date` are not in the SET list. */
  function EditRow(j: Job, id: int, post: JobPost): Job
  {
    if j.id == id then
      j.(title := post.title, location := post.location, salary := post.salary,
         description := post.description, experience := post.experience, skills := post.skills,
         referralBonus := post.referralBonus)
    else j
  }

  /** Whether the `UPDATE jobs` can be sent and stored: only the values in its SET list are sent. */
  predicate EditStorable(post: JobPost)
  {
    && Storable(post.title) && Storable(post.location) && Storable(post.salary)
    && Storable(post.description) && Storable(post.experience) && Storable(post.skills)
    && FitsInteger(post.referralBonus)
  }

  /** `PUT /api/jobs/{id}`; a value that cannot be stored makes the update raise (500). */
  function EditJob(db: Db, id: int, post: JobPost): (r: Response<()>)
    ensures r.reply.Ok? <==> EditStorable(post)
    ensures r.reply.Err? ==> r == Response(Err(ServerError), db)
    ensures r.db.(jobs := db.jobs) == db
    ensures |r.db.jobs| == |db.jobs|
    ensures forall i :: 0 <= i < |db.jobs| ==>
      && r.db.jobs[i].id == db.jobs[i].id
      && r.db.jobs[i].company == db.jobs[i].company
      && r.db.jobs[i].recruiterEmail == db.jobs[i].recruiterEmail
      && r.db.jobs[i].postedDate == db.jobs[i].postedDate
    ensures forall i :: 0 <= i < |db.jobs| && db.jobs[i].id != id ==> r.db.jobs[i] == db.jobs[i]
    ensures r.reply.Ok? ==> forall i :: 0 <= i < |db.jobs| && db.jobs[i].id == id ==>
      && r.db.jobs[i].title == post.title && r.db.jobs[i].location == post.location
      && r.db.jobs[i].salary == post.salary && r.db.jobs[i].description == post.description
      && r.db.jobs[i].experience == post.experience && r.db.jobs[i].skills == post.skills
      && r.db.jobs[i].referralBonus == post.referralBonus
    ensures Valid(db) ==> Valid(r.db)
  {
    if !EditStorable(post) then Response(Err(ServerError), db)
    else
      var jobs := seq(|db.jobs|, i requires 0 <= i < |db.jobs| => EditRow(db.jobs[i], id, post));
      var r := db.(jobs := jobs);
      assert Valid(db) ==> Valid(r) by {
        if Valid(db) {
          forall i, k | 0 <= i < k < |jobs|
            ensures JobId(jobs[i]) < JobId(jobs[k])
          {
            assert JobId(db.jobs[i]) < JobId(db.jobs[k]);
          }
          forall i | 0 <= i < |jobs|
            ensures 1 <= JobId(jobs[i]) < r.nextJobId
          {
            assert JobId(jobs[i]) == JobId(db.jobs[i]);
          }
        }
      }
      Response(Ok(()), r)
  }

  /** `DELETE FROM jobs WHERE id = ...`; applications to the job are kept (no cascade). */
  function DeleteJob(db: Db, id: int): (r: Db)
    ensures r.(jobs := db.jobs) == db
    ensures forall i :: 0 <= i < |r.jobs| ==> r.jobs[i] in db.jobs && r.jobs[i].id != id
    ensures forall i :: 0 <= i < |db.jobs| && db.jobs[i].id != id ==> db.jobs[i] in r.jobs
    ensures Valid(db) ==> Valid(r)
  {
    var keep := (j: Job) => j.id != id;
    var r := db.(jobs := Filter(db.jobs, keep));
    assert Valid(db) ==> Valid(r) by {
      if Valid(db) {
        FilterKeepsAscending(db.jobs, keep, JobId);
      }
    }
    r
  }

  /** `PUT /api/applications/status`: any NUL-free string is accepted and only rows with the id
      change; a status holding NUL makes the update raise (500). */
  function UpdateStatus(db: Db, id: int, status: string): (r: Response<()>)
    ensures r.reply.Ok? <==> Storable(status)
    ensures r.reply.Err? ==> r == Response(Err(ServerError), db)
    ensures r.db.(apps := db.apps) == db
    ensures |r.db.apps| == |db.apps|
    ensures r.reply.Ok? ==>
      forall i :: 0 <= i < |db.apps| && db.apps[i].id == id ==> r.db.apps[i] == db.apps[i].(status := status)
    ensures forall i :: 0 <= i < |db.apps| && db.apps[i].id != id ==> r.db.apps[i] == db.apps[i]
    ensures Valid(db) ==> Valid(r.db)
  {
    if !Storable(status) then Response(Err(ServerError), db)
    else
      var apps := Restatus(db.apps, id, status);
      var r := db.(apps := apps);
      assert Valid(db) ==> Valid(r) by {
        if Valid(db) {
          forall i, k | 0 <= i < k < |apps|
            ensures AppId(apps[i]) < AppId(apps[k])
          {
            assert AppId(db.apps[i]) < AppId(db.apps[k]);
          }
          forall i | 0 <= i < |apps|
            ensures 1 <= AppId(apps[i]) < r.nextAppId
          {
            assert AppId(apps[i]) == AppId(db.apps[i]);
          }
        }
      }
      Response(Ok(()), r)
  }

  /** Whether a user row exists for `email` only if its balance still fits the `INTEGER`
      column after `amount` is added. */
  predicate CreditFits(db: Db, email: string, amount: int)
  {
    email in db.users ==> FitsInteger(db.users[email].tokens + amount)
  }

  /** Whether an upload gets through the `try`: pypdf produced text, the stored prefix and the
      email can be sent, and the credited balance still fits. */
  predicate UploadAccepted(db: Db, email: string, extracted: Option<string>)
  {
    && extracted.Some?
    && Storable(Truncate(extracted.value, ResumeTextLimit))
    && Storable(email)
    && CreditFits(db, email, ResumeReward)
  }

  /** `POST /api/upload-resume`. `extracted` is the text pypdf pulled out of the upload, or None
      when reading the PDF raised. Every successful call adds 20 tokens: there is no once-only guard.
      An unknown email updates no row and still answers success. Anything that raises inside the
      `try` is answered "Failed". */
  function UploadResume(db: Db, email: string, extracted: Option<string>): (r: Response<()>)
    ensures r.reply.Ok? <==> UploadAccepted(db, email, extracted)
    ensures r.reply.Err? ==> r == Response(Err("Failed"), db)
    ensures r.db.(users := db.users) == db && r.db.users.Keys == db.users.Keys
    ensures r.reply.Ok? && email in db.users ==>
      && r.db.users[email].tokens == db.users[email].tokens + ResumeReward
      && r.db.users[email].resumeText == Some(Truncate(extracted.value, ResumeTextLimit))
      && r.db.users[email].(tokens := db.users[email].tokens, resumeText := db.users[email].resumeText) == db.users[email]
    ensures email !in db.users ==> r.db == db
    ensures forall e :: e in db.users && e != email ==> r.db.users[e] == db.users[e]
    ensures Valid(db) ==> Valid(r.db)
  {
    if !UploadAccepted(db, email, extracted) then Response(Err("Failed"), db)
    else if email in db.users then
      var u := db.users[email];
      var text := Truncate(extracted.value, ResumeTextLimit);
      var u' := u.(resumeText := Some(text), tokens := u.tokens + ResumeReward);
      Response(Ok(()), db.(users := db.users[email := u']))
    else Response(Ok(()), db)
  }

  /** `POST /api/interview/submit`: 5 tokens when the client reports a correct answer. Only then is
      a statement sent, and it raises (500) on an email holding NUL or a balance leaving `INTEGER`. */
  function SubmitInterview(db: Db, email: string, isCorrect: bool): (r: Response<string>)
    ensures !isCorrect ==> r == Response(Ok("Incorrect."), db)
    ensures isCorrect ==> (r.reply.Ok? <==> Storable(email) && CreditFits(db, email, InterviewReward))
    ensures isCorrect && r.reply.Ok? ==> r.reply.value == "Correct! +5 Credits"
    ensures r.reply.Err? ==> r == Response(Err(ServerError), db)
    ensures r.db.(users := db.users) == db && r.db.users.Keys == db.users.Keys
    ensures email in db.users ==>
      r.db.users[email].tokens == db.users[email].tokens + (if isCorrect && r.reply.Ok? then InterviewReward else 0)
    ensures email in db.users ==> r.db.users[email].(tokens := db.users[email].tokens) == db.users[email]
    ensures forall e :: e in db.users && e != email ==> r.db.users[e] == db.users[e]
    ensures Valid(db) ==> Valid(r.db)
  {
    if !isCorrect then Response(Ok("Incorrect."), db)
    else if !Storable(email) || !CreditFits(db, email, InterviewReward) then Response(Err(ServerError), db)
    else if email in db.users then
      var u := db.users[email];
      Response(Ok("Correct! +5 Credits"), db.(users := db.users[email := u.(tokens := u.tokens + InterviewReward)]))
    else Response(Ok("Correct! +5 Credits"), db)
  }

  /** The question returned when the model call or its JSON parsing fails. */
  const FallbackQuestion := Question("What is the complexity of Binary Search?",
                                     ["O(n)", "O(log n)", "O(1)", "O(n^2)"], "O(log n)")

  /** What the prompt is built from: the user's stored resume text when non-empty, else a general
      topic. The `SELECT` that reads it runs outside any `try`, so an email holding NUL answers 500. */
  function InterviewContext(db: Db, email: string): (c: Result<string>)
    ensures c.Err? <==> !Storable(email)
    ensures c.Err? ==> c.message == ServerError
    ensures c.Ok? && email in db.users && Truthy(db.users[email].resumeText) ==>
      c.value == db.users[email].resumeText.value
    ensures c.Ok? && !(email in db.users && Truthy(db.users[email].resumeText)) ==> c.value == GeneralContext
  {
    if !Storable(email) then Err(ServerError)
    else if email in db.users && Truthy(db.users[email].resumeText) then Ok(db.users[email].resumeText.value)
    else Ok(GeneralContext)
  }

  /** `POST /api/interview/generate`. `ask` stands for the model call plus `json.loads`,
      None meaning that either raised; it sees the first 500 characters of the context. */
  function GenerateInterview(db: Db, email: string, ask: string -> Option<Question>): (q: Result<Question>)
    ensures q.Err? <==> !Storable(email)
    ensures q.Err? ==> q.message == ServerError
    ensures q.Ok? && ask(Truncate(InterviewContext(db, email).value, PromptContextLimit)).None? ==>
      q.value == FallbackQuestion && q.value.answer in q.value.options
    ensures q.Ok? && ask(Truncate(InterviewContext(db, email).value, PromptContextLimit)).Some? ==>
      q.value == ask(Truncate(InterviewContext(db, email).value, PromptContextLimit)).value
  {
    match InterviewContext(db, email)
    case Err(m) => Err(m)
    case Ok(context) =>
      match ask(Truncate(context, PromptContextLimit))
      case Some(q) => Ok(q)
      case None => Ok(FallbackQuestion)
  }

  /** Python's `s[:n][:m]` with `m <= n` is `s[:m]`. */
  lemma TruncateTwice(s: string, n: nat, m: nat)
    requires m <= n
    ensures Truncate(Truncate(s, n), m) == Truncate(s, m)
  {
  }

  /** After a successful upload of non-empty text, the next interview is generated from the first
      500 characters of that text, or is the fallback question when the model call fails. */
  lemma InterviewSeesUploadedResume(db: Db, email: string, text: string, ask: string -> Option<Question>)
    requires email in db.users && text != ""
    requires UploadResume(db, email, Some(text)).reply.Ok?
    ensures var q := GenerateInterview(UploadResume(db, email, Some(text)).db, email, ask);
      && q.Ok?
      && (ask(Truncate(text, PromptContextLimit)).Some? ==> q.value == ask(Truncate(text, PromptContextLimit)).value)
      && (ask(Truncate(text, PromptContextLimit)).None? ==> q.value == FallbackQuestion)
  {
    var after := UploadResume(db, email, Some(text)).db;
    var stored := Truncate(text, ResumeTextLimit);
    assert |stored| > 0 by {
      if |text| > ResumeTextLimit {
        assert |stored| == ResumeTextLimit;
      }
    }
    assert InterviewContext(after, email) == Ok(stored);
    TruncateTwice(text, ResumeTextLimit, PromptContextLimit);
  }

  /** The price of applying: 6 tokens for a premium job (`referral_bonus > 0`), nothing otherwise. */
  function ApplyCost(job: Job): (c: int)
    ensures c == PremiumApplyCost || c == 0
    ensures c > 0 <==> job.referralBonus > 0
  {
    if job.referralBonus > 0 then PremiumApplyCost else 0
  }

  /** `POST /api/apply`. The job row and the user row must exist (the handler raises otherwise);
      `aiScore` is the value `random.randint(70, 95)` drew. The balance check comes first, then
      the debit, then the insert of a 'Received' row without a referrer. */
  function ApplyForJob(db: Db, email: string, jobId: int, aiScore: int, today: string): (r: Response<int>)
    requires FindJob(db.jobs, jobId).Some?
    requires email in db.users
    requires MinAiScore <= aiScore <= MaxAiScore
    ensures var job := FindJob(db.jobs, jobId).value;
      && (r.reply.Err? <==> db.users[email].tokens < ApplyCost(job))
      && (r.reply.Err? ==> r.reply.message == "Insufficient Credits" && r.db == db)
    ensures r.reply.Ok? ==>
      var job := FindJob(db.jobs, jobId).value;
      var before := db.users[email];
      && MinAiScore <= r.reply.value <= MaxAiScore
      && r.db.users.Keys == db.users.Keys
      && r.db.users[email].tokens == before.tokens - ApplyCost(job)
      && r.db.users[email].tokens >= 0
      && r.db.users[email].(tokens := before.tokens) == before
      && (forall e :: e in db.users && e != email ==> r.db.users[e] == db.users[e])
      && r.db.jobs == db.jobs
      && |r.db.apps| == |db.apps| + 1
      && r.db.apps[..|db.apps|] == db.apps
      && var a := r.db.apps[|db.apps|];
         && a.id == db.nextAppId
         && a.jobId == jobId && a.userEmail == email
         && a.status == ReceivedStatus
         && a.referrerEmail.None?
         && a.jobTitle == job.title && a.company == job.company
         && a.aiScore == r.reply.value
         && a.date == today
    ensures Valid(db) ==> Valid(r.db)
  {
    var job := FindJob(db.jobs, jobId).value;
    var cost := ApplyCost(job);
    var u := db.users[email];
    if u.tokens < cost then Response(Err("Insufficient Credits"), db)
    else
      var app := Application(db.nextAppId, jobId, email, None, job.title, job.company,
                             ReceivedStatus, today, aiScore);
      var r := db.(users := db.users[email := u.(tokens := u.tokens - cost)],
                   apps := db.apps + [app], nextAppId := db.nextAppId + 1);
      assert Valid(db) ==> Valid(r) by {
        if Valid(db) {
          var s := r.apps;
          forall i, k | 0 <= i < k < |s|
            ensures AppId(s[i]) < AppId(s[k])
          {
            if k < |db.apps| {
              assert s[i] == db.apps[i] && s[k] == db.apps[k];
            } else {
              assert s[i] == db.apps[i];
            }
          }
        }
      }
      Response(Ok(aiScore), r)
  }
}
