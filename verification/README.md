# SkillBit job board: a Dafny model of the token economy and application rules

SkillBit is a job board with a FastAPI backend over three Postgres tables (`users`, `jobs`,
`applications`) and a Next.js front end. Candidates earn tokens by uploading a resume and by
answering interview questions, and they spend 6 tokens to apply to a premium job (one with a
referral bonus). Recruiters post and edit jobs and move applications through a status selector.

This project models that core as pure state transitions over immutable tables:

- `common.dfy`: `Option`, `Result`, and JavaScript truthiness of a stored string (`null` and `""` are falsy).
- `seqs.dfy`: filtering and reversing sequences, with order lemmas (subsequence, ascending and descending keys).
- `text.dfy`: ASCII lower-casing, substring search, comma splitting and joining, with the split/join round trips.
- `tables.dfy`: the three tables as datatypes, and the `Valid` invariant:
  - users are keyed by their email, which holds no NUL character;
  - every balance lies between 0 and the largest 32-bit `INTEGER`;
  - ids behave like SERIAL ids.
- `api.dfy`: the backend handlers. Each is a function from the tables to a reply and new tables.
- `queries.dfy`: the read handlers. `ORDER BY id DESC` is the filtered table read backwards.
- `ledger.dfy`: any sequence of requests. Balances stay non-negative, and each balance is its start plus a per-request amount.
- `landing.dfy`: the login/signup page.
- `seeker_dashboard.dfy`: the candidate dashboard (apply precheck, profile award, countdown, interview answer, skill tags).
- `recruiter_dashboard.dfy` and `city_search.dfy`: the recruiter dashboard (location autocomplete, job form, submit, edit).
- `quiz.dfy`: the quiz page (payment wall, scoring at most once, option highlighting).
- `pipeline_view.dfy`: the recruiter's candidate pipeline (optimistic status change, status styles, AI-score band).
- `tracker_view.dfy`: the candidate's application tracker (row labels, styles, empty notice).

Collaborators the model cannot see become parameters:

- `hash` and `verify` stand for bcrypt.
- `extracted` is what pypdf read from an upload, or `None` when reading raised.
- `ask` stands for the Gemini call plus its JSON parsing.
- `aiScore` is the `randint(70, 95)` draw, constrained to that range.
- `today` is the date stamp.

`apply_for_job` raises when the job or the user row is missing, so the handler requires both.
`Ledger.Step` treats such a request as a rolled-back transaction that changes nothing.

Two storage limits make a statement raise, and the model follows each handler's reaction:

- psycopg2 refuses to send a string holding a NUL character, and passlib's bcrypt refuses a NUL in a password.
- `tokens` and `referral_bonus` are 32-bit `INTEGER` columns, so a value beyond that range fails with "integer out of range".

Inside signup's `try` any such failure answers "Email exists", and inside the upload's `try` it answers "Failed".
In the other handlers nothing catches it, so FastAPI answers 500 ("Internal Server Error").
In every case the tables are left as they were.

Where the product's stated rules and the code differ, the model follows the code. The code has:

- no restricted status-transition graph (any string is accepted as a status);
- no rejection of duplicate applications;
- no forfeit when the interview timer reaches zero;
- no once-only resume award (every successful upload adds 20 tokens).

The application tracker page fetches `/api/applications/{email}`. The backend serves the
candidate's applications at `/api/user/applications/{email}` and has no route at the former
path. The tracker is modelled with whatever list it receives.

## Model

| member | source | states |
|---|---|---|
| Tables.FindJob | backend/main.py:217-218 | the job looked up is a row carrying the requested id; none is found only when no row has that id |
| Tables.EmptyDbIsValid | backend/main.py:46-58 | freshly created tables (no rows, SERIAL counters at 1) satisfy the table invariant |
| Tables.JobIdsUnique | backend/main.py:51-54 | under SERIAL ids no two job rows share an id |
| Tables.Restatus | backend/main.py:160 | setting a status changes exactly the rows with that id, only in their status; length and order are kept |
| Api.Truncate | backend/main.py:176 | Python's `s[:n]`: a prefix of at most n characters, the whole string when it is short enough |
| Api.Signup | backend/main.py:80-91 | success iff the email is new and every value can be stored; then exactly one new row, keyed by the email, with 50 tokens, the hashed password and the given role, name, company and designation, no resume and unverified flags, and no other row changes; any failure answers "Email exists" and changes nothing; the table invariant is kept |
| Api.Login | backend/main.py:93-101 | success iff the email has a row whose hash verifies the password, and the row is returned; an email holding NUL, or a NUL password against an existing row, raises (500); every other failure is "Invalid Credentials" |
| Api.PostJob | backend/main.py:111-120 | success iff every text value is NUL-free and the bonus fits `INTEGER`, otherwise 500 with no change; on success exactly one row is appended, with the next SERIAL id, every posted field and today's date; users and applications are untouched; the invariant is kept |
| Api.EditJob | backend/main.py:122-130 | success iff the values in the SET list can be stored, otherwise 500 with no change; only the row with the id changes, in title, location, salary, description, experience, skills and referral bonus; no row's id, company, recruiter email or posted date ever changes |
| Api.DeleteJob | backend/main.py:132-138 | exactly the rows with other ids survive; applications to the deleted job are kept |
| Api.UpdateStatus | backend/main.py:156-162 | any NUL-free string becomes the status of exactly the rows with the id, otherwise 500 with no change; every other row and table is unchanged |
| Api.UploadResume | backend/main.py:172-182 | success iff the PDF was read, the stored prefix and the email are NUL-free and the balance stays within `INTEGER` after +20; any failure answers "Failed" and changes nothing; on success +20 tokens and the first 5000 characters are stored on every call, and an unknown email changes nothing |
| Api.SubmitInterview | backend/main.py:202-211 | an incorrect report changes nothing; a correct one adds 5 tokens with the matching message, unless the email holds NUL or the balance would leave `INTEGER`, which answers 500 and changes nothing |
| Api.InterviewContext | backend/main.py:186-191 | an email holding NUL makes the `SELECT` raise (500); otherwise the prompt context is the stored resume text when it is non-empty, else the general topic |
| Api.GenerateInterview | backend/main.py:184-200 | 500 exactly when the email holds NUL; otherwise the model's question when the call and parse succeed on the first 500 context characters, else the fixed binary-search question, whose answer is among its options |
| Api.TruncateTwice | backend/main.py:176-194 | cutting to 5000 characters and then to 500 is cutting to 500 |
| Api.InterviewSeesUploadedResume | backend/main.py:176-200 | after a successful upload of non-empty text, the next question is the model's answer to the first 500 characters of that text, or the fallback when the call fails |
| Api.ApplyCost | backend/main.py:220 | the cost is 6 when the job's referral bonus is positive and 0 otherwise |
| Api.ApplyForJob | backend/main.py:213-233 | refused with "Insufficient Credits" and no change iff tokens < cost; otherwise tokens drop by exactly the cost and stay non-negative, and exactly one 'Received' row is appended with no referrer, the job's title and company, and a score in 70..95 |
| Queries.EmptySearchListsAll | backend/main.py:239-244 | an empty search term lists every job |
| Queries.EmptySearchAgreesWithPattern | backend/main.py:239-244 | skipping the WHERE clause for an empty term gives what matching `'%%'` would give |
| Queries.SearchReturnsExactlyHits | backend/main.py:240-242 | a non-empty term lists exactly the jobs whose title or company contains it, ignoring case |
| Queries.RecruiterJobsExactlyOwned | backend/main.py:140-145 | the recruiter listing holds exactly the jobs posted under that email |
| Queries.UserApplicationsExactlyOwn | backend/main.py:165-170 | the candidate listing holds exactly the applications filed under that email |
| Queries.GetJobs | backend/main.py:235-245 | an empty term lists as many rows as the table holds; every listed row is a stored job, and one matching a non-empty term |
| Queries.GetRecruiterJobs | backend/main.py:140-145 | every listed row is a stored job posted under the email |
| Queries.GetUserApplications | backend/main.py:165-170 | every listed row is a stored application filed under the email |
| Queries.JoinOwned | backend/main.py:151-153 | the join yields exactly the applications whose job exists and belongs to the recruiter, each with that job's referral bonus |
| Queries.GetCandidates | backend/main.py:147-154 | every listed row is a stored application to an existing job of the recruiter |
| Queries.ListingsNewestFirst | backend/main.py:140-245 | every listing (job search, recruiter jobs, candidate applications, candidates) is in strictly decreasing id order |
| Ledger.TokenDelta | backend/main.py:80-233 | a request moves a balance by one of 0, +50, +20, +5 or -6 only |
| Ledger.StepKeepsValid | backend/main.py:80-233 | every handler keeps the table invariant, so no balance goes negative |
| Ledger.StepMovesBalance | backend/main.py:80-233 | each request moves any email's balance (0 without a row) by exactly its ledger amount and never removes a user |
| Ledger.RunKeepsValid | backend/main.py:80-233 | any sequence of requests keeps the invariant and every balance non-negative |
| Ledger.TokensNeverNegative | backend/main.py:46-233 | from freshly created tables, no balance is ever negative |
| Ledger.BalanceIsFoldOfDeltas | backend/main.py:80-233 | after any run, any email's balance (0 without a row) is the starting balance plus the sum of the per-request amounts |
| Ledger.FreshBalanceIsFold | backend/main.py:46-233 | from freshly created tables, every balance is exactly the signup grant plus rewards minus premium application costs along the run |
| Landing.Endpoint | frontend/app/page.tsx:20 | the submit goes to `/api/login` iff the mode is login, else `/api/signup` |
| Landing.RoleName | frontend/app/page.tsx:24 | the role sent is "Recruiter" iff the recruiter toggle is on, else "Job Seeker" |
| Landing.SignupRequest | frontend/app/page.tsx:22-25 | the request body carries the typed email, password, name, company and designation with the chosen role |
| Landing.HomeFor | frontend/app/page.tsx:34-37 | the route is `/recruiter-dashboard` iff the role is exactly "Recruiter", else `/user-dashboard` |
| Landing.Respond | frontend/app/page.tsx:26-44 | a refusal shows its message and a failed fetch the server-error toast, changing nothing else; a signup success switches to login mode without a session; a login success stores the session, routes by role and shows the welcome toast; the session changes only on a login success |
| Landing.LoginReply | frontend/app/page.tsx:26-44 | a success reply carries the row; a 500 page is a reply whose decoding throws, and nothing else is |
| Landing.Toggle | frontend/app/page.tsx:167 | the footer link always switches the mode |
| Landing.ToggleTwice | frontend/app/page.tsx:167 | toggling twice returns to the original mode |
| Landing.SignupThenLoginRoutesByChoice | frontend/app/page.tsx:20-40 | signing up with storable values and then logging in with the same password succeeds with 50 tokens and lands on the recruiter dashboard iff the recruiter toggle was chosen |
| Landing.LoginLandsOnStoredRole | frontend/app/page.tsx:26-44 | logging in against the tables stores the row's own email, role and name and routes by the stored role with a welcome; a refused or failed login keeps the session and route and shows no welcome |
| SeekerDashboard.ApplyPrecheck | frontend/app/user-dashboard/page.tsx:65-76 | nothing happens without a selected job; a premium job with fewer than 6 tokens is refused before any request; otherwise the user's email and the job id are sent |
| SeekerDashboard.PrecheckAgreesWithServer | frontend/app/user-dashboard/page.tsx:67-72 | with fresh user and job rows, the client refuses exactly the applications the server would refuse |
| SeekerDashboard.AfterApply | frontend/app/user-dashboard/page.tsx:81-88 | success closes the job modal; an error leaves the page as it was |
| SeekerDashboard.SentApplyClosesModal | frontend/app/user-dashboard/page.tsx:65-88 | with fresh rows, the job modal closes after Apply exactly when the precheck sent the request |
| SeekerDashboard.SaveProfile | frontend/app/user-dashboard/page.tsx:50-62 | an empty value is a no-op; otherwise +5 tokens, the phone flag for "Phone Number", the email flag for "LinkedIn URL", the modal closes, and nothing else changes |
| SeekerDashboard.Offers | frontend/app/user-dashboard/page.tsx:171-179 | the phone, LinkedIn and resume earn controls are shown exactly while their flag or resume text is unset |
| SeekerDashboard.SavingPhoneWithdrawsItsOffer | frontend/app/user-dashboard/page.tsx:54-56 | saving a phone number withdraws the phone offer and leaves the other offers alone |
| SeekerDashboard.ResumeOfferAfterUpload | backend/main.py:176-179 | a successful upload adds 20 tokens; the resume offer disappears iff the extracted text was non-empty |
| SeekerDashboard.Tick | frontend/app/user-dashboard/page.tsx:36-38 | the timer drops by one only while a question is shown and time is left; nothing else changes |
| SeekerDashboard.CountdownClampsAtZero | frontend/app/user-dashboard/page.tsx:36-38 | after n ticks the timer reads max(0, start - n) and nothing else has changed: reaching zero does nothing |
| SeekerDashboard.StartInterview | frontend/app/user-dashboard/page.tsx:112-117 | refused without resume text; otherwise the question is shown and the timer restarts at 60 |
| SeekerDashboard.InterviewCountdown | frontend/app/user-dashboard/page.tsx:36-117 | once an interview starts, the clock reads max(0, 60 - n) after n seconds and the question stays shown |
| SeekerDashboard.SubmitAnswer | frontend/app/user-dashboard/page.tsx:119-126 | the answer is correct iff the option equals the question's answer; the question is cleared |
| SeekerDashboard.AnswerEarnsIffCorrect | frontend/app/user-dashboard/page.tsx:119-121 | answering and reporting it adds 5 tokens iff the chosen option was right and the balance has room for 5 more within `INTEGER` |
| SeekerDashboard.SkillTags | frontend/app/user-dashboard/page.tsx:263 | the tags are at least one piece and none contains a comma |
| SeekerDashboard.SkillTagsRoundTrip | frontend/app/user-dashboard/page.tsx:263 | joining the tags with commas gives back the skills string |
| RecruiterDashboard.Suggestions | frontend/app/recruiter-dashboard/page.tsx:41-49 | no suggestions for an empty input; otherwise exactly the cities whose lower-cased name contains the lower-cased input |
| RecruiterDashboard.SuggestionsKeepListOrder | frontend/app/recruiter-dashboard/page.tsx:45 | the suggestions are a subsequence of the city list |
| CitySearch.SuggestionsForAn | frontend/app/recruiter-dashboard/page.tsx:6-48 | typing "an" offers exactly ["Bangalore"] |
| RecruiterDashboard.ChangeLocation | frontend/app/recruiter-dashboard/page.tsx:41-49 | typing changes only the form's location, and the suggestions follow the input |
| RecruiterDashboard.PickSuggestion | frontend/app/recruiter-dashboard/page.tsx:165 | picking a city sets the location to it and empties the suggestions; nothing else changes |
| RecruiterDashboard.PickedCityIsListed | frontend/app/recruiter-dashboard/page.tsx:41-165 | a city picked from the offered list is a listed city matching the input, and it is the location the next submit sends |
| RecruiterDashboard.SubmitForm | frontend/app/recruiter-dashboard/page.tsx:51-65 | PUT `/api/jobs/{id}` iff a non-zero id is being edited, else POST; the body is the form with the recruiter's email and company; afterwards the form is blank and editing is cleared |
| RecruiterDashboard.StartEdit | frontend/app/recruiter-dashboard/page.tsx:67-74 | the job's fields fill the form, its id is being edited, and the post tab opens; the suggestions and the success modal are untouched |
| RecruiterDashboard.OpenPostTab | frontend/app/recruiter-dashboard/page.tsx:99 | the Post Job tab clears the form and any edit in progress; the suggestions and the success modal are untouched |
| RecruiterDashboard.PostTabCreates | frontend/app/recruiter-dashboard/page.tsx:51-99 | after the Post Job tab the next submit is a create with a blank title, and opening the tab wipes an edit in progress completely |
| RecruiterDashboard.CreatedJobBelongsToRecruiter | frontend/app/recruiter-dashboard/page.tsx:51-58 | a new posting is stored iff its values can be stored, and then carries the recruiter's own email and company, whatever the form held |
| RecruiterDashboard.UntouchedEditIsNoOp | frontend/app/recruiter-dashboard/page.tsx:51-74 | opening a listed job for edit and saving it untouched sends a PUT that leaves the tables unchanged |
| Quiz.StartGenerate | frontend/app/user-dashboard/quiz/page.tsx:37 | fetching a quiz first clears the quiz, result, selection and payment message |
| Quiz.GenerateQuiz | frontend/app/user-dashboard/quiz/page.tsx:36-54 | a payment wall leaves the quiz empty, shows its message and opens the wallet; any other reply becomes the quiz |
| Quiz.CheckAnswer | frontend/app/user-dashboard/quiz/page.tsx:56-68 | with a result present nothing changes and nothing is sent; otherwise the verdict is Correct iff the option equals the answer, and that flag is sent |
| Quiz.ScoredAtMostOnce | frontend/app/user-dashboard/quiz/page.tsx:56-68 | however many options are pressed, at most one score is sent, and the verdict is the first press's |
| Quiz.AlreadyScoredSendsNothing | frontend/app/user-dashboard/quiz/page.tsx:57 | once a result exists, any presses change nothing and send nothing |
| Quiz.HighlightOf | frontend/app/user-dashboard/quiz/page.tsx:118-126 | before a result every option is neutral; afterwards the right answer is green, a wrong selected option red, the rest grey |
| Quiz.AnsweredHighlight | frontend/app/user-dashboard/quiz/page.tsx:118-126 | after answering, the pressed option is green iff the verdict is Correct and red iff it is Wrong, and the right answer is green |
| Quiz.IssuedQuizScoresOnce | frontend/app/user-dashboard/quiz/page.tsx:36-68 | a freshly issued quiz is scored exactly once for any non-empty run of presses, with the first press's verdict, even after a scored quiz; a payment wall leaves nothing to press |
| PipelineView.ChangeStatus | frontend/app/recruiter-dashboard/applications/page.tsx:16-25 | the optimistic update re-labels only the row with the id and sends that id and status; length, order and other fields are kept |
| PipelineView.OptimisticAgreesWithRefetch | frontend/app/recruiter-dashboard/applications/page.tsx:18 | for a storable status, re-labelling a newest-first listing equals listing again after the server's update, for any listing that selects rows without looking at status |
| PipelineView.OptimisticAgreesWithUserListing | frontend/app/recruiter-dashboard/applications/page.tsx:18 | in particular, for a storable status, the candidate listing after the update equals the re-labelled old listing |
| PipelineView.StatusStyle | frontend/app/recruiter-dashboard/applications/page.tsx:28-36 | Hired, Rejected, Interviewing and Shortlisted each get their own style; every other string, Received included, gets the default |
| PipelineView.ReceivedLooksDefault | frontend/app/recruiter-dashboard/applications/page.tsx:34 | a newly filed application shows the default style |
| PipelineView.ScoreBand | frontend/app/recruiter-dashboard/applications/page.tsx:74-76 | high from 80, medium from 50 to 79, low below 50: the bands partition the integers |
| PipelineView.AppliedScoresNeverLow | frontend/app/recruiter-dashboard/applications/page.tsx:74-76 | scores the apply handler draws are never in the low band |
| PipelineView.SelectorsOfferSameStatuses | frontend/app/recruiter-dashboard/applications/page.tsx:90-94 | the pipeline offers the same five statuses as the dashboard's candidate tab, in another order, Received among them |
| PipelineView.ChoiceStylesDistinct | frontend/app/recruiter-dashboard/applications/page.tsx:90-94 | no two of the five offered statuses share a style |
| PipelineView.PickedStatusAgreesWithRefetch | frontend/app/recruiter-dashboard/applications/page.tsx:16-94 | every status the selector offers can be stored, so the optimistic update and a refetch agree whichever is picked |
| PipelineView.JoinOwnedRestatus | backend/main.py:151-160 | the candidates join ignores status: joining the re-labelled table gives the old joined rows, same length and order, with only the matching application re-labelled |
| PipelineView.CandidatesRefetchRelabels | frontend/app/recruiter-dashboard/page.tsx:83-88 | after a storable status change, the candidates refetch shows the old listing with only that application re-labelled, in the same order |
| TrackerView.Load | frontend/app/user-dashboard/applications/page.tsx:9-15 | the list is fetched and shown only when a non-empty email is stored |
| TrackerView.KindOf | frontend/app/user-dashboard/applications/page.tsx:46-50 | "YOU REFERRED" iff the row's referrer is the viewer's email, "SELF APPLY" otherwise |
| TrackerView.TrackerStyle | frontend/app/user-dashboard/applications/page.tsx:17-24 | only Hired, Rejected and Interviewing leave the default style |
| TrackerView.TrackerStyleAgreesWithPipeline | frontend/app/user-dashboard/applications/page.tsx:17-24 | the tracker styles every status as the pipeline does except Shortlisted, which it leaves in the default style |
| TrackerView.Notice | frontend/app/user-dashboard/applications/page.tsx:64 | "No records found." is shown exactly when there are no rows |
| TrackerView.NoticeIffNoApplications | frontend/app/user-dashboard/applications/page.tsx:9-64 | given the candidate listing as the backend serves it, the notice shows exactly when no email is stored or the user has filed nothing |
| TrackerView.StepKeepsNoReferrals | backend/main.py:230-231 | no request ever writes a referrer into the applications table |
| TrackerView.EveryRowIsSelfApply | frontend/app/user-dashboard/applications/page.tsx:46-50 | on tables built by these handlers, every row is labelled "SELF APPLY" for every viewer |

## Left out

- Postgres, HTTP and browser plumbing: connections, routing, CORS, `fetch`, FormData and `localStorage`. Tables are values, and requests are function calls.
- bcrypt hashing and verification are the parameters `hash` and `verify`.
- PDF text extraction is the parameter `extracted`.
- The Gemini call and its JSON parsing are the parameter `ask`.
- Randomness: the apply score is a parameter constrained to 70..95. The referral toast's random score is cosmetic.
- Concurrency: the read-then-write token race in `apply_for_job`, and async interleavings in the pages. Every step is sequential and atomic.
- `Api.ApplyForJob`: a missing job or user row raises in the source. Here both are preconditions, and `Ledger.Step` treats such a request as a rolled-back no-op.
- The wallet, diamonds and quiz endpoints (`/api/quiz/*`, `/api/wallet/add`) and `/api/recruiter/applications` have no backend in this repository. Only the pages' client-side updates are modelled. `handleAddMoney` and `fetchStats` are not modelled.
- `get_user_stats` (`GET /api/user/{email}`) is a plain row read. Pages hold the returned row as a `User`.
- `handleRefer` sends no request; it only shows a toast and closes its modal.
- The recruiter dashboard's `deleteJob` confirm dialog and its candidate tab's `updateStatus`: the backend side of both is modelled (`Api.DeleteJob`, `Api.UpdateStatus`).
- Postgres `ILIKE` details: the `%` and `_` wildcards inside a search term, its default backslash escape (the term `a\b` matches "ab", not "a\b"), and locale-dependent case folding. Matching is ASCII lower-case substring search.
- `parseInt` on the referral-bonus input: the form holds an integer.
- Presentation: toasts and their timeouts, modals, JSX, the topic picker, the result banner text, the candidate tab's 75-point score colour, the candidate dashboard's own applications tab (its third status style: Hired, Rejected, and blue for everything else, Received included; and its 85-point score colour) and the two layout files.
- `Api.UploadResume`: `"".join(...)` over the pages' text is taken as already done; `extracted` is the joined text.
- `Api.Signup`: a lost connection or any other database error is also answered "Email exists"; only the key clash and the storage limits are modelled.
- `Api.PostJob`: the SERIAL counters are 32-bit too, so inserts fail once 2^31 - 1 ids are used; the model's counters are unbounded.
- Read handlers: a search term or path email holding NUL makes the `SELECT` raise (500); the `Queries` functions always answer.
- `TrackerView.NoticeIffNoApplications`: the page actually requests a route the backend does not serve, so the lemma holds only for the listing the backend serves at `/api/user/applications/{email}`.
