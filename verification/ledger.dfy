/** The token economy as a whole: any sequence of backend requests, applied one at a time,
    keeps every balance non-negative, and each balance moves exactly by the fixed per-request amounts. */
module Ledger {
  import opened Common
  import opened Tables
  import opened Api

  /** A request to one of the state-changing endpoints, with the values of its collaborators
      (the clock for dates, the PDF reader's output, the random score) fixed in the request. */
  datatype Op =
    | SignupOp(form: SignupForm)
    | PostJobOp(post: JobPost, today: string)
    | EditJobOp(id: int, post: JobPost)
    | DeleteJobOp(id: int)
    | UpdateStatusOp(id: int, status: string)
    | UploadResumeOp(email: string, extracted: Option<string>)
    | SubmitInterviewOp(email: string, isCorrect: bool)
    | ApplyOp(email: string, jobId: int, aiScore: int, today: string)

  /** The random draw recorded in an apply request lies in `randint(70, 95)`'s range. */
  predicate WellFormed(op: Op)
  {
    op.ApplyOp? ==> MinAiScore <= op.aiScore <= MaxAiScore
  }

  /** An apply request for a missing job or user raises inside the handler; the connection's
      context manager rolls the transaction back, so the tables are unchanged. */
  predicate ApplyRaises(db: Db, email: string, jobId: int)
  {
    FindJob(db.jobs, jobId).None? || email !in db.users
  }

  /** The tables after one request. */
  function Step(db: Db, op: Op, hash: string -> string): Db
    requires WellFormed(op)
  {
    match op
    case SignupOp(form) => Signup(db, form, hash).db
    case PostJobOp(post, today) => PostJob(db, post, today).db
    case EditJobOp(id, post) => EditJob(db, id, post).db
    case DeleteJobOp(id) => DeleteJob(db, id)
    case UpdateStatusOp(id, status) => UpdateStatus(db, id, status).db
    case UploadResumeOp(email, extracted) => UploadResume(db, email, extracted).db
    case SubmitInterviewOp(email, ok) => SubmitInterview(db, email, ok).db
    case ApplyOp(email, jobId, score, today) =>
      if ApplyRaises(db, email, jobId) then db else ApplyForJob(db, email, jobId, score, today).db
  }

  /** The tables after a sequence of requests, served one after another. */
  function Run(db: Db, ops: seq<Op>, hash: string -> string): Db
    requires forall i :: 0 <= i < |ops| ==> WellFormed(ops[i])
    decreases |ops|
  {
    if |ops| == 0 then db else Run(Step(db, ops[0], hash), ops[1..], hash)
  }

  /** A balance as the ledger reads it: an email without a row has 0 tokens. */
  function Balance(db: Db, email: string): int
  {
    if email in db.users then db.users[email].tokens else 0
  }

  /** The reference ledger: how much one request moves `email`'s balance, by reason.
      Signing up a new email +50, resume upload +20, correct interview answer +5, premium
      application -6 when affordable; a request whose statement cannot be stored moves nothing. */
  function TokenDelta(db: Db, op: Op, hash: string -> string, email: string): (d: int)
    ensures d == 0 || d == SignupTokens || d == ResumeReward || d == InterviewReward || d == -PremiumApplyCost
  {
    match op
    case SignupOp(form) =>
      if form.email == email && email !in db.users && SignupStorable(form, hash) then SignupTokens else 0
    case UploadResumeOp(u, extracted) =>
      if u == email && email in db.users && extracted.Some? && Storable(email)
         && Storable(Truncate(extracted.value, ResumeTextLimit))
         && FitsInteger(db.users[email].tokens + ResumeReward)
      then ResumeReward else 0
    case SubmitInterviewOp(u, ok) =>
      if u == email && ok && email in db.users && Storable(email)
         && FitsInteger(db.users[email].tokens + InterviewReward)
      then InterviewReward else 0
    case ApplyOp(u, jobId, _, _) =>
      if u == email && !ApplyRaises(db, u, jobId)
         && db.users[u].tokens >= ApplyCost(FindJob(db.jobs, jobId).value)
      then -ApplyCost(FindJob(db.jobs, jobId).value)
      else 0
    case _ => 0
  }

  /** One request keeps the tables valid. */
  lemma StepKeepsValid(db: Db, op: Op, hash: string -> string)
    requires Valid(db) && WellFormed(op)
    ensures Valid(Step(db, op, hash))
  {
  }

  /** One request moves any email's balance by exactly the ledger's amount and never deletes a user. */
  lemma StepMovesBalance(db: Db, op: Op, hash: string -> string, email: string)
    requires WellFormed(op)
    ensures email in db.users ==> email in Step(db, op, hash).users
    ensures Balance(Step(db, op, hash), email) == Balance(db, email) + TokenDelta(db, op, hash, email)
  {
  }

  /** Any sequence of requests keeps the tables valid, so no balance ever goes negative. */
  lemma {:induction false} RunKeepsValid(db: Db, ops: seq<Op>, hash: string -> string)
    requires Valid(db)
    requires forall i :: 0 <= i < |ops| ==> WellFormed(ops[i])
    ensures Valid(Run(db, ops, hash))
    ensures forall e :: e in Run(db, ops, hash).users ==> Run(db, ops, hash).users[e].tokens >= 0
    decreases |ops|
  {
    if |ops| > 0 {
      StepKeepsValid(db, ops[0], hash);
      RunKeepsValid(Step(db, ops[0], hash), ops[1..], hash);
    }
  }

  /** Starting from freshly created tables, every balance stays non-negative forever. */
  lemma TokensNeverNegative(ops: seq<Op>, hash: string -> string)
    requires forall i :: 0 <= i < |ops| ==> WellFormed(ops[i])
    ensures forall e :: e in Run(EmptyDb, ops, hash).users ==> Run(EmptyDb, ops, hash).users[e].tokens >= 0
  {
    EmptyDbIsValid();
    RunKeepsValid(EmptyDb, ops, hash);
  }

  /** The sum of the ledger's amounts along a run. */
  function RunDelta(db: Db, ops: seq<Op>, hash: string -> string, email: string): int
    requires forall i :: 0 <= i < |ops| ==> WellFormed(ops[i])
    decreases |ops|
  {
    if |ops| == 0 then 0
    else TokenDelta(db, ops[0], hash, email) + RunDelta(Step(db, ops[0], hash), ops[1..], hash, email)
  }

  /** Any email's balance after a run is its starting balance plus the sum of the ledger's amounts. */
  lemma {:induction false} BalanceIsFoldOfDeltas(db: Db, ops: seq<Op>, hash: string -> string, email: string)
    requires forall i :: 0 <= i < |ops| ==> WellFormed(ops[i])
    ensures email in db.users ==> email in Run(db, ops, hash).users
    ensures Balance(Run(db, ops, hash), email) == Balance(db, email) + RunDelta(db, ops, hash, email)
    decreases |ops|
  {
    if |ops| > 0 {
      StepMovesBalance(db, ops[0], hash, email);
      BalanceIsFoldOfDeltas(Step(db, ops[0], hash), ops[1..], hash, email);
    }
  }

  /** From freshly created tables, every balance is exactly the sum of the ledger's amounts:
      the signup grant plus rewards minus premium application costs. */
  lemma FreshBalanceIsFold(ops: seq<Op>, hash: string -> string, email: string)
    requires forall i :: 0 <= i < |ops| ==> WellFormed(ops[i])
    ensures Balance(Run(EmptyDb, ops, hash), email) == RunDelta(EmptyDb, ops, hash, email)
  {
    BalanceIsFoldOfDeltas(EmptyDb, ops, hash, email);
  }
}
