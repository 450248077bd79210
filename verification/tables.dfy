/** The three Postgres tables of the backend (`users`, `jobs`, `applications`) as immutable values. */
module Tables {
  import opened Common
  import opened Seqs

  /** A row of `users`. `email` is the UNIQUE key; `password` holds the bcrypt hash. */
  datatype User = User(
    email: string,
    passwordHash: string,
    role: string,
    name: string,
    tokens: int,
    company: string,
    designation: string,
    resumeText: Option<string>,
    phoneVerified: bool,
    emailVerified: bool)

  /** A row of `jobs`. `referralBonus > 0` marks a premium job. */
  datatype Job = Job(
    id: int,
    title: string,
    company: string,
    location: string,
    salary: string,
    description: string,
    experience: string,
    skills: string,
    referralBonus: int,
    recruiterEmail: string,
    postedDate: string)

  /** A row of `applications`. `status` is free text: the column accepts any string. */
  datatype Application = Application(
    id: int,
    jobId: int,
    userEmail: string,
    referrerEmail: Option<string>,
    jobTitle: string,
    company: string,
    status: string,
    date: string,
    aiScore: int)

  /** The database. `jobs` and `applications` are kept in insertion order; the next SERIAL
      value of each is held beside it, so deleted ids are never handed out again. */
  datatype Db = Db(
    users: map<string, User>,
    jobs: seq<Job>,
    apps: seq<Application>,
    nextJobId: int,
    nextAppId: int)

  /** Postgres `INTEGER` is 32-bit: a statement whose value leaves this range fails with
      "integer out of range". */
  const IntegerMin := -0x8000_0000
  const IntegerMax := 0x7FFF_FFFF

  predicate FitsInteger(n: int)
  {
    IntegerMin <= n <= IntegerMax
  }

  /** psycopg2 refuses to send a string holding a NUL character (it raises `ValueError`),
      and a Postgres `TEXT` value never holds one. */
  predicate Storable(s: string)
  {
    '\0' !in s
  }

  function JobId(j: Job): int { j.id }

  function AppId(a: Application): int { a.id }

  /** Freshly created tables: SERIAL columns start at 1. */
  const EmptyDb: Db := Db(map[], [], [], 1, 1)

  /** Rows carry SERIAL ids: positive, below the next value, strictly increasing in insertion order. */
  ghost predicate SerialIds<T>(rows: seq<T>, key: T -> int, next: int)
  {
    && 1 <= next
    && Ascending(rows, key)
    && forall i :: 0 <= i < |rows| ==> 1 <= key(rows[i]) < next
  }

  /** The state every handler keeps: users are stored under their own NUL-free email,
      nobody's token balance is negative or beyond the `INTEGER` column, and ids behave as SERIAL ids. */
  ghost predicate Valid(db: Db)
  {
    && (forall e :: e in db.users ==> db.users[e].email == e && Storable(e))
    && (forall e :: e in db.users ==> 0 <= db.users[e].tokens <= IntegerMax)
    && SerialIds(db.jobs, JobId, db.nextJobId)
    && SerialIds(db.apps, AppId, db.nextAppId)
  }

  /** `SELECT * FROM jobs WHERE id = ...` followed by `fetchone()`. */
  function FindJob(jobs: seq<Job>, id: int): (r: Option<Job>)
    ensures r.Some? ==> r.value in jobs && r.value.id == id
    ensures r.None? ==> forall i :: 0 <= i < |jobs| ==> jobs[i].id != id
  {
    if |jobs| == 0 then None
    else if jobs[0].id == id then Some(jobs[0])
    else FindJob(jobs[1..], id)
  }

  /** `status` of every row whose id is `id` becomes `status`; used both by the
      `UPDATE applications SET status` handler and by the recruiter page's optimistic update. */
  function Restatus(rows: seq<Application>, id: int, status: string): (r: seq<Application>)
    ensures |r| == |rows|
    ensures forall i :: 0 <= i < |rows| && rows[i].id != id ==> r[i] == rows[i]
    ensures forall i :: 0 <= i < |rows| && rows[i].id == id ==> r[i].status == status
    ensures forall i :: 0 <= i < |rows| ==> r[i].(status := rows[i].status) == rows[i]
  {
    seq(|rows|, i requires 0 <= i < |rows| => if rows[i].id == id then rows[i].(status := status) else rows[i])
  }

  lemma EmptyDbIsValid()
    ensures Valid(EmptyDb)
  {
  }

  /** Under SERIAL ids a job is the only row carrying its id. */
  lemma JobIdsUnique(db: Db, i: int, j: int)
    requires Valid(db)
    requires 0 <= i < |db.jobs| && 0 <= j < |db.jobs|
    requires db.jobs[i].id == db.jobs[j].id
    ensures i == j
  {
  }
}
