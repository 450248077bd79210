/** The login / signup page (frontend/app/page.tsx): which endpoint a submit goes to,
    the role it sends, and how the reply changes the mode, the stored session and the route. */
module Landing {
  import opened Common
  import opened Tables
  import Api

  datatype AuthMode = LoginMode | SignupMode

  /** The role toggle at the top of the form. */
  datatype RoleChoice = SeekerChoice | RecruiterChoice

  /** What `localStorage` keeps after a login: `user_email`, `user_role`, `user_name`. */
  datatype Session = Session(email: string, role: string, name: string)

  /** The toast shown after a submit. */
  datatype Notice = Welcome | AccountCreated | Failed(message: string) | ServerError

  /** The fields typed into the form. */
  datatype Form = Form(email: string, password: string, name: string, company: string, designation: string)

  datatype Page = Page(mode: AuthMode, choice: RoleChoice, session: Option<Session>,
                       route: Option<string>, notice: Option<Notice>)

  /** The decoded reply: `status == "success"` (with the user row after a login), any other
      status with its message, or a fetch that threw. */
  datatype Reply = Success(user: Option<Session>) | Refused(message: string) | Unreachable

  const LoginEndpoint := "/api/login"
  const SignupEndpoint := "/api/signup"
  const RecruiterRole := "Recruiter"
  const SeekerRole := "Job Seeker"
  const RecruiterHome := "/recruiter-dashboard"
  const SeekerHome := "/user-dashboard"

  function Endpoint(mode: AuthMode): (path: string)
    ensures path == LoginEndpoint <==> mode == LoginMode
    ensures path == LoginEndpoint || path == SignupEndpoint
  {
    if mode == LoginMode then LoginEndpoint else SignupEndpoint
  }

  /** The `role` field sent with the form. */
  function RoleName(choice: RoleChoice): (role: string)
    ensures role == RecruiterRole <==> choice == RecruiterChoice
    ensures role == RecruiterRole || role == SeekerRole
  {
    if choice == RecruiterChoice then RecruiterRole else SeekerRole
  }

  /** The signup request body: the form spread with the chosen role. */
  function SignupRequest(form: Form, choice: RoleChoice): (req: Api.SignupForm)
    ensures req.email == form.email && req.password == form.password && req.name == form.name
    ensures req.company == form.company && req.designation == form.designation
    ensures req.role == RoleName(choice)
  {
    Api.SignupForm(form.email, form.password, RoleName(choice), form.name, form.company, form.designation)
  }

  /** Where a logged-in user is sent: only the exact role "Recruiter" reaches the recruiter dashboard. */
  function HomeFor(role: string): (path: string)
    ensures path == RecruiterHome <==> role == RecruiterRole
    ensures path == RecruiterHome || path == SeekerHome
  {
    if role == RecruiterRole then RecruiterHome else SeekerHome
  }

  /** The session the login reply's user row leads to. */
  function SessionOf(u: User): Session
  {
    Session(u.email, u.role, u.name)
  }

  /** How the page decodes what `POST /api/login` sends back: the user row on success, the message
      of an error status, and a 500 page, whose body is not JSON, as a `res.json()` that throws. */
  function LoginReply(res: Result<User>): (reply: Reply)
    ensures reply.Success? <==> res.Ok?
    ensures reply.Unreachable? <==> res == Err(Api.ServerError)
  {
    match res
    case Ok(u) => Success(Some(SessionOf(u)))
    case Err(m) => if m == Api.ServerError then Unreachable else Refused(m)
  }

  /** `handleSubmit` after the reply arrives. A login reply without a user makes
      `data.user.email` throw, which the `catch` turns into the server-error toast. */
  function Respond(p: Page, reply: Reply): (r: Page)
    ensures r.choice == p.choice
    ensures reply.Refused? ==> r == p.(notice := Some(Failed(reply.message)))
    ensures reply.Unreachable? ==> r == p.(notice := Some(ServerError))
    ensures reply.Success? && p.mode == SignupMode ==>
      r == p.(mode := LoginMode, notice := Some(AccountCreated))
    ensures reply.Success? && p.mode == LoginMode && reply.user.Some? ==>
      && r.mode == LoginMode
      && r.session == reply.user
      && r.route == Some(HomeFor(reply.user.value.role))
      && r.notice == Some(Welcome)
    ensures r.session != p.session ==> p.mode == LoginMode && reply.Success? && reply.user.Some?
  {
    match reply
    case Refused(msg) => p.(notice := Some(Failed(msg)))
    case Unreachable => p.(notice := Some(ServerError))
    case Success(user) =>
      if p.mode.SignupMode? then p.(mode := LoginMode, notice := Some(AccountCreated))
      else match user
        case None => p.(notice := Some(ServerError))
        case Some(s) => p.(session := Some(s), route := Some(HomeFor(s.role)), notice := Some(Welcome))
  }

  /** The footer link. */
  function Toggle(mode: AuthMode): (r: AuthMode)
    ensures r != mode
  {
    if mode == LoginMode then SignupMode else LoginMode
  }

  lemma ToggleTwice(mode: AuthMode)
    ensures Toggle(Toggle(mode)) == mode
  {
  }

  /** End to end: signing up with the recruiter toggle and then logging in with the same
      password lands on the recruiter dashboard, and with the seeker toggle on the candidate one,
      provided the password verifies against its own hash. The new account holds 50 tokens. */
  lemma {:induction false} SignupThenLoginRoutesByChoice(
    db: Db, form: Form, choice: RoleChoice, hash: string -> string, verify: (string, string) -> bool)
    requires form.email !in db.users
    requires Api.SignupStorable(SignupRequest(form, choice), hash)
    requires verify(form.password, hash(form.password))
    ensures var after := Api.Signup(db, SignupRequest(form, choice), hash).db;
      var login := Api.Login(after, form.email, form.password, verify);
      && login.Ok?
      && login.value.tokens == Api.SignupTokens
      && (HomeFor(login.value.role) == RecruiterHome <==> choice == RecruiterChoice)
  {
    var req := SignupRequest(form, choice);
    var after := Api.Signup(db, req, hash).db;
    assert after.users[form.email].passwordHash == hash(form.password);
    assert after.users[form.email].role == RoleName(choice);
  }

  /** Logging in against the stored tables: valid credentials store the row's own email, role and
      name and route by the stored role; any refusal or server error leaves the session and the
      route as they were and shows no welcome. */
  lemma LoginLandsOnStoredRole(p: Page, db: Db, email: string, password: string, verify: (string, string) -> bool)
    requires p.mode == LoginMode
    requires Valid(db)
    ensures var login := Api.Login(db, email, password, verify);
      var r := Respond(p, LoginReply(login));
      login.Ok? ==>
        && r.session == Some(Session(email, db.users[email].role, db.users[email].name))
        && r.route == Some(HomeFor(db.users[email].role))
        && r.notice == Some(Welcome)
    ensures var login := Api.Login(db, email, password, verify);
      var r := Respond(p, LoginReply(login));
      login.Err? ==> r.session == p.session && r.route == p.route && r.notice != Some(Welcome)
  {
  }
}
