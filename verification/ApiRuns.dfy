/** Runs of the API server: sessions, throttle and application state under interleaved handlers. */
module ApiRuns {
  import opened Wrappers
  import opened Numbers
  import opened Text
  import opened Domain
  import opened Ledgers
  import opened LedgerRuns
  import opened LedgerLaws
  import opened Identity
  import opened Audit
  import opened Api
  import Sessions
  import LoginRace

  /**
   * The server between two critical sections. `logins` is the throttle with the logins that have passed
   * it and not ended, `granted` the sessions handed to handlers that have authenticated; such a handler
   * may take the write lock any time later, so `granted` never shrinks.
   */
  datatype Server = Server(
    app: App,
    sessions: Sessions.Store,
    logins: LoginRace.Race,
    granted: set<Session>)

  const FRESH := Server(NEW_APP, map[], LoginRace.START, {})

  /**
   * A request that is dropped while it waits for the session store has recorded its success but issues
   * no session; a login that is dropped while it waits for the write lock is abandoned.
   */
  datatype ApiStep =
    | Bootstrap(id: UserId, username: string, password: string, salt: string, token: string,
                now: u64, issuedAt: u64, dropped: bool)
    | LoginCheck(username: string, now: u64)
    | LoginFinish(username: string, password: string, token: string, failedAt: u64, now: u64, issuedAt: u64,
                  dropped: bool)
    | LoginAbandon(username: string)
    | Authenticate(token: string, now: u64)
    | Perform(session: Session, request: Request, times: Times)
    | LogoutBegin(token: string, now: u64)
    | LogoutEnd(session: Session, now: u64)

  /** A step is possible for handlers that have got that far, with a token that no live session uses. */
  predicate Enabled(s: Server, step: ApiStep) {
    match step
    case Bootstrap(_, _, _, _, token, _, issuedAt, dropped) => dropped || token !in Sessions.Sweep(s.sessions, issuedAt)
    case LoginFinish(username, _, token, _, _, issuedAt, dropped) =>
      && LoginRace.Pending(s.logins, NameKey(username)) > 0
      && (dropped || token !in Sessions.Sweep(s.sessions, issuedAt))
    case LoginAbandon(username) => LoginRace.Pending(s.logins, NameKey(username)) > 0
    case Perform(session, request, _) => session in s.granted && (request.Bank? ==> Offered(request.op))
    case LogoutEnd(session, _) => session in s.granted
    case _ => true
  }

  function IssueTo(s: Server, app: App, r: Result<Session, ApiError>, token: string, issuedAt: u64,
                   dropped: bool): Server
  {
    match r
    case Err(_) => s.(app := app)
    case Ok(session) =>
      if dropped then s.(app := app)
      else s.(app := app, sessions := Sessions.Issued(s.sessions, token, session, issuedAt))
  }

  function GrantTo(s: Server, token: string, now: u64): Server {
    match Sessions.Lookup(s.sessions, token, now)
    case None => s.(sessions := Sessions.Sweep(s.sessions, now))
    case Some(session) => s.(sessions := Sessions.Sweep(s.sessions, now), granted := s.granted + {session})
  }

  /** What a finished login tells the throttle. */
  function OutcomeOf(s: Server, h: Hasher, step: ApiStep): LoginRace.Step
    requires step.LoginFinish?
  {
    if Identity.Authenticate(s.app.identities, h, step.username, step.password).Ok?
    then LoginRace.Succeed(step.username)
    else LoginRace.Fail(step.username, step.failedAt)
  }

  function Next(s: Server, h: Hasher, step: ApiStep): (s': Server)
    requires Valid(s.app.ledger) && Enabled(s, step)
    ensures Valid(s'.app.ledger)
  {
    match step
    case Bootstrap(id, username, password, salt, token, now, issuedAt, dropped) =>
      var (app, r) := BootstrapSection(s.app, h, salt, id, username, password, now);
      IssueTo(s, app, r, token, issuedAt, dropped)
    case LoginCheck(username, now) => s.(logins := LoginRace.Next(s.logins, LoginRace.Begin(username, now)))
    case LoginFinish(username, password, token, failedAt, now, issuedAt, dropped) =>
      var (app, r) := LoginSection(s.app, h, username, password, now);
      IssueTo(s.(logins := LoginRace.Next(s.logins, OutcomeOf(s, h, step))), app, r, token, issuedAt, dropped)
    case LoginAbandon(username) => s.(logins := LoginRace.Next(s.logins, LoginRace.Abandon(username)))
    case Authenticate(token, now) => GrantTo(s, token, now)
    case Perform(session, request, times) => s.(app := Handle(s.app, h, session, request, times).0)
    case LogoutBegin(token, now) =>
      var granted := GrantTo(s, token, now);
      if Sessions.Lookup(s.sessions, token, now).Some? then granted.(sessions := granted.sessions - {token})
      else granted
    case LogoutEnd(session, now) => s.(app := LogoutSection(s.app, session, now).0)
  }

  /** A run from the fresh server; steps that are not possible when their turn comes are skipped. */
  function Run(h: Hasher, steps: seq<ApiStep>): (s: Server)
    ensures Valid(s.app.ledger)
  {
    if steps == [] then FRESH else
      var before := Run(h, steps[..|steps| - 1]);
      if Enabled(before, steps[|steps| - 1]) then Next(before, h, steps[|steps| - 1]) else before
  }

  // ---- Users, sessions, owners ----------------------------------------------------------------

  ghost predicate SessionsSpeak(s: Server) {
    && (forall token :: token in s.sessions ==> SpeaksFor(s.sessions[token].session, s.app.identities))
    && (forall session :: session in s.granted ==> SpeaksFor(session, s.app.identities))
  }

  ghost predicate AdminExists(users: map<UserId, User>) {
    users.Keys != {} ==> exists id :: id in users && users[id].role.Admin?
  }

  /** The application state of every run that started empty. */
  ghost predicate AppSound(app: App, h: Hasher) {
    Coherent(app, h) && Owned(app.ledger.accounts, app.identities.customers)
  }

  ghost predicate ServerSound(s: Server, h: Hasher) {
    && AppSound(s.app, h) && SessionsSpeak(s) && AdminExists(s.app.identities.users)
  }

  /** Users and customers are only ever added. */
  ghost predicate Grown(a: Identities, b: Identities) {
    && (forall id :: id in a.users ==> id in b.users && b.users[id] == a.users[id])
    && (forall id :: id in a.customers ==> id in b.customers && b.customers[id] == a.customers[id])
  }

  lemma GrownKeepsSpeakers(s: Server, t: Server)
    requires SessionsSpeak(s) && Grown(s.app.identities, t.app.identities)
    requires forall token :: token in t.sessions ==>
               (token in s.sessions && t.sessions[token] == s.sessions[token])
                   || SpeaksFor(t.sessions[token].session, t.app.identities)
    requires forall session :: session in t.granted ==> session in s.granted || SpeaksFor(session, t.app.identities)
    ensures SessionsSpeak(t)
  {
  }

  lemma GrownKeepsOwners(ledger: Ledger, a: Identities, b: Identities)
    requires Owned(ledger.accounts, a.customers) && Grown(a, b)
    ensures Owned(ledger.accounts, b.customers)
  {
  }

  lemma FinishKeeps(app: App, note: Note, now: u64, h: Hasher)
    requires AppSound(app, h)
    ensures AppSound(Finish(app, note, now).0, h)
    ensures Finish(app, note, now).0.ledger == app.ledger && Finish(app, note, now).0.identities == app.identities
  {
    RecordKeepsNumbered(app.log, note, now);
  }

  lemma StepOwners(l: Ledger, call: Call, identities: Identities)
    requires Sound(l) && Owned(l.accounts, identities.customers)
    requires call.op.CreateAccount? && call.op.ownerId.Some? ==> call.op.ownerId.value in identities.customers
    ensures Owned(Step(l, call).accounts, identities.customers)
  {
    DecisionsSane(l, call);
    Shapes(l, call);
    EffectOwners(l, Decide(l, call).effect, identities);
    if call.op.CreateAccount? && Answer(l, call).Ok? {
      assert Decide(l, call).effect.Open?;
    }
  }

  lemma EffectOwners(l: Ledger, e: Effect, identities: Identities)
    requires Valid(l) && Admissible(l, e) && Owned(l.accounts, identities.customers)
    requires e.Open? && e.account.ownerId.Some? ==> e.account.ownerId.value in identities.customers
    ensures Owned(Apply(l, e).accounts, identities.customers)
  {
  }

  lemma BankSectionKeeps(app: App, h: Hasher, session: Session, op: Op, times: Times)
    requires AppSound(app, h) && Offered(op)
    ensures AppSound(BankSection(app, session, op, times).0, h)
    ensures BankSection(app, session, op, times).0.identities == app.identities
  {
    if Precheck(app, session, op).None? {
      var call := Call(op, times.first, times.second);
      var moved := app.(ledger := Step(app.ledger, call));
      StepSound(app.ledger, call);
      StepOwners(app.ledger, call, app.identities);
      FinishKeeps(moved, NoteOf(session, op), times.audit, h);
    }
  }

  lemma StepSound(l: Ledger, call: Call)
    requires Sound(l)
    ensures Sound(Step(l, call))
  {
    DecisionsSane(l, call);
    ApplyKeepsSound(l, Decide(l, call).effect);
  }

  lemma CustomerSectionKeeps(app: App, h: Hasher, session: Session, id: CustomerId, fullName: string, email: string,
                             now: u64)
    requires AppSound(app, h)
    ensures var app' := CustomerSection(app, session, id, fullName, email, now).0;
            AppSound(app', h) && Grown(app.identities, app'.identities) && app'.identities.users == app.identities.users
  {
    var (identities, r) := Identity.CreateCustomer(app.identities, id, fullName, email);
    CreateCustomerKeeps(app.identities, id, fullName, email);
    GrownKeepsOwners(app.ledger, app.identities, identities);
    if Authorize(session, ManageIdentity).None? && r.Ok? {
      FinishKeeps(app.(identities := identities), CustomerNote(session, r.value.id), now, h);
    }
  }

  /** Creating a user, by whichever handler, keeps the application sound and takes nothing away. */
  lemma UserCreationKeeps(app: App, h: Hasher, salt: string, id: UserId, username: string, role: Role,
                          link: Option<CustomerId>, password: string)
    requires AppSound(app, h) && SoundHasher(h)
    ensures var (identities, r) := Identity.CreateUser(app.identities, h, salt, id, username, role, link, password);
            && AppSound(app.(identities := identities), h) && Grown(app.identities, identities)
            && identities.users == (if r.Ok? then app.identities.users[id := r.value] else app.identities.users)
            && (r.Ok? ==> r.value.role == role && id !in app.identities.users)
  {
    var (identities, r) := Identity.CreateUser(app.identities, h, salt, id, username, role, link, password);
    CreateUserAdds(app.identities, h, salt, id, username, role, link, password);
    CreateUserKeeps(app.identities, h, salt, id, username, role, link, password);
    GrownKeepsOwners(app.ledger, app.identities, identities);
  }

  lemma UserSectionLeaves(app: App, h: Hasher, session: Session, request: Request, now: u64)
    requires request.AddUser?
    ensures var (identities, r) := Identity.CreateUser(app.identities, h, request.salt, request.userId,
                                                       request.username, request.role, request.link,
                                                       request.password);
            var (grown, after) := (app.(identities := identities), UserSection(app, h, session, request, now).0);
            after == if Authorize(session, ManageIdentity).Some? then app
                     else if r.Err? then grown
                     else Finish(grown, UserNote(session, r.value.id), now).0
  {
  }

  lemma UserSectionKeeps(app: App, h: Hasher, session: Session, request: Request, now: u64)
    requires AppSound(app, h) && SoundHasher(h) && request.AddUser?
    requires SpeaksFor(session, app.identities) && AdminExists(app.identities.users)
    ensures var app' := UserSection(app, h, session, request, now).0;
            AppSound(app', h) && Grown(app.identities, app'.identities) && AdminExists(app'.identities.users)
  {
    UserSectionLeaves(app, h, session, request, now);
    if Authorize(session, ManageIdentity).None? {
      var (identities, r) := Identity.CreateUser(app.identities, h, request.salt, request.userId, request.username,
                                                 request.role, request.link, request.password);
      UserCreationKeeps(app, h, request.salt, request.userId, request.username, request.role, request.link,
                        request.password);
      AdminStays(app.identities.users, identities, session);
      if r.Ok? {
        FinishKeeps(app.(identities := identities), UserNote(session, r.value.id), now, h);
      }
    }
  }

  lemma AdminStays(users: map<UserId, User>, grown: Identities, session: Session)
    requires AdminExists(users) && session.userId in users
    requires forall id :: id in users ==> id in grown.users && grown.users[id] == users[id]
    ensures AdminExists(grown.users)
  {
    assert session.userId in users.Keys;
    var id :| id in users && users[id].role.Admin?;
    assert id in grown.users && grown.users[id].role.Admin?;
  }

  lemma BootstrapKeeps(app: App, h: Hasher, salt: string, id: UserId, username: string, password: string, now: u64)
    requires AppSound(app, h) && SoundHasher(h) && AdminExists(app.identities.users)
    ensures var (app', r) := BootstrapSection(app, h, salt, id, username, password, now);
            && AppSound(app', h) && Grown(app.identities, app'.identities) && AdminExists(app'.identities.users)
            && (r.Ok? ==> app.identities.users.Keys == {} && SpeaksFor(r.value, app'.identities))
  {
    if app.identities.users.Keys != {} {
      FinishKeeps(app, REFUSED_BOOTSTRAP, now, h);
    } else {
      var (identities, r) := Identity.CreateUser(app.identities, h, salt, id, username, Admin, None, password);
      var grown := app.(identities := identities);
      UserCreationKeeps(app, h, salt, id, username, Admin, None, password);
      match r {
        case Err(error) =>
          FinishKeeps(grown, FailedBootstrap(id, error), now, h);
        case Ok(user) =>
          assert id in identities.users && identities.users[id].role.Admin?;
          var authenticated := Identity.Authenticate(identities, h, username, password);
          if authenticated.Ok? {
            AuthenticatedSpeaks(identities, h, username, password);
            FinishKeeps(grown, BootstrapNote(authenticated.value), now, h);
          }
      }
    }
  }

  lemma LoginKeeps(app: App, h: Hasher, username: string, password: string, now: u64)
    requires AppSound(app, h)
    ensures var (app', r) := LoginSection(app, h, username, password, now);
            && AppSound(app', h) && app'.identities == app.identities
            && (r.Ok? ==> SpeaksFor(r.value, app.identities))
  {
    match Identity.Authenticate(app.identities, h, username, password) {
      case Ok(session) =>
        AuthenticatedSpeaks(app.identities, h, username, password);
        FinishKeeps(app, LoginNote(session), now, h);
      case Err(error) =>
        FinishKeeps(app, FailedLogin(username, error), now, h);
    }
  }

  lemma HandleKeeps(app: App, h: Hasher, session: Session, request: Request, times: Times)
    requires AppSound(app, h) && SoundHasher(h) && AdminExists(app.identities.users)
    requires SpeaksFor(session, app.identities)
    requires request.Bank? ==> Offered(request.op)
    ensures var app' := Handle(app, h, session, request, times).0;
            AppSound(app', h) && Grown(app.identities, app'.identities) && AdminExists(app'.identities.users)
  {
    match request {
      case AddCustomer(id, fullName, email) => CustomerSectionKeeps(app, h, session, id, fullName, email, times.audit);
      case AddUser(_, _, _, _, _, _) => UserSectionKeeps(app, h, session, request, times.audit);
      case Bank(op) => BankSectionKeeps(app, h, session, op, times);
    }
  }

  lemma IssueKeeps(s: Server, h: Hasher, app: App, r: Result<Session, ApiError>, token: string, issuedAt: u64,
                   dropped: bool)
    requires ServerSound(s, h)
    requires AppSound(app, h) && Grown(s.app.identities, app.identities) && AdminExists(app.identities.users)
    requires r.Ok? ==> SpeaksFor(r.value, app.identities)
    ensures ServerSound(IssueTo(s, app, r, token, issuedAt, dropped), h)
    ensures Grown(s.app.identities, IssueTo(s, app, r, token, issuedAt, dropped).app.identities)
  {
    GrownKeepsSpeakers(s, IssueTo(s, app, r, token, issuedAt, dropped));
  }

  lemma AppKeeps(s: Server, h: Hasher, app: App)
    requires ServerSound(s, h)
    requires AppSound(app, h) && Grown(s.app.identities, app.identities) && AdminExists(app.identities.users)
    ensures ServerSound(s.(app := app), h)
  {
    GrownKeepsSpeakers(s, s.(app := app));
  }

  /** What happens under the session lock or the throttle lock leaves the application alone. */
  lemma SameAppKeeps(s: Server, h: Hasher, t: Server)
    requires ServerSound(s, h) && t.app == s.app
    requires forall token :: token in t.sessions ==> token in s.sessions && t.sessions[token] == s.sessions[token]
    requires forall session :: session in t.granted ==> session in s.granted || SpeaksFor(session, s.app.identities)
    ensures ServerSound(t, h)
  {
    GrownKeepsSpeakers(s, t);
  }

  lemma GrantKeeps(s: Server, h: Hasher, token: string, now: u64)
    requires ServerSound(s, h)
    ensures ServerSound(GrantTo(s, token, now), h) && GrantTo(s, token, now).app == s.app
  {
    SameAppKeeps(s, h, GrantTo(s, token, now));
  }

  /** What every step keeps. */
  ghost predicate Kept(s: Server, h: Hasher, t: Server) {
    ServerSound(t, h) && Grown(s.app.identities, t.app.identities)
  }

  lemma BootstrapStepKeeps(s: Server, h: Hasher, step: ApiStep)
    requires ServerSound(s, h) && SoundHasher(h) && Enabled(s, step) && step.Bootstrap?
    ensures Kept(s, h, Next(s, h, step))
  {
    BootstrapKeeps(s.app, h, step.salt, step.id, step.username, step.password, step.now);
    var (app, r) := BootstrapSection(s.app, h, step.salt, step.id, step.username, step.password, step.now);
    IssueKeeps(s, h, app, r, step.token, step.issuedAt, step.dropped);
  }

  lemma LoginStepKeeps(s: Server, h: Hasher, step: ApiStep)
    requires ServerSound(s, h) && Enabled(s, step) && step.LoginFinish?
    ensures Kept(s, h, Next(s, h, step))
  {
    LoginKeeps(s.app, h, step.username, step.password, step.now);
    var (app, r) := LoginSection(s.app, h, step.username, step.password, step.now);
    var told := s.(logins := LoginRace.Next(s.logins, OutcomeOf(s, h, step)));
    SameAppKeeps(s, h, told);
    IssueKeeps(told, h, app, r, step.token, step.issuedAt, step.dropped);
  }

  lemma RequestStepKeeps(s: Server, h: Hasher, step: ApiStep)
    requires ServerSound(s, h) && SoundHasher(h) && Enabled(s, step) && (step.Perform? || step.LogoutEnd?)
    ensures Kept(s, h, Next(s, h, step))
  {
    match step {
      case Perform(session, request, times) =>
        HandleKeeps(s.app, h, session, request, times);
        AppKeeps(s, h, Handle(s.app, h, session, request, times).0);
      case LogoutEnd(session, now) =>
        FinishKeeps(s.app, LogoutNote(session), now, h);
        AppKeeps(s, h, LogoutSection(s.app, session, now).0);
    }
  }

  lemma UnlockedStepKeeps(s: Server, h: Hasher, step: ApiStep)
    requires ServerSound(s, h) && Enabled(s, step)
    requires step.LoginCheck? || step.LoginAbandon? || step.Authenticate? || step.LogoutBegin?
    ensures Kept(s, h, Next(s, h, step))
  {
    match step {
      case LoginCheck(_, _) | LoginAbandon(_) => SameAppKeeps(s, h, Next(s, h, step));
      case Authenticate(token, now) => GrantKeeps(s, h, token, now);
      case LogoutBegin(token, now) =>
        GrantKeeps(s, h, token, now);
        SameAppKeeps(GrantTo(s, token, now), h, Next(s, h, step));
    }
  }

  lemma NextKeeps(s: Server, h: Hasher, step: ApiStep)
    requires ServerSound(s, h) && SoundHasher(h) && Enabled(s, step)
    ensures Kept(s, h, Next(s, h, step))
  {
    match step {
      case Bootstrap(_, _, _, _, _, _, _, _) => BootstrapStepKeeps(s, h, step);
      case LoginFinish(_, _, _, _, _, _, _) => LoginStepKeeps(s, h, step);
      case Perform(_, _, _) | LogoutEnd(_, _) => RequestStepKeeps(s, h, step);
      case _ => UnlockedStepKeeps(s, h, step);
    }
  }

  lemma FreshSound(h: Hasher)
    ensures ServerSound(FRESH, h)
  {
    NobodyConsistent(h);
    EmptySound();
  }

  /**
   * Over every run: the ledger, the identities and the log keep their invariants, every account owner
   * exists, every stored or granted session names an existing user with that role and customer, and
   * once there are users there is an administrator.
   */
  lemma {:induction false} RunsSound(h: Hasher, steps: seq<ApiStep>)
    requires SoundHasher(h)
    ensures ServerSound(Run(h, steps), h)
  {
    if steps == [] {
      FreshSound(h);
    } else {
      var init := steps[..|steps| - 1];
      RunsSound(h, init);
      if Enabled(Run(h, init), steps[|steps| - 1]) {
        NextKeeps(Run(h, init), h, steps[|steps| - 1]);
      }
    }
  }

  /** Users and customers present at some point of a run are present, unchanged, at every later point. */
  lemma {:induction false} RunsGrow(h: Hasher, steps: seq<ApiStep>, k: nat)
    requires SoundHasher(h) && k <= |steps|
    ensures Grown(Run(h, steps[..k]).app.identities, Run(h, steps).app.identities)
    decreases |steps|
  {
    if k == |steps| {
      assert steps[..k] == steps;
    } else {
      var init := steps[..|steps| - 1];
      assert steps[..k] == init[..k];
      RunsGrow(h, init, k);
      RunsSound(h, init);
      if Enabled(Run(h, init), steps[|steps| - 1]) {
        NextKeeps(Run(h, init), h, steps[|steps| - 1]);
      }
    }
  }

  /** Step k of a run is a bootstrap that succeeds. */
  ghost predicate BootstrapSucceeds(h: Hasher, steps: seq<ApiStep>, k: nat)
    requires k < |steps|
  {
    var s := Run(h, steps[..k]);
    steps[k].Bootstrap? && Enabled(s, steps[k])
    && BootstrapSection(s.app, h, steps[k].salt, steps[k].id, steps[k].username, steps[k].password, steps[k].now).1.Ok?
  }

  lemma BootstrapCreates(h: Hasher, steps: seq<ApiStep>, i: nat) returns (id: UserId)
    requires SoundHasher(h) && i < |steps| && BootstrapSucceeds(h, steps, i)
    ensures id in Run(h, steps[..i + 1]).app.identities.users
  {
    var before, step := Run(h, steps[..i]), steps[i];
    assert steps[..i + 1][..i] == steps[..i];
    RunsSound(h, steps[..i]);
    BootstrapKeeps(before.app, h, step.salt, step.id, step.username, step.password, step.now);
    id := BootstrapSection(before.app, h, step.salt, step.id, step.username, step.password, step.now).1.value.userId;
  }

  lemma BootstrapNeedsNobody(h: Hasher, steps: seq<ApiStep>, j: nat)
    requires SoundHasher(h) && j < |steps| && BootstrapSucceeds(h, steps, j)
    ensures Run(h, steps[..j]).app.identities.users.Keys == {}
  {
  }

  lemma UsersStay(h: Hasher, steps: seq<ApiStep>, k: nat, n: nat, id: UserId)
    requires SoundHasher(h) && k <= n <= |steps| && id in Run(h, steps[..k]).app.identities.users
    ensures id in Run(h, steps[..n]).app.identities.users
  {
    assert steps[..n][..k] == steps[..k];
    RunsGrow(h, steps[..n], k);
  }

  /** At most one bootstrap of a run succeeds. */
  lemma OneBootstrap(h: Hasher, steps: seq<ApiStep>, k: nat, n: nat)
    requires SoundHasher(h) && k < n < |steps| && BootstrapSucceeds(h, steps, k)
    ensures !BootstrapSucceeds(h, steps, n)
  {
    var id := BootstrapCreates(h, steps, k);
    UsersStay(h, steps, k + 1, n, id);
    if BootstrapSucceeds(h, steps, n) {
      BootstrapNeedsNobody(h, steps, n);
    }
  }
}
