/** When each handler succeeds, what it then leaves and what it answers otherwise, in the caller's terms. */
module ApiOutcomes {
  import opened Wrappers
  import opened Numbers
  import opened Text
  import opened Domain
  import opened Ledgers
  import opened Identity
  import opened IdentityLaws
  import opened Audit
  import opened Api
  import LedgerOutcomes

  // ---- Money and accounts ---------------------------------------------------------------------

  predicate Staff(role: Role) {
    role == Role.Teller || role == Role.Admin
  }

  /** The account is linked to the customer of the session. */
  predicate Owns(app: App, session: Session, id: AccountId) {
    && id in app.ledger.accounts
    && app.ledger.accounts[id].ownerId.Some? && app.ledger.accounts[id].ownerId == session.customerId
  }

  /** Who may ask for what. */
  predicate Entitled(app: App, session: Session, op: Op) {
    match op
    case CreateAccount(_, ownerId, _, _, _) =>
      Staff(session.role) && (ownerId.Some? ==> ownerId.value in app.identities.customers)
    case ApplyFee(_, _) | RequestLoan(_, _) => Staff(session.role)
    case _ => Staff(session.role) || Owns(app, session, op.id)
  }

  /** What somebody who is not entitled is told. */
  function Denial(app: App, session: Session, op: Op): ApiError
    requires Offered(op) && !Entitled(app, session, op)
  {
    match op
    case CreateAccount(_, ownerId, _, _, _) =>
      if session.role == Role.Customer then IdentityFailure(PermissionDenied(session.role, ManageAccounts))
      else IdentityFailure(CustomerNotFound(ownerId.value))
    case ApplyFee(_, _) | RequestLoan(_, _) => IdentityFailure(PermissionDenied(session.role, MoveMoney))
    case _ => if op.id in app.ledger.accounts then Forbidden else BankFailure(AccountNotFound(op.id))
  }

  predicate AmountAccepted(op: Op)
    requires Offered(op)
  {
    match op
    case CreateAccount(_, _, _, _, opening) => opening >= 0
    case _ => op.amount > 0
  }

  /** The audit entry of a success. */
  function SuccessEntry(session: Session, op: Op, id: u64, now: u64): AuditEntry
    requires Offered(op)
  {
    var actor := UserActor(session.userId, session.username, session.role);
    var account := "account:" + Decimal(op.id);
    match op
    case CreateAccount(_, _, _, _, _) =>
      AuditEntry(id, now, actor, AuditAction.CreateAccount, Success, Some(account), "account created")
    case Deposit(_, _) =>
      AuditEntry(id, now, actor, AuditAction.Deposit, Success, Some(account), "deposit completed")
    case Withdraw(_, _) =>
      AuditEntry(id, now, actor, AuditAction.Withdraw, Success, Some(account), "withdraw completed")
    case ApplyFee(_, _) => AuditEntry(id, now, actor, AuditAction.Fee, Success, Some(account), "fee applied")
    case RequestLoan(_, _) =>
      AuditEntry(id, now, actor, AuditAction.LoanRequest, Success, Some(account), "loan requested")
    case PayLoan(_, _) =>
      AuditEntry(id, now, actor, AuditAction.LoanPayment, Success, Some(account), "loan payment made")
    case Transfer(_, to, _) =>
      AuditEntry(id, now, actor, AuditAction.Transfer, Success, Some(account + "->account:" + Decimal(to)),
                 "transfer completed")
  }

  /** The log with the entry, and whether there was an id for it. */
  ghost predicate Logged(app: App, after: App, r: Result<(), ApiError>, entry: AuditEntry) {
    && after.ledger == app.ledger && after.identities == app.identities
    && if app.log.nextId < U64_MAX
       then after.log == Log(app.log.entries + [entry], app.log.nextId + 1) && r == Ok(())
       else after.log == app.log && r == Err(AuditFailure)
  }

  lemma FinishLogs(app: App, note: Note, now: u64)
    ensures Logged(app, Finish(app, note, now).0, Finish(app, note, now).1,
                   AuditEntry(app.log.nextId, now, note.actor, note.action, note.outcome, note.target, note.message))
  {
  }

  lemma NoteIsSuccess(session: Session, op: Op, id: u64, now: u64)
    requires Offered(op)
    ensures EntryOf(NoteOf(session, op), id, now) == SuccessEntry(session, op, id, now)
  {
    assert ("account:" + Decimal(op.id)) + "->" + AccountTarget(if op.Transfer? then op.to else 0)
        == ("account:" + Decimal(op.id)) + "->account:" + Decimal(if op.Transfer? then op.to else 0);
  }

  lemma PrecheckMeans(app: App, session: Session, op: Op)
    requires Offered(op)
    ensures Precheck(app, session, op) ==
            if !Entitled(app, session, op) then Some(Denial(app, session, op))
            else if !AmountAccepted(op) then Some(BadRequest)
            else None
  {
  }

  lemma BankSectionLeaves(app: App, session: Session, op: Op, times: Times)
    requires Valid(app.ledger) && Offered(op) && Precheck(app, session, op).None?
    ensures var (call, after) := (Call(op, times.first, times.second), BankSection(app, session, op, times));
            var moved := app.(ledger := Step(app.ledger, call));
            after == match Answer(app.ledger, call)
                     case Err(error) => (moved, Err(BankFailure(error)))
                     case Ok(_) => Finish(moved, NoteOf(session, op), times.audit)
  {
  }

  /**
   * A request that is not entitled, or asks for a wrong amount, changes nothing and is told so. Any other
   * reaches the bank: the ledger makes its step, a refusal of the bank is passed on, a success is logged.
   */
  lemma BankSectionExact(app: App, session: Session, op: Op, times: Times)
    requires Valid(app.ledger) && Offered(op)
    ensures var (after, r) := BankSection(app, session, op, times);
            var call := Call(op, times.first, times.second);
            if !Entitled(app, session, op) then after == app && r == Err(Denial(app, session, op))
            else if !AmountAccepted(op) then after == app && r == Err(BadRequest)
            else
              var moved := app.(ledger := Step(app.ledger, call));
              match Answer(app.ledger, call)
              case Err(error) => after == moved && r == Err(BankFailure(error))
              case Ok(_) => Logged(moved, after, r, SuccessEntry(session, op, app.log.nextId, times.audit))
  {
    PrecheckMeans(app, session, op);
    if Precheck(app, session, op).None? {
      var call := Call(op, times.first, times.second);
      var moved := app.(ledger := Step(app.ledger, call));
      BankSectionLeaves(app, session, op, times);
      FinishLogs(moved, NoteOf(session, op), times.audit);
      NoteIsSuccess(session, op, app.log.nextId, times.audit);
    }
  }

  /** A request succeeds iff its session is entitled, the bank's conditions hold and an audit id is left. */
  lemma BankSectionSucceedsIff(app: App, session: Session, op: Op, times: Times)
    requires Valid(app.ledger) && Offered(op)
    ensures BankSection(app, session, op, times).1.Ok? <==>
            Entitled(app, session, op) && LedgerOutcomes.Allowed(app.ledger, op) && app.log.nextId < U64_MAX
    ensures !Entitled(app, session, op) ==> BankSection(app, session, op, times).0 == app
  {
    BankSectionExact(app, session, op, times);
    LedgerOutcomes.SucceedsIff(app.ledger, Call(op, times.first, times.second));
    AllowedAmount(app.ledger, op);
  }

  lemma AllowedAmount(l: Ledger, op: Op)
    requires Offered(op)
    ensures LedgerOutcomes.Allowed(l, op) ==> AmountAccepted(op)
  {
  }

  // ---- Customers and users --------------------------------------------------------------------

  function StaffEntry(session: Session, action: AuditAction, target: string, message: string, id: u64,
                      now: u64): AuditEntry
  {
    AuditEntry(id, now, UserActor(session.userId, session.username, session.role), action, Success, Some(target),
               message)
  }

  /** Only an administrator creates customers, and then iff the creation is possible; a success is logged. */
  lemma CustomerSectionExact(app: App, session: Session, id: CustomerId, fullName: string, email: string, now: u64)
    ensures var (after, r) := CustomerSection(app, session, id, fullName, email, now);
            if session.role != Role.Admin then
              after == app && r == Err(IdentityFailure(PermissionDenied(session.role, ManageIdentity)))
            else if !CustomerCreatable(app.identities, id, fullName, email) then
              after == app && r == Err(IdentityFailure(CustomerError(app.identities, id, fullName)))
            else
              var customer := CustomerRecord(id, Trim(fullName), NameKey(email));
              var grown := app.(identities := app.identities.(customers := app.identities.customers[id := customer]));
              Logged(grown, after, r, StaffEntry(session, AuditAction.CreateCustomer, "customer:" + Decimal(id),
                                                 "customer created", app.log.nextId, now))
  {
    CreateCustomerIff(app.identities, id, fullName, email);
    var grown := app.(identities := Identity.CreateCustomer(app.identities, id, fullName, email).0);
    FinishLogs(grown, CustomerNote(session, id), now);
  }

  function AsOp(request: Request): IdentityOp
    requires request.AddUser?
  {
    NewUser(request.salt, request.userId, request.username, request.role, request.link, request.password)
  }

  lemma UserSectionIs(app: App, h: Hasher, session: Session, request: Request, now: u64)
    requires request.AddUser?
    ensures var (identities, created) := Created(app.identities, h, AsOp(request));
            UserSection(app, h, session, request, now) ==
            if session.role != Role.Admin
            then (app, Err(IdentityFailure(PermissionDenied(session.role, ManageIdentity))))
            else match created
              case Err(error) => (app.(identities := identities), Err(IdentityFailure(error)))
              case Ok(user) => Finish(app.(identities := identities), UserNote(session, user.id), now)
  {
  }

  /** Only an administrator creates users, and then iff the creation is possible; a success is logged. */
  lemma UserSectionExact(app: App, h: Hasher, session: Session, request: Request, now: u64)
    requires Consistent(app.identities) && request.AddUser?
    ensures var (after, r) := UserSection(app, h, session, request, now);
            var u := AsOp(request);
            if session.role != Role.Admin then
              after == app && r == Err(IdentityFailure(PermissionDenied(session.role, ManageIdentity)))
            else if !Creatable(app.identities, h, u) then
              after == app && r == Err(IdentityFailure(CreationError(app.identities, u)))
            else
              Logged(app.(identities := WithUser(app.identities, h, u)), after, r,
                     StaffEntry(session, AuditAction.CreateUser, "user:" + Decimal(u.userId), "user created",
                                app.log.nextId, now))
  {
    var u := AsOp(request);
    CreateUserIff(app.identities, h, u);
    UserSectionIs(app, h, session, request, now);
    FinishLogs(app.(identities := Created(app.identities, h, u).0), UserNote(session, u.userId), now);
  }

  // ---- Login, logout, bootstrap ---------------------------------------------------------------

  /** A login or bootstrap that has been recorded: a session if it was a success and there was an audit id. */
  ghost predicate LoggedSession(app: App, after: App, r: Result<Session, ApiError>, entry: AuditEntry,
                                outcome: Result<Session, ApiError>)
  {
    && after.ledger == app.ledger && after.identities == app.identities
    && if app.log.nextId < U64_MAX
       then after.log == Log(app.log.entries + [entry], app.log.nextId + 1) && r == outcome
       else after.log == app.log && r == Err(AuditFailure)
  }

  function LoginEntry(session: Session, id: u64, now: u64): AuditEntry {
    AuditEntry(id, now, UserActor(session.userId, session.username, session.role), Login, Success,
               Some("user:" + Decimal(session.userId)), "login succeeded")
  }

  function FailedLoginEntry(username: string, id: u64, now: u64): AuditEntry {
    AuditEntry(id, now, System, Login, Failure, Some("username:" + username),
               if NormalizeUsername(username).Some? then "invalid username or password" else "username is invalid")
  }

  lemma LoginSectionIs(app: App, h: Hasher, username: string, password: string, now: u64)
    ensures var (after, r) := LoginSection(app, h, username, password, now);
            match Identity.Authenticate(app.identities, h, username, password)
            case Ok(session) =>
              LoggedSession(app, after, r, EntryOf(LoginNote(session), app.log.nextId, now), Ok(session))
            case Err(error) =>
              LoggedSession(app, after, r, EntryOf(FailedLogin(username, error), app.log.nextId, now),
                            Err(IdentityFailure(error)))
  {
  }

  lemma LoginSucceeds(app: App, h: Hasher, id: UserId, username: string, password: string, now: u64)
    requires Consistent(app.identities) && HashesFormed(app.identities.users, h)
    requires Matches(app.identities, h, id, username, password)
    ensures var (after, r) := LoginSection(app, h, username, password, now);
            var user := app.identities.users[id];
            var session := Session(id, user.username, user.role, user.customerId);
            LoggedSession(app, after, r, LoginEntry(session, app.log.nextId, now), Ok(session))
  {
    LoginIff(app.identities, h, username, password);
    LoginSectionIs(app, h, username, password, now);
  }

  /** Why a login fails. */
  function LoginFault(username: string): IdentityError {
    if NormalizeUsername(username).Some? then InvalidCredentials else IdentityError.InvalidProfileField("username")
  }

  lemma FaultIsLogged(username: string, id: u64, now: u64)
    ensures EntryOf(FailedLogin(username, LoginFault(username)), id, now) == FailedLoginEntry(username, id, now)
  {
    assert "username" + " is invalid" == "username is invalid";
  }

  lemma LoginFails(app: App, h: Hasher, username: string, password: string, now: u64)
    requires Consistent(app.identities) && HashesFormed(app.identities.users, h)
    requires !CanLogIn(app.identities, h, username, password)
    ensures var (after, r) := LoginSection(app, h, username, password, now);
            LoggedSession(app, after, r, FailedLoginEntry(username, app.log.nextId, now),
                          Err(IdentityFailure(LoginFault(username))))
  {
    LoginIff(app.identities, h, username, password);
    UsernameAccepted(username);
    FaultIsLogged(username, app.log.nextId, now);
    LoginSectionIs(app, h, username, password, now);
  }

  /**
   * A login gives a session iff name and password are those of a user, whose session it then is, and an
   * audit id is left. A wrong name or password gives none, and is logged as a failure.
   */
  lemma LoginSectionExact(app: App, h: Hasher, username: string, password: string, now: u64)
    requires Consistent(app.identities) && HashesFormed(app.identities.users, h)
    ensures var (after, r) := LoginSection(app, h, username, password, now);
            && (r.Ok? <==> CanLogIn(app.identities, h, username, password) && app.log.nextId < U64_MAX)
            && (forall id :: Matches(app.identities, h, id, username, password) ==>
                  var user := app.identities.users[id];
                  var session := Session(id, user.username, user.role, user.customerId);
                  LoggedSession(app, after, r, LoginEntry(session, app.log.nextId, now), Ok(session)))
            && (!CanLogIn(app.identities, h, username, password) ==>
                  LoggedSession(app, after, r, FailedLoginEntry(username, app.log.nextId, now),
                                Err(IdentityFailure(LoginFault(username)))))
  {
    forall id | Matches(app.identities, h, id, username, password)
      ensures var (after, r) := LoginSection(app, h, username, password, now);
              var user := app.identities.users[id];
              var session := Session(id, user.username, user.role, user.customerId);
              LoggedSession(app, after, r, LoginEntry(session, app.log.nextId, now), Ok(session))
    {
      LoginSucceeds(app, h, id, username, password, now);
    }
    if !CanLogIn(app.identities, h, username, password) {
      LoginFails(app, h, username, password, now);
    }
  }

  /** A logout is logged under the name of its session. */
  lemma LogoutSectionExact(app: App, session: Session, now: u64)
    ensures var (after, r) := LogoutSection(app, session, now);
            Logged(app, after, r, StaffEntry(session, Logout, "user:" + Decimal(session.userId), "logout succeeded",
                                             app.log.nextId, now))
  {
    FinishLogs(app, LogoutNote(session), now);
  }

  const REFUSAL_MESSAGE := "bootstrap attempted after users already exist"

  function FirstAdmin(salt: string, id: UserId, username: string, password: string): IdentityOp {
    NewUser(salt, id, username, Admin, None, password)
  }

  lemma BootstrapIs(app: App, h: Hasher, salt: string, id: UserId, username: string, password: string, now: u64)
    ensures var (after, r) := BootstrapSection(app, h, salt, id, username, password, now);
            var (identities, created) := Created(app.identities, h, FirstAdmin(salt, id, username, password));
            var grown := app.(identities := identities);
            if app.identities.users.Keys != {} then
              LoggedSession(app, after, r, EntryOf(REFUSED_BOOTSTRAP, app.log.nextId, now), Err(Conflict))
            else match created
              case Err(error) =>
                LoggedSession(grown, after, r, EntryOf(FailedBootstrap(id, error), app.log.nextId, now),
                              Err(IdentityFailure(error)))
              case Ok(_) =>
                match Identity.Authenticate(identities, h, username, password)
                case Err(error) => after == grown && r == Err(IdentityFailure(error))
                case Ok(session) =>
                  LoggedSession(grown, after, r, EntryOf(BootstrapNote(session), app.log.nextId, now), Ok(session))
  {
  }

  /**
   * A bootstrap is refused once there is a user. Before, it makes the administrator asked for, whose
   * session it gives, iff that creation is possible; every attempt is logged.
   */
  lemma BootstrapExact(app: App, h: Hasher, salt: string, id: UserId, username: string, password: string, now: u64)
    requires Consistent(app.identities) && HashesFormed(app.identities.users, h) && SoundHasher(h)
    ensures var (after, r) := BootstrapSection(app, h, salt, id, username, password, now);
            var (u, target, n) := (FirstAdmin(salt, id, username, password), Some("user:" + Decimal(id)),
                                   app.log.nextId);
            if app.identities.users != map[] then
              LoggedSession(app, after, r, AuditEntry(n, now, System, BootstrapAdmin, Failure, None, REFUSAL_MESSAGE),
                            Err(Conflict))
            else if !Creatable(app.identities, h, u) then
              var error := CreationError(app.identities, u);
              LoggedSession(app, after, r,
                            AuditEntry(n, now, System, BootstrapAdmin, Failure, target, IdentityMessage(error)),
                            Err(IdentityFailure(error)))
            else
              var session := Session(id, NameKey(username), Admin, None);
              LoggedSession(app.(identities := WithUser(app.identities, h, u)), after, r,
                            AuditEntry(n, now, UserActor(id, NameKey(username), Admin), BootstrapAdmin, Success, target,
                                       "admin bootstrapped"),
                            Ok(session))
  {
    var u := FirstAdmin(salt, id, username, password);
    assert app.identities.users == map[] <==> app.identities.users.Keys == {};
    CreateUserIff(app.identities, h, u);
    BootstrapIs(app, h, salt, id, username, password, now);
    if Creatable(app.identities, h, u) {
      OnlyItsPassword(app.identities, h, u, username, password);
    }
  }
}
