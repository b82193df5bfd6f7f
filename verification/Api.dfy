/** The critical sections of the request handlers, each run under the application's write lock. */
module Api {
  import opened Wrappers
  import opened Numbers
  import opened Text
  import opened Domain
  import opened Ledgers
  import opened Identity
  import opened Audit
  import LedgerRuns

  datatype App = App(ledger: Ledger, identities: Identities, log: Log)

  const NEW_APP := App(EMPTY, NOBODY, NO_ENTRIES)

  /** Every account owner is an existing customer. */
  ghost predicate Owned(accounts: map<AccountId, Account>, customers: map<CustomerId, CustomerRecord>) {
    forall id :: id in accounts && accounts[id].ownerId.Some? ==> accounts[id].ownerId.value in customers
  }

  /** Ledger, identities and log each satisfy the invariant of their runs from the empty state. */
  ghost predicate Coherent(app: App, h: Hasher) {
    && LedgerRuns.Sound(app.ledger)
    && Consistent(app.identities) && HashesFormed(app.identities.users, h)
    && Numbered(app.log)
  }

  datatype ApiError =
    | BadRequest
    | Forbidden
    | Conflict
    | Unauthorized
    | TooManyRequests
    | BankFailure(bank: BankError)
    | IdentityFailure(identity: IdentityError)
    | AuditFailure

  datatype Request =
    | AddCustomer(customerId: CustomerId, fullName: string, email: string)
    | AddUser(userId: UserId, username: string, role: Role, link: Option<CustomerId>, password: string, salt: string)
    | Bank(op: Op)

  /** The bank operations the handlers offer. */
  predicate Offered(op: Op) {
    op.CreateAccount? || op.Deposit? || op.Withdraw? || op.ApplyFee? || op.RequestLoan? || op.PayLoan? || op.Transfer?
  }

  /** Clock readings of one critical section: two for the ledger, one for the audit log. */
  datatype Times = Times(first: u64, second: u64, audit: u64)

  function Authorize(session: Session, permission: Permission): Option<ApiError> {
    if Can(session.role, permission) then None
    else Some(IdentityFailure(PermissionDenied(session.role, permission)))
  }

  /** Staff may move any money, a customer only that of an account linked to the same customer. */
  function MoneyAccess(app: App, session: Session, id: AccountId): Option<ApiError> {
    if Can(session.role, MoveMoney) then None
    else if Authorize(session, MoveOwnMoney).Some? then Authorize(session, MoveOwnMoney)
    else if id !in app.ledger.accounts then Some(BankFailure(AccountNotFound(id)))
    else if app.ledger.accounts[id].ownerId.Some? && app.ledger.accounts[id].ownerId == session.customerId then None
    else Some(Forbidden)
  }

  function AccountTarget(id: AccountId): string {
    "account:" + Decimal(id)
  }

  function ActionOf(op: Op): AuditAction
    requires Offered(op)
  {
    match op
    case CreateAccount(_, _, _, _, _) => AuditAction.CreateAccount
    case Deposit(_, _) => AuditAction.Deposit
    case Withdraw(_, _) => AuditAction.Withdraw
    case ApplyFee(_, _) => AuditAction.Fee
    case RequestLoan(_, _) => AuditAction.LoanRequest
    case PayLoan(_, _) => AuditAction.LoanPayment
    case Transfer(_, _, _) => AuditAction.Transfer
  }

  function TargetOf(op: Op): string {
    if op.Transfer? then AccountTarget(op.id) + "->" + AccountTarget(op.to) else AccountTarget(op.id)
  }

  function MessageOf(op: Op): string
    requires Offered(op)
  {
    match op
    case CreateAccount(_, _, _, _, _) => "account created"
    case Deposit(_, _) => "deposit completed"
    case Withdraw(_, _) => "withdraw completed"
    case ApplyFee(_, _) => "fee applied"
    case RequestLoan(_, _) => "loan requested"
    case PayLoan(_, _) => "loan payment made"
    case Transfer(_, _, _) => "transfer completed"
  }

  function NoteOf(session: Session, op: Op): Note
    requires Offered(op)
  {
    Note(ActorOf(session), ActionOf(op), Success, Some(TargetOf(op)), MessageOf(op))
  }

  // The other audit notes the handlers write.

  const REFUSED_BOOTSTRAP := Note(System, BootstrapAdmin, Failure, None,
                                  "bootstrap attempted after users already exist")

  function FailedBootstrap(id: UserId, error: IdentityError): Note {
    Note(System, BootstrapAdmin, Failure, Some(UserTarget(id)), IdentityMessage(error))
  }

  function BootstrapNote(session: Session): Note {
    Note(ActorOf(session), BootstrapAdmin, Success, Some(UserTarget(session.userId)), "admin bootstrapped")
  }

  function LoginNote(session: Session): Note {
    Note(ActorOf(session), Login, Success, Some(UserTarget(session.userId)), "login succeeded")
  }

  function FailedLogin(username: string, error: IdentityError): Note {
    Note(System, Login, Failure, Some("username:" + username), IdentityMessage(error))
  }

  function LogoutNote(session: Session): Note {
    Note(ActorOf(session), Logout, Success, Some(UserTarget(session.userId)), "logout succeeded")
  }

  function CustomerNote(session: Session, id: CustomerId): Note {
    Note(ActorOf(session), AuditAction.CreateCustomer, Success, Some("customer:" + Decimal(id)), "customer created")
  }

  function UserNote(session: Session, id: UserId): Note {
    Note(ActorOf(session), AuditAction.CreateUser, Success, Some(UserTarget(id)), "user created")
  }

  /** What is checked before the bank is asked, in each handler's order. */
  function Precheck(app: App, session: Session, op: Op): Option<ApiError>
    requires Offered(op)
  {
    match op
    case CreateAccount(_, ownerId, _, _, opening) =>
      if Authorize(session, ManageAccounts).Some? then Authorize(session, ManageAccounts)
      else if ownerId.Some? && ownerId.value !in app.identities.customers
      then Some(IdentityFailure(CustomerNotFound(ownerId.value)))
      else if opening < 0 then Some(BadRequest)
      else None
    case ApplyFee(_, amount) =>
      if Authorize(session, MoveMoney).Some? then Authorize(session, MoveMoney)
      else if amount <= 0 then Some(BadRequest) else None
    case RequestLoan(_, amount) =>
      if Authorize(session, MoveMoney).Some? then Authorize(session, MoveMoney)
      else if amount <= 0 then Some(BadRequest) else None
    case _ =>
      if MoneyAccess(app, session, op.id).Some? then MoneyAccess(app, session, op.id)
      else if op.amount <= 0 then Some(BadRequest) else None
  }

  /** A handler that changed the bank or the identities finishes by recording the success. */
  function Finish(app: App, note: Note, now: u64): (App, Result<(), ApiError>) {
    var (log, entry) := RecordNote(app.log, note, now);
    (app.(log := log), if entry.Ok? then Ok(()) else Err(AuditFailure))
  }

  function BankSection(app: App, session: Session, op: Op, times: Times): (r: (App, Result<(), ApiError>))
    requires Valid(app.ledger) && Offered(op)
    ensures Valid(r.0.ledger)
  {
    if Precheck(app, session, op).Some? then (app, Err(Precheck(app, session, op).value))
    else
      var call := Call(op, times.first, times.second);
      var moved := app.(ledger := Step(app.ledger, call));
      match Answer(app.ledger, call)
      case Err(error) => (moved, Err(BankFailure(error)))
      case Ok(_) => Finish(moved, NoteOf(session, op), times.audit)
  }

  function CustomerSection(app: App, session: Session, id: CustomerId, fullName: string, email: string, now: u64)
    : (App, Result<(), ApiError>)
  {
    if Authorize(session, ManageIdentity).Some? then (app, Err(Authorize(session, ManageIdentity).value))
    else
      var (identities, r) := Identity.CreateCustomer(app.identities, id, fullName, email);
      var grown := app.(identities := identities);
      match r
      case Err(error) => (grown, Err(IdentityFailure(error)))
      case Ok(customer) =>
        Finish(grown, CustomerNote(session, customer.id), now)
  }

  function UserSection(app: App, h: Hasher, session: Session, request: Request, now: u64): (App, Result<(), ApiError>)
    requires request.AddUser?
  {
    if Authorize(session, ManageIdentity).Some? then (app, Err(Authorize(session, ManageIdentity).value))
    else
      var (identities, r) := Identity.CreateUser(app.identities, h, request.salt, request.userId, request.username,
                                                 request.role, request.link, request.password);
      var grown := app.(identities := identities);
      match r
      case Err(error) => (grown, Err(IdentityFailure(error)))
      case Ok(user) =>
        Finish(grown, UserNote(session, user.id), now)
  }

  function UserTarget(id: UserId): string {
    "user:" + Decimal(id)
  }

  /** One request of an authenticated session. */
  function Handle(app: App, h: Hasher, session: Session, request: Request, times: Times)
    : (r: (App, Result<(), ApiError>))
    requires Valid(app.ledger) && (request.Bank? ==> Offered(request.op))
    ensures Valid(r.0.ledger)
  {
    match request
    case AddCustomer(id, fullName, email) => CustomerSection(app, session, id, fullName, email, times.audit)
    case AddUser(_, _, _, _, _, _) => UserSection(app, h, session, request, times.audit)
    case Bank(op) => BankSection(app, session, op, times)
  }

  /** The first administrator; refused, but recorded, once there are users. */
  function BootstrapSection(app: App, h: Hasher, salt: string, id: UserId, username: string, password: string, now: u64)
    : (App, Result<Session, ApiError>)
  {
    if app.identities.users.Keys != {} then
      var refused := REFUSED_BOOTSTRAP;
      var (after, recorded) := Finish(app, refused, now);
      (after, Err(if recorded.Ok? then Conflict else AuditFailure))
    else
      var (identities, r) := Identity.CreateUser(app.identities, h, salt, id, username, Admin, None, password);
      var grown := app.(identities := identities);
      match r
      case Err(error) =>
        var (after, recorded) := Finish(grown, FailedBootstrap(id, error), now);
        (after, Err(if recorded.Ok? then IdentityFailure(error) else AuditFailure))
      case Ok(_) =>
        match Identity.Authenticate(identities, h, username, password)
        case Err(error) => (grown, Err(IdentityFailure(error)))
        case Ok(session) =>
          var (after, recorded) := Finish(grown, BootstrapNote(session), now);
          (after, if recorded.Ok? then Ok(session) else Err(AuditFailure))
  }

  /** The display text of an identity error; only its being a text matters here. */
  function IdentityMessage(error: IdentityError): string {
    match error
    case InvalidCredentials => "invalid username or password"
    case PasswordTooWeak => "password must be at least 8 characters long"
    case RoleRequiresCustomer => "customer users require a customer id"
    case RoleCannotHaveCustomer => "staff users cannot be linked to a customer id"
    case CustomerAlreadyExists(id) => "customer " + Decimal(id) + " already exists"
    case CustomerNotFound(id) => "customer " + Decimal(id) + " was not found"
    case UserAlreadyExists(id) => "user " + Decimal(id) + " already exists"
    case UserNotFound(id) => "user " + Decimal(id) + " was not found"
    case UsernameAlreadyExists(name) => "username " + name + " already exists"
    case InvalidProfileField(field) => field + " is invalid"
    case PermissionDenied(_, _) => "permission denied"
    case PasswordHash => "password hashing failed"
  }

  /** The second half of a login: verify the password and record the outcome. */
  function LoginSection(app: App, h: Hasher, username: string, password: string, now: u64)
    : (App, Result<Session, ApiError>)
  {
    match Identity.Authenticate(app.identities, h, username, password)
    case Ok(session) =>
      var (after, recorded) := Finish(app, LoginNote(session), now);
      (after, if recorded.Ok? then Ok(session) else Err(AuditFailure))
    case Err(error) =>
      var (after, recorded) := Finish(app, FailedLogin(username, error), now);
      (after, Err(if recorded.Ok? then IdentityFailure(error) else AuditFailure))
  }

  function LogoutSection(app: App, session: Session, now: u64): (App, Result<(), ApiError>) {
    Finish(app, LogoutNote(session), now)
  }
}
