/** The relational form of the application state: rows, constraints, writing and reading. */
module Sqlite {
  import opened Wrappers
  import opened Numbers
  import opened Rows
  import opened Domain
  import opened Identity
  import opened Audit
  import opened Api
  import opened Storage

  datatype StoreError =
    | ConstraintViolation
    | TableExists
    | NoSuchTable
    | Invalid(storage: StorageError)
    | MissingState
    | UnsupportedSchemaVersion(version: int)
    | InvalidInteger(field: string, value: int)
    | IntegerOverflow(field: string, value: int)
    | InvalidEnumValue(field: string, text: string)
    | MissingUserActorFields(auditId: u64)

  // ---- Column conversions ---------------------------------------------------------------------

  function ToI64(field: string, value: u64): Result<int, StoreError> {
    if value <= I64_MAX then Ok(value) else Err(IntegerOverflow(field, value))
  }

  function ToU32(field: string, value: int): Result<u32, StoreError> {
    if 0 <= value <= U32_MAX then Ok(value) else Err(InvalidInteger(field, value))
  }

  function ToU64(field: string, value: int): Result<u64, StoreError> {
    if 0 <= value <= U64_MAX then Ok(value) else Err(InvalidInteger(field, value))
  }

  function OptionalToU32(field: string, value: Option<int>): Result<Option<u32>, StoreError> {
    match value
    case None => Ok(None)
    case Some(v) => var id :- ToU32(field, v); Ok(Some(id))
  }

  function OptionalInt(value: Option<u32>): Option<int> {
    match value
    case None => None
    case Some(v) => Some(v)
  }

  function RoleText(role: Role): string {
    match role
    case Customer => "customer"
    case Teller => "teller"
    case Admin => "admin"
  }

  function RoleFrom(field: string, text: string): Result<Role, StoreError> {
    match text
    case "customer" => Ok(Role.Customer)
    case "teller" => Ok(Role.Teller)
    case "admin" => Ok(Role.Admin)
    case _ => Err(InvalidEnumValue(field, text))
  }

  function StatusText(status: AccountStatus): string {
    match status
    case Active => "active"
    case Inactive => "inactive"
    case Closed => "closed"
  }

  function StatusFrom(field: string, text: string): Result<AccountStatus, StoreError> {
    match text
    case "active" => Ok(AccountStatus.Active)
    case "inactive" => Ok(AccountStatus.Inactive)
    case "closed" => Ok(AccountStatus.Closed)
    case _ => Err(InvalidEnumValue(field, text))
  }

  function KindText(kind: TransactionKind): string {
    match kind
    case AccountCreated => "account_created"
    case Deposit => "deposit"
    case Withdrawal => "withdrawal"
    case TransferIn => "transfer_in"
    case TransferOut => "transfer_out"
    case Fee => "fee"
    case Interest => "interest"
    case LoanRequested => "loan_requested"
    case LoanPayment => "loan_payment"
    case ProfileUpdated => "profile_updated"
    case Activated => "activated"
    case Deactivated => "deactivated"
    case Closed => "closed"
  }

  function KindFrom(field: string, text: string): Result<TransactionKind, StoreError> {
    match text
    case "account_created" => Ok(TransactionKind.AccountCreated)
    case "deposit" => Ok(TransactionKind.Deposit)
    case "withdrawal" => Ok(TransactionKind.Withdrawal)
    case "transfer_in" => Ok(TransactionKind.TransferIn)
    case "transfer_out" => Ok(TransactionKind.TransferOut)
    case "fee" => Ok(TransactionKind.Fee)
    case "interest" => Ok(TransactionKind.Interest)
    case "loan_requested" => Ok(TransactionKind.LoanRequested)
    case "loan_payment" => Ok(TransactionKind.LoanPayment)
    case "profile_updated" => Ok(TransactionKind.ProfileUpdated)
    case "activated" => Ok(TransactionKind.Activated)
    case "deactivated" => Ok(TransactionKind.Deactivated)
    case "closed" => Ok(TransactionKind.Closed)
    case _ => Err(InvalidEnumValue(field, text))
  }

  function ActionText(action: AuditAction): string {
    match action
    case BootstrapAdmin => "bootstrap_admin"
    case Login => "login"
    case Logout => "logout"
    case CreateCustomer => "create_customer"
    case CreateUser => "create_user"
    case CreateAccount => "create_account"
    case UpdateAccountProfile => "update_account_profile"
    case ActivateAccount => "activate_account"
    case DeactivateAccount => "deactivate_account"
    case CloseAccount => "close_account"
    case DeleteAccount => "delete_account"
    case Deposit => "deposit"
    case Withdraw => "withdraw"
    case Transfer => "transfer"
    case Fee => "fee"
    case Interest => "interest"
    case LoanRequest => "loan_request"
    case LoanPayment => "loan_payment"
    case SaveState => "save_state"
    case LoadState => "load_state"
    case ExportStatement => "export_statement"
  }

  function ActionFrom(field: string, text: string): Result<AuditAction, StoreError> {
    match text
    case "bootstrap_admin" => Ok(AuditAction.BootstrapAdmin)
    case "login" => Ok(AuditAction.Login)
    case "logout" => Ok(AuditAction.Logout)
    case "create_customer" => Ok(AuditAction.CreateCustomer)
    case "create_user" => Ok(AuditAction.CreateUser)
    case "create_account" => Ok(AuditAction.CreateAccount)
    case "update_account_profile" => Ok(AuditAction.UpdateAccountProfile)
    case "activate_account" => Ok(AuditAction.ActivateAccount)
    case "deactivate_account" => Ok(AuditAction.DeactivateAccount)
    case "close_account" => Ok(AuditAction.CloseAccount)
    case "delete_account" => Ok(AuditAction.DeleteAccount)
    case "deposit" => Ok(AuditAction.Deposit)
    case "withdraw" => Ok(AuditAction.Withdraw)
    case "transfer" => Ok(AuditAction.Transfer)
    case "fee" => Ok(AuditAction.Fee)
    case "interest" => Ok(AuditAction.Interest)
    case "loan_request" => Ok(AuditAction.LoanRequest)
    case "loan_payment" => Ok(AuditAction.LoanPayment)
    case "save_state" => Ok(AuditAction.SaveState)
    case "load_state" => Ok(AuditAction.LoadState)
    case "export_statement" => Ok(AuditAction.ExportStatement)
    case _ => Err(InvalidEnumValue(field, text))
  }

  function OutcomeText(outcome: AuditOutcome): string {
    match outcome
    case Success => "success"
    case Failure => "failure"
  }

  function OutcomeFrom(field: string, text: string): Result<AuditOutcome, StoreError> {
    match text
    case "success" => Ok(AuditOutcome.Success)
    case "failure" => Ok(AuditOutcome.Failure)
    case _ => Err(InvalidEnumValue(field, text))
  }

  /** Every enumeration value is read back from its own text. */
  lemma EnumsRoundTrip(role: Role, status: AccountStatus, outcome: AuditOutcome, field: string)
    ensures RoleFrom(field, RoleText(role)) == Ok(role)
    ensures StatusFrom(field, StatusText(status)) == Ok(status)
    ensures OutcomeFrom(field, OutcomeText(outcome)) == Ok(outcome)
  {
  }

  lemma KindRoundTrip(kind: TransactionKind, field: string)
    ensures KindFrom(field, KindText(kind)) == Ok(kind)
  {
  }

  predicate IsIdentityAction(action: AuditAction) {
    action.BootstrapAdmin? || action.Login? || action.Logout? || action.CreateCustomer? || action.CreateUser?
    || action.CreateAccount?
  }

  lemma IdentityActionRoundTrip(action: AuditAction, field: string)
    requires IsIdentityAction(action)
    ensures ActionFrom(field, ActionText(action)) == Ok(action)
  {
  }

  predicate IsAccountAction(action: AuditAction) {
    action.UpdateAccountProfile? || action.ActivateAccount? || action.DeactivateAccount? || action.CloseAccount?
    || action.DeleteAccount? || action.SaveState? || action.LoadState? || action.ExportStatement?
  }

  lemma AccountActionRoundTrip(action: AuditAction, field: string)
    requires IsAccountAction(action)
    ensures ActionFrom(field, ActionText(action)) == Ok(action)
  {
  }

  lemma MoneyActionRoundTrip(action: AuditAction, field: string)
    requires !IsIdentityAction(action) && !IsAccountAction(action)
    ensures ActionFrom(field, ActionText(action)) == Ok(action)
  {
  }

  lemma ActionRoundTrip(action: AuditAction, field: string)
    ensures ActionFrom(field, ActionText(action)) == Ok(action)
  {
    if IsIdentityAction(action) {
      IdentityActionRoundTrip(action, field);
    } else if IsAccountAction(action) {
      AccountActionRoundTrip(action, field);
    } else {
      MoneyActionRoundTrip(action, field);
    }
  }

  // ---- Which texts are stored -----------------------------------------------------------------

  /** The texts of the file format. */
  lemma EnumTexts()
    ensures RoleText(Role.Customer) == "customer" && RoleText(Teller) == "teller"
    ensures RoleText(Admin) == "admin" && StatusText(AccountStatus.Active) == "active"
    ensures StatusText(Inactive) == "inactive" && StatusText(AccountStatus.Closed) == "closed"
    ensures OutcomeText(Success) == "success" && OutcomeText(Failure) == "failure"
  {
  }

  lemma KindTexts()
    ensures KindText(AccountCreated) == "account_created" && KindText(TransactionKind.Deposit) == "deposit"
    ensures KindText(Withdrawal) == "withdrawal" && KindText(TransferIn) == "transfer_in"
    ensures KindText(TransferOut) == "transfer_out" && KindText(TransactionKind.Fee) == "fee"
    ensures KindText(TransactionKind.Interest) == "interest" && KindText(LoanRequested) == "loan_requested"
    ensures KindText(TransactionKind.LoanPayment) == "loan_payment" && KindText(ProfileUpdated) == "profile_updated"
    ensures KindText(Activated) == "activated" && KindText(Deactivated) == "deactivated"
    ensures KindText(TransactionKind.Closed) == "closed"
  {
  }

  lemma ActionTexts()
    ensures ActionText(BootstrapAdmin) == "bootstrap_admin" && ActionText(Login) == "login"
    ensures ActionText(Logout) == "logout" && ActionText(AuditAction.CreateCustomer) == "create_customer"
    ensures ActionText(AuditAction.CreateUser) == "create_user"
    ensures ActionText(AuditAction.CreateAccount) == "create_account"
    ensures ActionText(UpdateAccountProfile) == "update_account_profile"
    ensures ActionText(AuditAction.ActivateAccount) == "activate_account"
    ensures ActionText(AuditAction.DeactivateAccount) == "deactivate_account"
    ensures ActionText(AuditAction.CloseAccount) == "close_account"
    ensures ActionText(AuditAction.DeleteAccount) == "delete_account" && ActionText(AuditAction.Deposit) == "deposit"
    ensures ActionText(AuditAction.Withdraw) == "withdraw" && ActionText(AuditAction.Transfer) == "transfer"
    ensures ActionText(AuditAction.Fee) == "fee" && ActionText(AuditAction.Interest) == "interest"
    ensures ActionText(LoanRequest) == "loan_request" && ActionText(AuditAction.LoanPayment) == "loan_payment"
    ensures ActionText(SaveState) == "save_state" && ActionText(LoadState) == "load_state"
    ensures ActionText(ExportStatement) == "export_statement"
  {
  }

  /** A text is read as a role, status or outcome iff it is stored for it; any other text is refused by name. */
  lemma EnumsExact(field: string, text: string, role: Role, status: AccountStatus, outcome: AuditOutcome)
    ensures RoleFrom(field, text) == Ok(role) <==> RoleText(role) == text
    ensures StatusFrom(field, text) == Ok(status) <==> StatusText(status) == text
    ensures OutcomeFrom(field, text) == Ok(outcome) <==> OutcomeText(outcome) == text
    ensures RoleFrom(field, text).Err? ==> RoleFrom(field, text) == Err(InvalidEnumValue(field, text))
    ensures StatusFrom(field, text).Err? ==> StatusFrom(field, text) == Err(InvalidEnumValue(field, text))
    ensures OutcomeFrom(field, text).Err? ==> OutcomeFrom(field, text) == Err(InvalidEnumValue(field, text))
  {
    EnumsRoundTrip(role, status, outcome, field);
  }

  lemma KindExact(field: string, text: string, kind: TransactionKind)
    ensures KindFrom(field, text) == Ok(kind) <==> KindText(kind) == text
    ensures KindFrom(field, text).Err? ==> KindFrom(field, text) == Err(InvalidEnumValue(field, text))
  {
    KindRoundTrip(kind, field);
  }

  lemma ActionExact(field: string, text: string, action: AuditAction)
    ensures ActionFrom(field, text) == Ok(action) <==> ActionText(action) == text
    ensures ActionFrom(field, text).Err? ==> ActionFrom(field, text) == Err(InvalidEnumValue(field, text))
  {
    ActionRoundTrip(action, field);
  }

  // ---- Rows -----------------------------------------------------------------------------------

  datatype CustomerCols = CustomerCols(fullName: string, email: string)
  datatype UserCols = UserCols(username: string, role: string, customerId: Option<int>, passwordHash: string)
  datatype AccountCols = AccountCols(ownerId: Option<int>, name: string, email: string, balance: i64, loanBalance: i64,
                                     status: string)
  datatype TransactionCols = TransactionCols(accountId: int, occurredAt: int, kind: string, amount: i64,
                                             description: string)
  datatype AuditCols = AuditCols(
    occurredAt: int, actorKind: string, actorUserId: Option<int>, actorUsername: Option<string>,
    actorRole: Option<string>,
    action: string, outcome: string, target: Option<string>, message: string)

  /** The normalized tables; rows are kept in insertion order and always read back ordered by key. */
  datatype Tables = Tables(
    customers: seq<Row<CustomerCols>>,
    users: seq<Row<UserCols>>,
    accounts: seq<Row<AccountCols>>,
    transactions: seq<Row<TransactionCols>>,
    audit: seq<Row<AuditCols>>)

  const NO_ROWS := Tables([], [], [], [], [])

  function CustomerRow(c: CustomerRecord): Row<CustomerCols> {
    Row(c.id, CustomerCols(c.fullName, c.email))
  }

  function UserRow(u: User): Row<UserCols> {
    Row(u.id, UserCols(u.username, RoleText(u.role), OptionalInt(u.customerId), u.passwordHash))
  }

  function AccountRow(a: Account): Row<AccountCols> {
    Row(a.id, AccountCols(OptionalInt(a.ownerId), a.name, a.email, a.balance, a.loanBalance, StatusText(a.status)))
  }

  function TransactionRow(account: AccountId, t: Transaction): Row<TransactionCols> {
    Row(t.id, TransactionCols(account, t.occurredAt, KindText(t.kind), t.amount, t.description))
  }

  function AuditRow(e: AuditEntry): Row<AuditCols> {
    match e.actor
    case System =>
      Row(e.id, AuditCols(e.occurredAt, "system", None, None, None, ActionText(e.action), OutcomeText(e.outcome),
                          e.target, e.message))
    case UserActor(userId, username, role) =>
      Row(e.id, AuditCols(e.occurredAt, "user", Some(userId), Some(username), Some(RoleText(role)),
                          ActionText(e.action), OutcomeText(e.outcome), e.target, e.message))
  }

  // ---- Decoding -------------------------------------------------------------------------------

  function DecodeCustomer(row: Row<CustomerCols>): Result<CustomerRecord, StoreError> {
    var id :- ToU32("customers.id", row.id);
    Ok(CustomerRecord(id, row.cols.fullName, row.cols.email))
  }

  function DecodeUser(row: Row<UserCols>): Result<User, StoreError> {
    var id :- ToU32("users.id", row.id);
    var role :- RoleFrom("users.role", row.cols.role);
    var customerId :- OptionalToU32("users.customer_id", row.cols.customerId);
    Ok(User(id, row.cols.username, role, customerId, row.cols.passwordHash))
  }

  function DecodeTransaction(row: Row<TransactionCols>): Result<Transaction, StoreError> {
    var id :- ToU64("transactions.id", row.id);
    var occurredAt :- ToU64("transactions.occurred_at_epoch_seconds", row.cols.occurredAt);
    var kind :- KindFrom("transactions.kind", row.cols.kind);
    Ok(Transaction(id, occurredAt, kind, row.cols.amount, row.cols.description))
  }

  function DecodeActor(auditId: u64, kind: string, userId: Option<int>, username: Option<string>, role: Option<string>)
    : Result<AuditActor, StoreError>
  {
    match kind
    case "system" => Ok(System)
    case "user" =>
      if userId.None? || username.None? || role.None? then Err(MissingUserActorFields(auditId))
      else
        var id :- ToU32("audit_entries.actor_user_id", userId.value);
        var actorRole :- RoleFrom("audit_entries.actor_role", role.value);
        Ok(UserActor(id, username.value, actorRole))
    case _ => Err(InvalidEnumValue("audit_entries.actor_kind", kind))
  }

  function DecodeEntry(row: Row<AuditCols>): Result<AuditEntry, StoreError> {
    var c := row.cols;
    var id :- ToU64("audit_entries.id", row.id);
    var actor :- DecodeActor(id, c.actorKind, c.actorUserId, c.actorUsername, c.actorRole);
    var occurredAt :- ToU64("audit_entries.occurred_at_epoch_seconds", c.occurredAt);
    var action :- ActionFrom("audit_entries.action", c.action);
    var outcome :- OutcomeFrom("audit_entries.outcome", c.outcome);
    Ok(AuditEntry(id, occurredAt, actor, action, outcome, c.target, c.message))
  }

  /** A customer row is accepted iff it is the row of a customer, which it then decodes to. */
  lemma CustomerRowExact(row: Row<CustomerCols>, c: CustomerRecord)
    ensures DecodeCustomer(row) == Ok(c) <==>
            && row.id == c.id && row.cols.fullName == c.fullName && row.cols.email == c.email
  {
  }

  lemma UserRowExact(row: Row<UserCols>, u: User)
    ensures DecodeUser(row) == Ok(u) <==>
            && row.id == u.id && row.cols.username == u.username && row.cols.role == RoleText(u.role)
            && row.cols.customerId == OptionalInt(u.customerId) && row.cols.passwordHash == u.passwordHash
  {
    EnumsExact("users.role", row.cols.role, u.role, AccountStatus.Active, Success);
  }

  lemma TransactionRowExact(row: Row<TransactionCols>, t: Transaction)
    ensures DecodeTransaction(row) == Ok(t) <==>
            && row.id == t.id && row.cols.occurredAt == t.occurredAt && row.cols.kind == KindText(t.kind)
            && row.cols.amount == t.amount && row.cols.description == t.description
  {
    KindExact("transactions.kind", row.cols.kind, t.kind);
  }

  /** The actor columns of an entry; those of the system are not looked at. */
  predicate ActorColumns(c: AuditCols, actor: AuditActor) {
    match actor
    case System => c.actorKind == "system"
    case UserActor(userId, username, role) =>
      && c.actorKind == "user" && c.actorUserId == Some(userId) && c.actorUsername == Some(username)
      && c.actorRole == Some(RoleText(role))
  }

  lemma ActorExact(auditId: u64, c: AuditCols, actor: AuditActor)
    ensures DecodeActor(auditId, c.actorKind, c.actorUserId, c.actorUsername, c.actorRole) == Ok(actor) <==>
            ActorColumns(c, actor)
  {
    if c.actorRole.Some? {
      EnumsExact("audit_entries.actor_role", c.actorRole.value, if actor.UserActor? then actor.role else Admin,
                 AccountStatus.Active, Success);
    }
  }

  lemma AuditRowExact(row: Row<AuditCols>, e: AuditEntry)
    ensures DecodeEntry(row) == Ok(e) <==>
            && row.id == e.id && row.cols.occurredAt == e.occurredAt && ActorColumns(row.cols, e.actor)
            && row.cols.action == ActionText(e.action) && row.cols.outcome == OutcomeText(e.outcome)
            && row.cols.target == e.target && row.cols.message == e.message
  {
    ActorExact(e.id, row.cols, e.actor);
    ActionExact("audit_entries.action", row.cols.action, e.action);
    EnumsExact("audit_entries.outcome", row.cols.outcome, Admin, AccountStatus.Active, e.outcome);
  }

  /** Each column of a written row holds the field of its name. */
  lemma ColumnsHoldFields(c: CustomerRecord, u: User, a: Account, t: Transaction, e: AuditEntry)
    ensures DecodeCustomer(CustomerRow(c)) == Ok(c) && DecodeUser(UserRow(u)) == Ok(u)
    ensures AccountRow(a).id == a.id && AccountRow(a).cols.ownerId == OptionalInt(a.ownerId)
            && AccountRow(a).cols.name == a.name && AccountRow(a).cols.email == a.email
            && AccountRow(a).cols.balance == a.balance && AccountRow(a).cols.loanBalance == a.loanBalance
            && AccountRow(a).cols.status == StatusText(a.status)
    ensures TransactionRow(a.id, t).cols.accountId == a.id && DecodeTransaction(TransactionRow(a.id, t)) == Ok(t)
    ensures DecodeEntry(AuditRow(e)) == Ok(e)
  {
    CustomerRowDecodes(c);
    UserRowDecodes(u);
    TransactionRowDecodes(a.id, t);
    AuditRowDecodes(e);
  }

  lemma CustomerRowDecodes(c: CustomerRecord)
    ensures DecodeCustomer(CustomerRow(c)) == Ok(c)
  {
  }

  lemma UserRowDecodes(u: User)
    ensures DecodeUser(UserRow(u)) == Ok(u)
  {
    EnumsRoundTrip(u.role, AccountStatus.Active, Success, "users.role");
  }

  lemma TransactionRowDecodes(account: AccountId, t: Transaction)
    ensures DecodeTransaction(TransactionRow(account, t)) == Ok(t)
  {
    KindRoundTrip(t.kind, "transactions.kind");
  }

  lemma AuditRowDecodes(e: AuditEntry)
    ensures DecodeEntry(AuditRow(e)) == Ok(e)
  {
    ActionRoundTrip(e.action, "audit_entries.action");
    EnumsRoundTrip(if e.actor.System? then Admin else e.actor.role, AccountStatus.Active, e.outcome,
                   "audit_entries.outcome");
    EnumsRoundTrip(if e.actor.System? then Admin else e.actor.role, AccountStatus.Active, e.outcome,
                   "audit_entries.actor_role");
  }

  /** Decode every row, stopping at the first that cannot be decoded. */
  function Collect<A, B>(rows: seq<A>, decode: A -> Result<B, StoreError>): Result<seq<B>, StoreError> {
    if rows == [] then Ok([])
    else
      var first :- decode(rows[0]);
      var rest :- Collect(rows[1..], decode);
      Ok([first] + rest)
  }

  lemma {:induction false} CollectAll<A, B>(rows: seq<A>, decode: A -> Result<B, StoreError>, values: seq<B>)
    requires |values| == |rows| && forall i :: 0 <= i < |rows| ==> decode(rows[i]) == Ok(values[i])
    ensures Collect(rows, decode) == Ok(values)
  {
    if rows != [] {
      CollectAll(rows[1..], decode, values[1..]);
      assert values == [values[0]] + values[1..];
    }
  }

  // ---- Inserting, under the constraints -------------------------------------------------------

  predicate KeyTaken<T>(rows: seq<Row<T>>, id: int) {
    exists i :: 0 <= i < |rows| && rows[i].id == id
  }

  predicate UsernameTaken(rows: seq<Row<UserCols>>, username: string) {
    exists i :: 0 <= i < |rows| && rows[i].cols.username == username
  }

  predicate Refers(customers: seq<Row<CustomerCols>>, customerId: Option<int>) {
    customerId.Some? ==> KeyTaken(customers, customerId.value)
  }

  function InsertCustomer(t: Tables, c: CustomerRecord): Result<Tables, StoreError> {
    if KeyTaken(t.customers, c.id) then Err(ConstraintViolation)
    else Ok(t.(customers := t.customers + [CustomerRow(c)]))
  }

  function InsertUser(t: Tables, u: User): Result<Tables, StoreError> {
    if KeyTaken(t.users, u.id) || UsernameTaken(t.users, u.username) || !Refers(t.customers, OptionalInt(u.customerId))
    then Err(ConstraintViolation)
    else Ok(t.(users := t.users + [UserRow(u)]))
  }

  function InsertAccountRow(t: Tables, a: Account): Result<Tables, StoreError> {
    if KeyTaken(t.accounts, a.id) || !Refers(t.customers, OptionalInt(a.ownerId)) then Err(ConstraintViolation)
    else Ok(t.(accounts := t.accounts + [AccountRow(a)]))
  }

  function InsertTransaction(t: Tables, account: AccountId, x: Transaction): Result<Tables, StoreError> {
    var id :- ToI64("transactions.id", x.id);
    var occurredAt :- ToI64("transactions.occurred_at_epoch_seconds", x.occurredAt);
    if KeyTaken(t.transactions, id) || !KeyTaken(t.accounts, account) then Err(ConstraintViolation)
    else Ok(t.(transactions := t.transactions + [TransactionRow(account, x)]))
  }

  function InsertEntry(t: Tables, e: AuditEntry): Result<Tables, StoreError> {
    var id :- ToI64("audit_entries.id", e.id);
    var occurredAt :- ToI64("audit_entries.occurred_at_epoch_seconds", e.occurredAt);
    if KeyTaken(t.audit, id) then Err(ConstraintViolation)
    else Ok(t.(audit := t.audit + [AuditRow(e)]))
  }

  function InsertCustomers(t: Tables, list: seq<CustomerRecord>): Result<Tables, StoreError>
    decreases |list|
  {
    if list == [] then Ok(t) else var t' :- InsertCustomer(t, list[0]); InsertCustomers(t', list[1..])
  }

  function InsertUsers(t: Tables, list: seq<User>): Result<Tables, StoreError>
    decreases |list|
  {
    if list == [] then Ok(t) else var t' :- InsertUser(t, list[0]); InsertUsers(t', list[1..])
  }

  function InsertTransactions(t: Tables, account: AccountId, list: seq<Transaction>): Result<Tables, StoreError>
    decreases |list|
  {
    if list == [] then Ok(t)
    else
      var t' :- InsertTransaction(t, account, list[0]);
      InsertTransactions(t', account, list[1..])
  }

  function InsertAccounts(t: Tables, list: seq<Account>): Result<Tables, StoreError>
    decreases |list|
  {
    if list == [] then Ok(t)
    else
      var t1 :- InsertAccountRow(t, list[0]);
      var t2 :- InsertTransactions(t1, list[0].id, list[0].transactions);
      InsertAccounts(t2, list[1..])
  }

  function InsertEntries(t: Tables, list: seq<AuditEntry>): Result<Tables, StoreError>
    decreases |list|
  {
    if list == [] then Ok(t) else var t' :- InsertEntry(t, list[0]); InsertEntries(t', list[1..])
  }

  /** The rows of the given records, inserted into empty tables in this order. */
  function WriteRecords(customers: seq<CustomerRecord>, users: seq<User>, accounts: seq<Account>,
                        entries: seq<AuditEntry>)
    : Result<Tables, StoreError>
  {
    var t1 :- InsertCustomers(NO_ROWS, customers);
    var t2 :- InsertUsers(t1, users);
    var t3 :- InsertAccounts(t2, accounts);
    InsertEntries(t3, entries)
  }

  /** Replace everything in the tables by the rows of a state. */
  function WriteState(app: App): Result<Tables, StoreError> {
    WriteRecords(Values(app.identities.customers), Values(app.identities.users), Values(app.ledger.accounts),
                 app.log.entries)
  }

  // ---- Reading --------------------------------------------------------------------------------

  function OfAccount(rows: seq<Row<TransactionCols>>, account: int): seq<Row<TransactionCols>> {
    if rows == [] then []
    else (if rows[0].cols.accountId == account then [rows[0]] else []) + OfAccount(rows[1..], account)
  }

  function ReadTransactions(t: Tables, account: AccountId): Result<seq<Transaction>, StoreError> {
    Collect(OrderById(OfAccount(t.transactions, account)), DecodeTransaction)
  }

  function ReadAccount(t: Tables, row: Row<AccountCols>): Result<Account, StoreError> {
    var id :- ToU32("accounts.id", row.id);
    var transactions :- ReadTransactions(t, id);
    var ownerId :- OptionalToU32("accounts.owner_id", row.cols.ownerId);
    var status :- StatusFrom("accounts.status", row.cols.status);
    Ok(Account(id, ownerId, row.cols.name, row.cols.email, row.cols.balance, row.cols.loanBalance, status,
               transactions))
  }

  function ReadAccounts(t: Tables, rows: seq<Row<AccountCols>>, done: seq<Account>): Result<seq<Account>, StoreError> {
    if rows == [] then Ok(done)
    else
      var account :- ReadAccount(t, rows[0]);
      ReadAccounts(t, rows[1..], done + [account])
  }

  function ReadEntries(rows: seq<Row<AuditCols>>, done: seq<AuditEntry>): Result<seq<AuditEntry>, StoreError> {
    if rows == [] then Ok(done)
    else
      var entry :- DecodeEntry(rows[0]);
      ReadEntries(rows[1..], done + [entry])
  }

  function HasRows(t: Tables): bool {
    |t.customers| + |t.users| + |t.accounts| + |t.transactions| + |t.audit| > 0
  }

  /** The state in the tables, or nothing when every table is empty. */
  function ReadState(h: Hasher, t: Tables): Result<Option<App>, StoreError> {
    if !HasRows(t) then Ok(None)
    else
      var customers :- Collect(OrderById(t.customers), DecodeCustomer);
      var users :- Collect(OrderById(t.users), DecodeUser);
      match Identity.FromRecords(h, customers, users)
      case Err(error) => Err(Invalid(InvalidIdentityState(error)))
      case Ok(identities) =>
        var accounts :- ReadAccounts(t, OrderById(t.accounts), []);
        match Imports.FromAccounts(accounts)
        case Err(error) => Err(Invalid(InvalidBankState(error)))
        case Ok(ledger) =>
          var entries :- ReadEntries(OrderById(t.audit), []);
          match ImportEntries(entries)
          case Err(error) => Err(Invalid(InvalidAuditState(error)))
          case Ok(log) =>
            match OwnerFault(Values(ledger.accounts), identities.customers)
            case Some(error) => Err(Invalid(error))
            case None => Ok(Some(App(ledger, identities, log)))
  }
}
