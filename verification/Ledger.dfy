/** What each ledger operation decides and how a decision changes the ledger. */
module Ledgers {
  import opened Wrappers
  import opened Numbers
  import opened Text
  import opened Money
  import opened Domain

  datatype BankError =
    | AccountAlreadyExists(id: AccountId)
    | AccountNotFound(id: AccountId)
    | SameAccountTransfer(id: AccountId)
    | InvalidAmount
    | InvalidProfileField(field: string)
    | AccountInactive(id: AccountId)
    | AccountClosed(id: AccountId)
    | InsufficientFunds(id: AccountId, available: i64, required: i64)
    | AccountHasBalance(id: AccountId, balance: i64)
    | AccountHasLoan(id: AccountId, loanBalance: i64)
    | NoLoan(id: AccountId)
    | ArithmeticOverflow
    | InvalidTransactionId(transactionId: u64)
    | DuplicateTransactionId(transactionId: u64)

  datatype Ledger = Ledger(accounts: map<AccountId, Account>, next: u64)

  const EMPTY := Ledger(map[], 1)

  datatype Op =
    | CreateAccount(id: AccountId, ownerId: Option<CustomerId>, name: string, email: string, opening: i64)
    | UpdateName(id: AccountId, name: string)
    | UpdateEmail(id: AccountId, email: string)
    | ActivateAccount(id: AccountId)
    | DeactivateAccount(id: AccountId)
    | CloseAccount(id: AccountId)
    | DeleteAccount(id: AccountId)
    | Deposit(id: AccountId, amount: i64)
    | Withdraw(id: AccountId, amount: i64)
    | Transfer(id: AccountId, to: AccountId, amount: i64)
    | ApplyFee(id: AccountId, amount: i64)
    | ApplyInterest(id: AccountId, basisPoints: u32)
    | RequestLoan(id: AccountId, amount: i64)
    | PayLoan(id: AccountId, amount: i64)

  /** An operation and the clock readings it takes; only a transfer reads the clock twice. */
  datatype Call = Call(op: Op, now: u64, later: u64)

  datatype Reply = Done | Opened(account: Account) | Paid(amount: i64) | Deleted(account: Account)

  datatype Change = KeepProfile | SetName(name: string) | SetEmail(email: string)

  /** Everything an operation can do to the ledger. */
  datatype Effect =
    | Nothing
    | BurnId
    | Open(account: Account)
    | Post(id: AccountId, change: Change, entry: Transaction)
    | Move(source: AccountId, target: AccountId, outgoing: Transaction, incoming: Transaction)
    | Remove(id: AccountId)
    | Leak(id: AccountId, amount: i64)

  datatype Decision = Decision(reply: Result<Reply, BankError>, effect: Effect)

  // ---- Deciding -------------------------------------------------------------------------------

  function Fail(error: BankError): Decision {
    Decision(Err(error), Nothing)
  }

  /** The reason an account may not move money, if there is one. */
  function Refusal(l: Ledger, id: AccountId): Option<BankError> {
    if id !in l.accounts then Some(AccountNotFound(id))
    else match l.accounts[id].status
      case Active => None
      case Inactive => Some(AccountInactive(id))
      case Closed => Some(AccountClosed(id))
  }

  function Shortage(l: Ledger, id: AccountId, required: i64): Option<BankError> {
    if id !in l.accounts then Some(AccountNotFound(id))
    else if l.accounts[id].balance < required
    then Some(InsufficientFunds(id, l.accounts[id].balance, required))
    else None
  }

  function Entry(l: Ledger, now: u64, kind: TransactionKind, amount: i64, description: string): Transaction {
    Transaction(l.next, now, kind, amount, description)
  }

  /** Both balances of the account stay within 64 bits when the entry is applied. */
  predicate Representable(a: Account, t: Transaction) {
    I64_MIN <= a.balance + BalanceDelta(t) <= I64_MAX && I64_MIN <= a.loanBalance + LoanDelta(t) <= I64_MAX
  }

  /** An id is consumed before the new balance is known to fit. */
  function Posting(l: Ledger, id: AccountId, change: Change, t: Transaction, reply: Reply): Decision
    requires id in l.accounts
  {
    if l.next == U64_MAX then Fail(ArithmeticOverflow)
    else if !Representable(l.accounts[id], t) then Decision(Err(ArithmeticOverflow), BurnId)
    else Decision(Ok(reply), Post(id, change, t))
  }

  function DecideCreate(l: Ledger, op: Op, now: u64): Decision
    requires op.CreateAccount?
  {
    if op.id in l.accounts then Fail(AccountAlreadyExists(op.id))
    else if op.opening < 0 then Fail(InvalidAmount)
    else if CleanName(op.name).None? then Fail(InvalidProfileField("name"))
    else if CleanEmail(op.email).None? then Fail(InvalidProfileField("email"))
    else if l.next == U64_MAX then Fail(ArithmeticOverflow)
    else
      var account := NewAccount(op.id, op.ownerId, CleanName(op.name).value, CleanEmail(op.email).value, op.opening)
                     .Record(Entry(l, now, AccountCreated, op.opening, "Account created"));
      Decision(Ok(Opened(account)), Open(account))
  }

  function NameChange(name: string): Option<Change> {
    match CleanName(name)
    case None => None
    case Some(cleaned) => Some(SetName(cleaned))
  }

  function EmailChange(email: string): Option<Change> {
    match CleanEmail(email)
    case None => None
    case Some(cleaned) => Some(SetEmail(cleaned))
  }

  function DecideProfile(l: Ledger, id: AccountId, field: string, change: Option<Change>, now: u64,
                         description: string): Decision
  {
    if change.None? then Fail(InvalidProfileField(field))
    else if id !in l.accounts then Fail(AccountNotFound(id))
    else Posting(l, id, change.value, Entry(l, now, ProfileUpdated, 0, description), Done)
  }

  function DecideStatus(l: Ledger, id: AccountId, kind: TransactionKind, now: u64, description: string): Decision {
    if id !in l.accounts then Fail(AccountNotFound(id))
    else if l.accounts[id].status.Closed? then Fail(AccountClosed(id))
    else Posting(l, id, KeepProfile, Entry(l, now, kind, 0, description), Done)
  }

  /** Closing and deleting both insist on a settled account. */
  function Unsettled(l: Ledger, id: AccountId): Option<BankError> {
    if id !in l.accounts then Some(AccountNotFound(id))
    else if l.accounts[id].balance != 0 then Some(AccountHasBalance(id, l.accounts[id].balance))
    else if l.accounts[id].loanBalance != 0 then Some(AccountHasLoan(id, l.accounts[id].loanBalance))
    else None
  }

  function DecideDebit(l: Ledger, id: AccountId, amount: i64, kind: TransactionKind, now: u64,
                       description: string): Decision
  {
    if amount <= 0 then Fail(InvalidAmount)
    else if Refusal(l, id).Some? then Fail(Refusal(l, id).value)
    else if Shortage(l, id, amount).Some? then Fail(Shortage(l, id, amount).value)
    else Posting(l, id, KeepProfile, Entry(l, now, kind, amount, description), Done)
  }

  function DecideTransfer(l: Ledger, source: AccountId, target: AccountId, amount: i64, now: u64,
                          later: u64): Decision
  {
    if amount <= 0 then Fail(InvalidAmount)
    else if source == target then Fail(SameAccountTransfer(source))
    else if Refusal(l, source).Some? then Fail(Refusal(l, source).value)
    else if Refusal(l, target).Some? then Fail(Refusal(l, target).value)
    else if Shortage(l, source, amount).Some? then Fail(Shortage(l, source, amount).value)
    else if l.accounts[target].balance + amount > I64_MAX then Fail(ArithmeticOverflow)
    else if l.next == U64_MAX then Fail(ArithmeticOverflow)
    else if l.next + 1 == U64_MAX then Decision(Err(ArithmeticOverflow), BurnId)
    else Decision(Ok(Done), Move(source, target,
      Transaction(l.next, now, TransferOut, amount, "Transferred to account " + Decimal(target)),
      Transaction(l.next + 1, later, TransferIn, amount, "Received from account " + Decimal(source))))
  }

  function DecideInterest(l: Ledger, id: AccountId, basisPoints: u32, now: u64): Decision {
    if basisPoints == 0 then Fail(InvalidAmount)
    else if Refusal(l, id).Some? then Fail(Refusal(l, id).value)
    else match CheckedPercentage(l.accounts[id].balance, basisPoints)
      case None => Fail(ArithmeticOverflow)
      case Some(interest) =>
        Posting(l, id, KeepProfile, Entry(l, now, Interest, interest, "Interest added at " + PrintRate(basisPoints)),
                Paid(interest))
  }

  /** The balance is credited before the loan balance is known to fit. */
  function DecideLoan(l: Ledger, id: AccountId, amount: i64, now: u64): Decision {
    if amount <= 0 then Fail(InvalidAmount)
    else if Refusal(l, id).Some? then Fail(Refusal(l, id).value)
    else if l.next == U64_MAX then Fail(ArithmeticOverflow)
    else if l.accounts[id].balance + amount > I64_MAX then Decision(Err(ArithmeticOverflow), BurnId)
    else if l.accounts[id].loanBalance + amount > I64_MAX then Decision(Err(ArithmeticOverflow), Leak(id, amount))
    else Decision(Ok(Done), Post(id, KeepProfile, Entry(l, now, LoanRequested, amount, "Loan received")))
  }

  function DecidePayment(l: Ledger, id: AccountId, amount: i64, now: u64): Decision {
    if amount <= 0 then Fail(InvalidAmount)
    else if Refusal(l, id).Some? then Fail(Refusal(l, id).value)
    else if l.accounts[id].loanBalance == 0 then Fail(NoLoan(id))
    else
      var payment := if amount < l.accounts[id].loanBalance then amount else l.accounts[id].loanBalance;
      if l.accounts[id].balance < payment then Fail(InsufficientFunds(id, l.accounts[id].balance, payment))
      else Posting(l, id, KeepProfile, Entry(l, now, LoanPayment, payment, "Loan payment made"), Paid(payment))
  }

  /** The reply and the effect of a call, checked in the order in which the operation checks. */
  function Decide(l: Ledger, call: Call): Decision {
    var now := call.now;
    match call.op
    case CreateAccount(_, _, _, _, _) => DecideCreate(l, call.op, now)
    case UpdateName(id, name) => DecideProfile(l, id, "name", NameChange(name), now, "Name updated")
    case UpdateEmail(id, email) => DecideProfile(l, id, "email", EmailChange(email), now, "Email updated")
    case ActivateAccount(id) => DecideStatus(l, id, Activated, now, "Account activated")
    case DeactivateAccount(id) => DecideStatus(l, id, Deactivated, now, "Account deactivated")
    case CloseAccount(id) =>
      if Unsettled(l, id).Some? then Fail(Unsettled(l, id).value)
      else Posting(l, id, KeepProfile, Entry(l, now, TransactionKind.Closed, 0, "Account closed"), Done)
    case DeleteAccount(id) =>
      if Unsettled(l, id).Some? then Fail(Unsettled(l, id).value)
      else Decision(Ok(Deleted(l.accounts[id])), Remove(id))
    case Deposit(id, amount) =>
      if amount <= 0 then Fail(InvalidAmount)
      else if Refusal(l, id).Some? then Fail(Refusal(l, id).value)
      else Posting(l, id, KeepProfile, Entry(l, now, TransactionKind.Deposit, amount, "Money deposited"), Done)
    case Withdraw(id, amount) => DecideDebit(l, id, amount, Withdrawal, now, "Money withdrawn")
    case Transfer(source, target, amount) => DecideTransfer(l, source, target, amount, now, call.later)
    case ApplyFee(id, amount) => DecideDebit(l, id, amount, Fee, now, "Bank fee applied")
    case ApplyInterest(id, basisPoints) => DecideInterest(l, id, basisPoints, now)
    case RequestLoan(id, amount) => DecideLoan(l, id, amount, now)
    case PayLoan(id, amount) => DecidePayment(l, id, amount, now)
  }

  // ---- Applying -------------------------------------------------------------------------------

  /** The ledger keys accounts by their own id and never shows a negative balance or loan. */
  predicate Valid(l: Ledger) {
    forall id :: id in l.accounts ==>
      l.accounts[id].id == id && l.accounts[id].balance >= 0 && l.accounts[id].loanBalance >= 0
  }

  function Posted(a: Account, t: Transaction): Account
    requires Representable(a, t)
  {
    a.(balance := a.balance + BalanceDelta(t), loanBalance := a.loanBalance + LoanDelta(t),
       status := StatusAfter(a.status, t.kind)).Record(t)
  }

  function Reprofile(a: Account, change: Change): Account {
    match change
    case KeepProfile => a
    case SetName(name) => a.(name := name)
    case SetEmail(email) => a.(email := email)
  }

  /** When an account in state a may receive an entry of this kind. */
  predicate KindAllowed(a: Account, kind: TransactionKind) {
    match kind
    case AccountCreated => false
    case ProfileUpdated => true
    case Activated | Deactivated => !a.status.Closed?
    case Closed => a.balance == 0 && a.loanBalance == 0
    case _ => a.status.Active?
  }

  predicate Postable(l: Ledger, id: AccountId, t: Transaction) {
    && id in l.accounts
    && Representable(l.accounts[id], t)
    && l.accounts[id].balance + BalanceDelta(t) >= 0
    && l.accounts[id].loanBalance + LoanDelta(t) >= 0
    && t.amount >= 0
    && KindAllowed(l.accounts[id], t.kind)
  }

  predicate CleanChange(change: Change) {
    match change
    case KeepProfile => true
    case SetName(name) => CleanName(name) == Some(name)
    case SetEmail(email) => CleanEmail(email) == Some(email)
  }

  predicate CleanAccount(a: Account) {
    CleanName(a.name) == Some(a.name) && CleanEmail(a.email) == Some(a.email)
  }

  /** The effects a valid ledger can undergo. */
  predicate Admissible(l: Ledger, e: Effect) {
    match e
    case Nothing => true
    case BurnId => l.next < U64_MAX
    case Open(a) =>
      && l.next < U64_MAX && a.id !in l.accounts
      && a.balance >= 0 && a.loanBalance == 0 && a.status.Active? && CleanAccount(a)
      && |a.transactions| == 1 && a.transactions[0].id == l.next
      && a.transactions[0].kind.AccountCreated? && a.transactions[0].amount == a.balance
    case Post(id, change, t) =>
      && l.next < U64_MAX && t.id == l.next
      && Postable(l, id, t) && CleanChange(change)
      && (change.KeepProfile? || t.kind.ProfileUpdated?)
    case Move(source, target, outgoing, incoming) =>
      && l.next + 1 < U64_MAX && outgoing.id == l.next && incoming.id == l.next + 1
      && source != target && outgoing.kind.TransferOut? && incoming.kind.TransferIn?
      && outgoing.amount == incoming.amount > 0
      && Postable(l, source, outgoing) && Postable(l, target, incoming)
    case Remove(id) => id in l.accounts && l.accounts[id].balance == 0 && l.accounts[id].loanBalance == 0
    case Leak(id, amount) =>
      && l.next < U64_MAX && id in l.accounts && l.accounts[id].status.Active?
      && amount > 0 && l.accounts[id].balance + amount <= I64_MAX < l.accounts[id].loanBalance + amount
  }

  function Apply(l: Ledger, e: Effect): Ledger
    requires Admissible(l, e)
  {
    match e
    case Nothing => l
    case BurnId => l.(next := l.next + 1)
    case Open(a) => Ledger(l.accounts[a.id := a], l.next + 1)
    case Post(id, change, t) =>
      Ledger(l.accounts[id := Reprofile(Posted(l.accounts[id], t), change)], l.next + 1)
    case Move(source, target, outgoing, incoming) =>
      Ledger(l.accounts[source := Posted(l.accounts[source], outgoing)][target := Posted(l.accounts[target], incoming)],
             l.next + 2)
    case Remove(id) => l.(accounts := l.accounts - {id})
    case Leak(id, amount) =>
      Ledger(l.accounts[id := l.accounts[id].(balance := l.accounts[id].balance + amount)], l.next + 1)
  }

  /** An admissible effect, and a real one whenever the reply is a success. */
  predicate Sane(l: Ledger, d: Decision) {
    Admissible(l, d.effect) && (d.reply.Ok? ==> !d.effect.Nothing? && !d.effect.BurnId? && !d.effect.Leak?)
  }

  lemma ProfileSane(l: Ledger, id: AccountId, field: string, change: Option<Change>, now: u64, description: string)
    requires Valid(l)
    requires change.Some? ==> CleanChange(change.value)
    ensures Sane(l, DecideProfile(l, id, field, change, now, description))
  {
  }

  lemma StatusSane(l: Ledger, id: AccountId, kind: TransactionKind, now: u64, description: string)
    requires Valid(l) && (kind.Activated? || kind.Deactivated?)
    ensures Sane(l, DecideStatus(l, id, kind, now, description))
  {
  }

  lemma DebitSane(l: Ledger, id: AccountId, amount: i64, kind: TransactionKind, now: u64, description: string)
    requires Valid(l) && (kind.Withdrawal? || kind.Fee?)
    ensures Sane(l, DecideDebit(l, id, amount, kind, now, description))
  {
  }

  lemma InterestSane(l: Ledger, id: AccountId, basisPoints: u32, now: u64)
    requires Valid(l)
    ensures Sane(l, DecideInterest(l, id, basisPoints, now))
  {
    if Refusal(l, id).None? {
      PercentageRounds(l.accounts[id].balance, basisPoints);
    }
  }

  lemma CreateSane(l: Ledger, op: Op, now: u64)
    requires Valid(l) && op.CreateAccount?
    ensures Sane(l, DecideCreate(l, op, now))
  {
    CleaningStable(op.name);
    CleaningStable(op.email);
  }

  lemma TransferSane(l: Ledger, source: AccountId, target: AccountId, amount: i64, now: u64, later: u64)
    requires Valid(l)
    ensures Sane(l, DecideTransfer(l, source, target, amount, now, later))
  {
  }

  lemma LoanSane(l: Ledger, id: AccountId, amount: i64, now: u64)
    requires Valid(l)
    ensures Sane(l, DecideLoan(l, id, amount, now))
  {
  }

  lemma PaymentSane(l: Ledger, id: AccountId, amount: i64, now: u64)
    requires Valid(l)
    ensures Sane(l, DecidePayment(l, id, amount, now))
  {
  }

  lemma SettledSane(l: Ledger, call: Call)
    requires Valid(l) && (call.op.CloseAccount? || call.op.DeleteAccount? || call.op.Deposit?)
    ensures Sane(l, Decide(l, call))
  {
  }

  /** Every decision taken on a valid ledger is admissible. */
  lemma DecisionsSane(l: Ledger, call: Call)
    requires Valid(l)
    ensures Sane(l, Decide(l, call))
  {
    var now := call.now;
    match call.op {
      case CreateAccount(_, _, _, _, _) => CreateSane(l, call.op, now);
      case UpdateName(id, name) =>
        CleaningStable(name);
        ProfileSane(l, id, "name", NameChange(name), now, "Name updated");
      case UpdateEmail(id, email) =>
        CleaningStable(email);
        ProfileSane(l, id, "email", EmailChange(email), now, "Email updated");
      case ActivateAccount(id) => StatusSane(l, id, Activated, now, "Account activated");
      case DeactivateAccount(id) => StatusSane(l, id, Deactivated, now, "Account deactivated");
      case Withdraw(id, amount) => DebitSane(l, id, amount, Withdrawal, now, "Money withdrawn");
      case ApplyFee(id, amount) => DebitSane(l, id, amount, Fee, now, "Bank fee applied");
      case ApplyInterest(id, basisPoints) => InterestSane(l, id, basisPoints, now);
      case Transfer(source, target, amount) => TransferSane(l, source, target, amount, now, call.later);
      case RequestLoan(id, amount) => LoanSane(l, id, amount, now);
      case PayLoan(id, amount) => PaymentSane(l, id, amount, now);
      case _ => SettledSane(l, call);
    }
  }

  lemma ApplyValid(l: Ledger, e: Effect)
    requires Valid(l) && Admissible(l, e)
    ensures Valid(Apply(l, e))
  {
  }

  function Step(l: Ledger, call: Call): (l': Ledger)
    requires Valid(l)
    ensures Valid(l')
  {
    DecisionsSane(l, call);
    ApplyValid(l, Decide(l, call).effect);
    Apply(l, Decide(l, call).effect)
  }

  function Answer(l: Ledger, call: Call): Result<Reply, BankError> {
    Decide(l, call).reply
  }
}
