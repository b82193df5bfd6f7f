/** When each operation succeeds, and the exact ledger a success leaves, in the caller's terms. */
module LedgerOutcomes {
  import opened Wrappers
  import opened Numbers
  import opened Text
  import opened Money
  import opened Domain
  import opened Ledgers
  import LedgerRuns
  import opened LedgerLaws

  predicate CanMove(l: Ledger, id: AccountId) {
    id in l.accounts && l.accounts[id].status.Active?
  }

  predicate Settled(l: Ledger, id: AccountId) {
    id in l.accounts && l.accounts[id].balance == 0 && l.accounts[id].loanBalance == 0
  }

  /** The conditions under which an operation succeeds, whatever the order in which they are checked. */
  ghost predicate Allowed(l: Ledger, op: Op) {
    match op
    case CreateAccount(id, _, name, email, opening) =>
      id !in l.accounts && opening >= 0 && Trim(name) != [] && CleanEmail(email).Some? && l.next < U64_MAX
    case UpdateName(id, name) => id in l.accounts && Trim(name) != [] && l.next < U64_MAX
    case UpdateEmail(id, email) => id in l.accounts && CleanEmail(email).Some? && l.next < U64_MAX
    case ActivateAccount(id) => id in l.accounts && !l.accounts[id].status.Closed? && l.next < U64_MAX
    case DeactivateAccount(id) => id in l.accounts && !l.accounts[id].status.Closed? && l.next < U64_MAX
    case CloseAccount(id) => Settled(l, id) && l.next < U64_MAX
    case DeleteAccount(id) => Settled(l, id)
    case Deposit(id, amount) => CanMove(l, id) && 0 < amount <= I64_MAX - l.accounts[id].balance && l.next < U64_MAX
    case Withdraw(id, amount) => CanMove(l, id) && 0 < amount <= l.accounts[id].balance && l.next < U64_MAX
    case ApplyFee(id, amount) => CanMove(l, id) && 0 < amount <= l.accounts[id].balance && l.next < U64_MAX
    case Transfer(source, target, amount) =>
      && source != target && CanMove(l, source) && CanMove(l, target)
      && 0 < amount <= l.accounts[source].balance && amount <= I64_MAX - l.accounts[target].balance
      && l.next + 1 < U64_MAX
    case ApplyInterest(id, basisPoints) =>
      && basisPoints > 0 && CanMove(l, id) && l.accounts[id].balance * basisPoints <= I64_MAX
      && l.accounts[id].balance + l.accounts[id].balance * basisPoints / 10_000 <= I64_MAX && l.next < U64_MAX
    case RequestLoan(id, amount) =>
      && CanMove(l, id) && 0 < amount <= I64_MAX - l.accounts[id].balance
      && amount <= I64_MAX - l.accounts[id].loanBalance && l.next < U64_MAX
    case PayLoan(id, amount) =>
      && CanMove(l, id) && amount > 0 && l.accounts[id].loanBalance > 0 && l.next < U64_MAX
      && (amount <= l.accounts[id].balance || l.accounts[id].loanBalance <= l.accounts[id].balance)
  }

  lemma LifecycleSucceedsIff(l: Ledger, call: Call)
    requires call.op.CreateAccount? || call.op.UpdateName? || call.op.UpdateEmail? || call.op.ActivateAccount?
             || call.op.DeactivateAccount? || call.op.CloseAccount? || call.op.DeleteAccount?
    ensures Answer(l, call).Ok? <==> Allowed(l, call.op)
  {
  }

  lemma CashSucceedsIff(l: Ledger, call: Call)
    requires Valid(l)
    requires call.op.Deposit? || call.op.Withdraw? || call.op.ApplyFee? || call.op.Transfer?
    ensures Answer(l, call).Ok? <==> Allowed(l, call.op)
  {
  }

  lemma CreditSucceedsIff(l: Ledger, call: Call)
    requires Valid(l)
    requires call.op.RequestLoan? || call.op.PayLoan?
    ensures Answer(l, call).Ok? <==> Allowed(l, call.op)
  {
  }

  lemma InterestSucceedsIff(l: Ledger, call: Call)
    requires Valid(l) && call.op.ApplyInterest?
    ensures Answer(l, call).Ok? <==> Allowed(l, call.op)
  {
    if call.op.id in l.accounts {
      PercentageRounds(l.accounts[call.op.id].balance, call.op.basisPoints);
    }
  }

  /** An operation succeeds iff it is allowed. */
  lemma SucceedsIff(l: Ledger, call: Call)
    requires Valid(l)
    ensures Answer(l, call).Ok? <==> Allowed(l, call.op)
  {
    match call.op {
      case CreateAccount(_, _, _, _, _) | UpdateName(_, _) | UpdateEmail(_, _) | ActivateAccount(_)
         | DeactivateAccount(_) | CloseAccount(_) | DeleteAccount(_) => LifecycleSucceedsIff(l, call);
      case Deposit(_, _) | Withdraw(_, _) | ApplyFee(_, _) | Transfer(_, _, _) => CashSucceedsIff(l, call);
      case RequestLoan(_, _) | PayLoan(_, _) => CreditSucceedsIff(l, call);
      case ApplyInterest(_, _) => InterestSucceedsIff(l, call);
    }
  }

  // ---- What a failure answers -----------------------------------------------------------------

  /** Why an account does not move money. */
  function MoveError(l: Ledger, id: AccountId): BankError
    requires !CanMove(l, id)
  {
    if id !in l.accounts then AccountNotFound(id)
    else if l.accounts[id].status.Closed? then AccountClosed(id)
    else AccountInactive(id)
  }

  function UnsettledError(l: Ledger, id: AccountId): BankError {
    if id !in l.accounts then AccountNotFound(id)
    else if l.accounts[id].balance != 0 then AccountHasBalance(id, l.accounts[id].balance)
    else AccountHasLoan(id, l.accounts[id].loanBalance)
  }

  function DebitError(l: Ledger, id: AccountId, amount: i64): BankError {
    if amount <= 0 then InvalidAmount
    else if !CanMove(l, id) then MoveError(l, id)
    else if l.accounts[id].balance < amount then InsufficientFunds(id, l.accounts[id].balance, amount)
    else ArithmeticOverflow
  }

  function TransferError(l: Ledger, source: AccountId, target: AccountId, amount: i64): BankError {
    if amount <= 0 then InvalidAmount
    else if source == target then SameAccountTransfer(source)
    else if !CanMove(l, source) then MoveError(l, source)
    else if !CanMove(l, target) then MoveError(l, target)
    else DebitError(l, source, amount)
  }

  function PaymentError(l: Ledger, id: AccountId, amount: i64): BankError {
    if amount <= 0 then InvalidAmount
    else if !CanMove(l, id) then MoveError(l, id)
    else if l.accounts[id].loanBalance == 0 then NoLoan(id)
    else if l.accounts[id].balance < amount && l.accounts[id].balance < l.accounts[id].loanBalance
    then InsufficientFunds(id, l.accounts[id].balance,
                           if amount < l.accounts[id].loanBalance then amount else l.accounts[id].loanBalance)
    else ArithmeticOverflow
  }

  /** The error of an operation that is not allowed: a full account and exhausted ids overflow, the rest has a name. */
  ghost function ErrorOf(l: Ledger, op: Op): BankError {
    match op
    case CreateAccount(id, _, name, email, opening) =>
      if id in l.accounts then AccountAlreadyExists(id)
      else if opening < 0 then InvalidAmount
      else if Trim(name) == [] then InvalidProfileField("name")
      else if !IsAddress(NameKey(email)) then InvalidProfileField("email")
      else ArithmeticOverflow
    case UpdateName(id, name) =>
      if Trim(name) == [] then InvalidProfileField("name")
      else if id !in l.accounts then AccountNotFound(id) else ArithmeticOverflow
    case UpdateEmail(id, email) =>
      if !IsAddress(NameKey(email)) then InvalidProfileField("email")
      else if id !in l.accounts then AccountNotFound(id) else ArithmeticOverflow
    case ActivateAccount(_) | DeactivateAccount(_) =>
      if op.id !in l.accounts then AccountNotFound(op.id)
      else if l.accounts[op.id].status.Closed? then AccountClosed(op.id) else ArithmeticOverflow
    case CloseAccount(id) => if Settled(l, id) then ArithmeticOverflow else UnsettledError(l, id)
    case DeleteAccount(id) => UnsettledError(l, id)
    case Deposit(_, _) | RequestLoan(_, _) =>
      if op.amount <= 0 then InvalidAmount
      else if !CanMove(l, op.id) then MoveError(l, op.id) else ArithmeticOverflow
    case Withdraw(_, _) | ApplyFee(_, _) => DebitError(l, op.id, op.amount)
    case Transfer(source, target, amount) => TransferError(l, source, target, amount)
    case ApplyInterest(id, basisPoints) =>
      if basisPoints == 0 then InvalidAmount
      else if !CanMove(l, id) then MoveError(l, id) else ArithmeticOverflow
    case PayLoan(id, amount) => PaymentError(l, id, amount)
  }

  lemma LifecycleError(l: Ledger, call: Call)
    requires Valid(l) && Answer(l, call).Err?
    requires call.op.CreateAccount? || call.op.UpdateName? || call.op.UpdateEmail? || call.op.ActivateAccount?
             || call.op.DeactivateAccount? || call.op.CloseAccount? || call.op.DeleteAccount?
    ensures Answer(l, call) == Err(ErrorOf(l, call.op))
  {
    if call.op.CreateAccount? || call.op.UpdateEmail? {
      EmailAccepted(call.op.email);
    }
  }

  lemma CashError(l: Ledger, call: Call)
    requires Valid(l) && Answer(l, call).Err?
    requires call.op.Deposit? || call.op.Withdraw? || call.op.ApplyFee?
    ensures Answer(l, call) == Err(ErrorOf(l, call.op))
  {
  }

  lemma TransferErrorExact(l: Ledger, call: Call)
    requires Valid(l) && Answer(l, call).Err? && call.op.Transfer?
    ensures Answer(l, call) == Err(ErrorOf(l, call.op))
  {
  }

  lemma CreditError(l: Ledger, call: Call)
    requires Valid(l) && Answer(l, call).Err?
    requires call.op.ApplyInterest? || call.op.RequestLoan? || call.op.PayLoan?
    ensures Answer(l, call) == Err(ErrorOf(l, call.op))
  {
  }

  /** An operation that is not allowed answers exactly this error. */
  lemma ErrorExact(l: Ledger, call: Call)
    requires Valid(l) && !Allowed(l, call.op)
    ensures Answer(l, call) == Err(ErrorOf(l, call.op))
  {
    SucceedsIff(l, call);
    match call.op {
      case Deposit(_, _) | Withdraw(_, _) | ApplyFee(_, _) => CashError(l, call);
      case Transfer(_, _, _) => TransferErrorExact(l, call);
      case ApplyInterest(_, _) | RequestLoan(_, _) | PayLoan(_, _) => CreditError(l, call);
      case _ => LifecycleError(l, call);
    }
  }

  // ---- What a success leaves ------------------------------------------------------------------

  /** The operations that write one entry on one existing account. */
  predicate Records(op: Op) {
    !op.CreateAccount? && !op.DeleteAccount? && !op.Transfer?
  }

  /** The kind of the entry such an operation writes. */
  function KindOf(op: Op): TransactionKind
    requires Records(op)
  {
    match op
    case UpdateName(_, _) | UpdateEmail(_, _) => ProfileUpdated
    case ActivateAccount(_) => Activated
    case DeactivateAccount(_) => Deactivated
    case CloseAccount(_) => TransactionKind.Closed
    case Deposit(_, _) => TransactionKind.Deposit
    case Withdraw(_, _) => Withdrawal
    case ApplyFee(_, _) => Fee
    case ApplyInterest(_, _) => Interest
    case RequestLoan(_, _) => LoanRequested
    case PayLoan(_, _) => LoanPayment
  }

  function TextOf(op: Op): string
    requires Records(op)
  {
    match op
    case UpdateName(_, _) => "Name updated"
    case UpdateEmail(_, _) => "Email updated"
    case ActivateAccount(_) => "Account activated"
    case DeactivateAccount(_) => "Account deactivated"
    case CloseAccount(_) => "Account closed"
    case Deposit(_, _) => "Money deposited"
    case Withdraw(_, _) => "Money withdrawn"
    case ApplyFee(_, _) => "Bank fee applied"
    case ApplyInterest(_, basisPoints) => "Interest added at " + PrintRate(basisPoints)
    case RequestLoan(_, _) => "Loan received"
    case PayLoan(_, _) => "Loan payment made"
  }

  function StatusOf(op: Op, before: AccountStatus): AccountStatus {
    match op
    case ActivateAccount(_) => AccountStatus.Active
    case DeactivateAccount(_) => AccountStatus.Inactive
    case CloseAccount(_) => AccountStatus.Closed
    case _ => before
  }

  /** The amount the caller named, or was told was moved. */
  function AmountOf(op: Op, reply: Reply): int {
    match op
    case Deposit(_, amount) => amount
    case Withdraw(_, amount) => amount
    case ApplyFee(_, amount) => amount
    case RequestLoan(_, amount) => amount
    case ApplyInterest(_, _) => if reply.Paid? then reply.amount else 0
    case PayLoan(_, _) => if reply.Paid? then reply.amount else 0
    case _ => 0
  }

  /** An operation on one existing account: exactly one entry is added, and only what the operation names changes. */
  ghost predicate RecordedOn(l: Ledger, call: Call, reply: Reply, l': Ledger)
    requires Records(call.op)
  {
    var id := call.op.id;
    && id in l.accounts && id in l'.accounts
    && var (a, b) := (l.accounts[id], l'.accounts[id]);
       && l'.accounts == l.accounts[id := b] && l'.next == l.next + 1
       && |b.transactions| == |a.transactions| + 1 && b.transactions[..|a.transactions|] == a.transactions
       && (var t := b.transactions[|a.transactions|];
           && t.id == l.next && t.occurredAt == call.now && t.kind == KindOf(call.op)
           && t.amount == AmountOf(call.op, reply) && t.description == TextOf(call.op))
       && b.balance == a.balance + BalanceMove(call.op, reply, id)
       && b.loanBalance == a.loanBalance + LoanMove(call.op, reply, id)
       && b.status == StatusOf(call.op, a.status)
       && b.ownerId == a.ownerId && b.id == a.id
       && b.name == (if call.op.UpdateName? then Trim(call.op.name) else a.name)
       && b.email == (if call.op.UpdateEmail? then NameKey(call.op.email) else a.email)
  }

  /** The entry an operation posts, and the change of profile that goes with it. */
  ghost predicate PostsRecord(l: Ledger, call: Call, d: Decision)
    requires Records(call.op)
  {
    && d.reply.Ok? && d.effect.Post? && d.effect.id == call.op.id
    && d.effect.entry ==
       Transaction(l.next, call.now, KindOf(call.op), d.effect.entry.amount, TextOf(call.op))
    && d.effect.entry.amount == AmountOf(call.op, d.reply.value)
    && BalanceDelta(d.effect.entry) == BalanceMove(call.op, d.reply.value, call.op.id)
    && LoanDelta(d.effect.entry) == LoanMove(call.op, d.reply.value, call.op.id)
    && d.effect.change == if call.op.UpdateName? then SetName(Trim(call.op.name))
                          else if call.op.UpdateEmail? then SetEmail(NameKey(call.op.email))
                          else KeepProfile
  }

  lemma RecordPosted(l: Ledger, call: Call, d: Decision)
    requires Valid(l) && Records(call.op) && Admissible(l, d.effect) && PostsRecord(l, call, d)
    ensures RecordedOn(l, call, d.reply.value, Apply(l, d.effect))
  {
  }

  lemma ProfilePosts(l: Ledger, call: Call)
    requires Answer(l, call).Ok? && (call.op.UpdateName? || call.op.UpdateEmail?)
    ensures PostsRecord(l, call, Decide(l, call))
  {
  }

  lemma StatusPosts(l: Ledger, call: Call)
    requires Answer(l, call).Ok? && (call.op.ActivateAccount? || call.op.DeactivateAccount? || call.op.CloseAccount?)
    ensures PostsRecord(l, call, Decide(l, call))
  {
  }

  lemma DepositPosts(l: Ledger, call: Call)
    requires Answer(l, call).Ok? && call.op.Deposit?
    ensures PostsRecord(l, call, Decide(l, call))
  {
  }

  lemma DebitPosts(l: Ledger, call: Call)
    requires Answer(l, call).Ok? && (call.op.Withdraw? || call.op.ApplyFee?)
    ensures PostsRecord(l, call, Decide(l, call))
  {
  }

  lemma LoanPosts(l: Ledger, call: Call)
    requires Answer(l, call).Ok? && call.op.RequestLoan?
    ensures PostsRecord(l, call, Decide(l, call))
  {
  }

  lemma PaymentPosts(l: Ledger, call: Call)
    requires Answer(l, call).Ok? && call.op.PayLoan?
    ensures PostsRecord(l, call, Decide(l, call))
  {
  }

  lemma InterestPosts(l: Ledger, call: Call)
    requires Answer(l, call).Ok? && call.op.ApplyInterest?
    ensures PostsRecord(l, call, Decide(l, call))
  {
  }

  /** Every successful operation on one existing account records exactly one matching entry. */
  lemma RecordedOutcome(l: Ledger, call: Call)
    requires Valid(l) && Answer(l, call).Ok?
    requires Records(call.op)
    ensures RecordedOn(l, call, Answer(l, call).value, Step(l, call))
  {
    match call.op {
      case UpdateName(_, _) | UpdateEmail(_, _) => ProfilePosts(l, call);
      case ActivateAccount(_) | DeactivateAccount(_) | CloseAccount(_) => StatusPosts(l, call);
      case Deposit(_, _) => DepositPosts(l, call);
      case Withdraw(_, _) | ApplyFee(_, _) => DebitPosts(l, call);
      case ApplyInterest(_, _) => InterestPosts(l, call);
      case RequestLoan(_, _) => LoanPosts(l, call);
      case PayLoan(_, _) => PaymentPosts(l, call);
    }
    DecisionsSane(l, call);
    RecordPosted(l, call, Decide(l, call));
  }

  /** A successful payment is the smaller of what was offered and what is owed. */
  lemma PaymentAmount(l: Ledger, call: Call)
    requires Valid(l) && Answer(l, call).Ok? && call.op.PayLoan?
    ensures var (owed, paid) := (l.accounts[call.op.id].loanBalance, Answer(l, call).value.amount);
            paid <= call.op.amount && paid <= owed && (paid == call.op.amount || paid == owed)
  {
  }

  /** Opening and deleting change one key; a transfer writes both halves with consecutive ids. */
  lemma OtherOutcomes(l: Ledger, call: Call)
    requires Valid(l) && Answer(l, call).Ok?
    ensures call.op.CreateAccount? ==>
              var a := Answer(l, call).value.account;
              && Step(l, call) == Ledger(l.accounts[call.op.id := a], l.next + 1)
              && a.id == call.op.id && a.ownerId == call.op.ownerId && a.balance == call.op.opening
              && a.loanBalance == 0
              && a.name == Trim(call.op.name) && a.email == NameKey(call.op.email) && a.status.Active?
              && a.transactions == [Transaction(l.next, call.now, AccountCreated, call.op.opening, "Account created")]
    ensures call.op.DeleteAccount? ==>
              && Answer(l, call).value == Deleted(l.accounts[call.op.id])
              && Step(l, call) == Ledger(l.accounts - {call.op.id}, l.next)
  {
    DecisionsSane(l, call);
  }

  /** What a success answers: the account opened or deleted, the interest or the payment, and nothing otherwise. */
  lemma ReplyExact(l: Ledger, call: Call)
    requires Valid(l) && Answer(l, call).Ok?
    ensures var (id, reply) := (call.op.id, Answer(l, call).value);
            match call.op
            case CreateAccount(_, _, _, _, _) => reply == Opened(Step(l, call).accounts[id])
            case DeleteAccount(_) => reply == Deleted(l.accounts[id])
            case ApplyInterest(_, basisPoints) =>
              reply.Paid?
              && 10_000 * reply.amount <= l.accounts[id].balance * basisPoints < 10_000 * reply.amount + 10_000
            case PayLoan(_, amount) =>
              var owed := l.accounts[id].loanBalance;
              reply == Paid(if amount < owed then amount else owed)
            case _ => reply == Done
  {
    DecisionsSane(l, call);
    if call.op.ApplyInterest? {
      PercentageRounds(l.accounts[call.op.id].balance, call.op.basisPoints);
    }
  }

  /** The account with one more entry and another balance. */
  function WithEntry(a: Account, balance: i64, t: Transaction): Account {
    a.(balance := balance).Record(t)
  }

  lemma TransferDecided(l: Ledger, call: Call)
    requires Answer(l, call).Ok? && call.op.Transfer?
    ensures Decide(l, call).effect ==
            Move(call.op.id, call.op.to,
                 Transaction(l.next, call.now, TransferOut, call.op.amount,
                             "Transferred to account " + Decimal(call.op.to)),
                 Transaction(l.next + 1, call.later, TransferIn, call.op.amount,
                             "Received from account " + Decimal(call.op.id)))
  {
  }

  lemma MoveApplied(l: Ledger, source: AccountId, target: AccountId, outgoing: Transaction, incoming: Transaction)
    requires Admissible(l, Move(source, target, outgoing, incoming))
    ensures var (p, q) := (l.accounts[source], l.accounts[target]);
            Apply(l, Move(source, target, outgoing, incoming)) ==
            Ledger(l.accounts[source := WithEntry(p, p.balance - outgoing.amount, outgoing)]
                             [target := WithEntry(q, q.balance + incoming.amount, incoming)], l.next + 2)
  {
  }

  lemma TransferOutcome(l: Ledger, call: Call)
    requires Valid(l) && Answer(l, call).Ok? && call.op.Transfer?
    ensures var (l', p, q) := (Step(l, call), call.op.id, call.op.to);
            && l'.accounts.Keys == l.accounts.Keys && l'.next == l.next + 2
            && (forall id :: id in l.accounts && id != p && id != q ==> l'.accounts[id] == l.accounts[id])
            && (var (a, b) := (l.accounts[p], l'.accounts[p]);
                b == a.(balance := b.balance, transactions := b.transactions) && b.balance == a.balance - call.op.amount
                && b.transactions == a.transactions
                                     + [Transaction(l.next, call.now, TransferOut, call.op.amount,
                                                    "Transferred to account " + Decimal(q))])
            && (var (a, b) := (l.accounts[q], l'.accounts[q]);
                b == a.(balance := b.balance, transactions := b.transactions) && b.balance == a.balance + call.op.amount
                && b.transactions == a.transactions
                                     + [Transaction(l.next + 1, call.later, TransferIn, call.op.amount,
                                                    "Received from account " + Decimal(p))])
  {
    DecisionsSane(l, call);
    TransferDecided(l, call);
    var e := Decide(l, call).effect;
    MoveApplied(l, e.source, e.target, e.outgoing, e.incoming);
  }

  // ---- Which calls use up an id ---------------------------------------------------------------

  /** Some account cannot take the credit: the sum leaves the range of amounts. */
  predicate Overflows(amount: int, credit: int) {
    amount + credit > I64_MAX
  }

  /** The failing operations that nevertheless use up a transaction id. */
  predicate LosesId(l: Ledger, op: Op) {
    match op
    case Deposit(id, amount) =>
      CanMove(l, id) && amount > 0 && l.next < U64_MAX && Overflows(l.accounts[id].balance, amount)
    case RequestLoan(id, amount) =>
      && CanMove(l, id) && amount > 0 && l.next < U64_MAX
      && (Overflows(l.accounts[id].balance, amount) || Overflows(l.accounts[id].loanBalance, amount))
    case ApplyInterest(id, basisPoints) =>
      && CanMove(l, id) && basisPoints > 0 && l.next < U64_MAX && l.accounts[id].balance * basisPoints <= I64_MAX
      && Overflows(l.accounts[id].balance, l.accounts[id].balance * basisPoints / 10_000)
    case Transfer(source, target, amount) =>
      && source != target && CanMove(l, source) && CanMove(l, target)
      && 0 < amount <= l.accounts[source].balance && !Overflows(l.accounts[target].balance, amount)
      && l.next + 1 == U64_MAX
    case _ => false
  }

  /** The ids a successful operation puts on entries. */
  function IdsWritten(op: Op): nat {
    if op.DeleteAccount? then 0 else if op.Transfer? then 2 else 1
  }

  /** How far an effect moves the counter. */
  function Advance(e: Effect): nat {
    match e
    case Nothing | Remove(_) => 0
    case Move(_, _, _, _) => 2
    case _ => 1
  }

  lemma ApplyAdvances(l: Ledger, e: Effect)
    requires Admissible(l, e)
    ensures Apply(l, e).next == l.next + Advance(e)
  {
  }

  /** A success writes its ids; a failure uses up one iff it loses an id. */
  ghost predicate DecidesIds(l: Ledger, op: Op, d: Decision) {
    && (d.reply.Ok? ==> Advance(d.effect) == IdsWritten(op))
    && (d.reply.Err? ==> Advance(d.effect) == if LosesId(l, op) then 1 else 0)
    && (LosesId(l, op) ==> d.reply == Err(ArithmeticOverflow))
  }

  /** The counter moves by the ids a success writes; a failure moves it, by one, iff it loses an id. */
  ghost predicate CountsIds(l: Ledger, call: Call)
    requires Valid(l)
  {
    && (Answer(l, call).Ok? ==> Step(l, call).next == l.next + IdsWritten(call.op))
    && (Answer(l, call).Err? ==> Step(l, call).next == l.next + if LosesId(l, call.op) then 1 else 0)
    && (LosesId(l, call.op) ==> Answer(l, call) == Err(ArithmeticOverflow))
  }

  lemma LifecycleIds(l: Ledger, call: Call)
    requires Valid(l) && (call.op.CreateAccount? || call.op.ActivateAccount? || call.op.DeactivateAccount?
                          || call.op.CloseAccount? || call.op.DeleteAccount?)
    ensures DecidesIds(l, call.op, Decide(l, call))
  {
  }

  lemma ProfileIds(l: Ledger, call: Call)
    requires Valid(l) && (call.op.UpdateName? || call.op.UpdateEmail?)
    ensures DecidesIds(l, call.op, Decide(l, call))
  {
  }

  lemma DepositIds(l: Ledger, call: Call)
    requires Valid(l) && call.op.Deposit?
    ensures DecidesIds(l, call.op, Decide(l, call))
  {
  }

  lemma DebitIds(l: Ledger, call: Call)
    requires Valid(l) && (call.op.Withdraw? || call.op.ApplyFee?)
    ensures DecidesIds(l, call.op, Decide(l, call))
  {
  }

  lemma TransferIds(l: Ledger, call: Call)
    requires Valid(l) && call.op.Transfer?
    ensures DecidesIds(l, call.op, Decide(l, call))
  {
  }

  lemma LoanIds(l: Ledger, call: Call)
    requires Valid(l) && call.op.RequestLoan?
    ensures DecidesIds(l, call.op, Decide(l, call))
  {
  }

  lemma PaymentIds(l: Ledger, call: Call)
    requires Valid(l) && call.op.PayLoan?
    ensures DecidesIds(l, call.op, Decide(l, call))
  {
  }

  lemma InterestIds(l: Ledger, call: Call)
    requires Valid(l) && call.op.ApplyInterest?
    ensures DecidesIds(l, call.op, Decide(l, call))
  {
    if call.op.id in l.accounts {
      PercentageRounds(l.accounts[call.op.id].balance, call.op.basisPoints);
    }
  }

  lemma IdsCounted(l: Ledger, call: Call)
    requires Valid(l)
    ensures CountsIds(l, call)
  {
    match call.op {
      case CreateAccount(_, _, _, _, _) | ActivateAccount(_) | DeactivateAccount(_) | CloseAccount(_)
         | DeleteAccount(_) => LifecycleIds(l, call);
      case UpdateName(_, _) | UpdateEmail(_, _) => ProfileIds(l, call);
      case Deposit(_, _) => DepositIds(l, call);
      case Withdraw(_, _) | ApplyFee(_, _) => DebitIds(l, call);
      case Transfer(_, _, _) => TransferIds(l, call);
      case RequestLoan(_, _) => LoanIds(l, call);
      case PayLoan(_, _) => PaymentIds(l, call);
      case ApplyInterest(_, _) => InterestIds(l, call);
    }
    DecisionsSane(l, call);
    ApplyAdvances(l, Decide(l, call).effect);
  }

  /**
   * The whole ledger a failing call leaves: it uses up an id, and it credits a balance, exactly under these
   * conditions.
   */
  lemma FailureExact(l: Ledger, call: Call)
    requires Valid(l) && Answer(l, call).Err?
    ensures Step(l, call).next == l.next + 1 <==> LosesId(l, call.op)
    ensures Step(l, call).next == l.next <==> !LosesId(l, call.op)
    ensures var credited := if LoanOverflows(l, call) then
                              var a := l.accounts[call.op.id];
                              l.accounts[call.op.id := a.(balance := a.balance + call.op.amount)]
                            else l.accounts;
            Step(l, call) == Ledger(credited, l.next + if LosesId(l, call.op) then 1 else 0)
  {
    IdsCounted(l, call);
    FailureAtomicity(l, call);
  }

  /** Calls of which the second fails and yet uses up id 2. */
  function LosingCalls(): seq<Call> {
    [OpenFirst(I64_MAX), Call(Op.Deposit(1, 1), 0, 0)]
  }

  /** A deposit on a full account is refused, and the next transaction will carry id 3. */
  lemma DepositLosesId()
    ensures var (calls, full) := (LosingCalls(), LedgerRuns.Run(EMPTY, LosingCalls()[..1]));
            && Answer(full, calls[1]) == Err(ArithmeticOverflow)
            && full.next == 2 && LedgerRuns.Run(EMPTY, calls) == full.(next := 3)
  {
    FirstOpens(I64_MAX);
    var calls := LosingCalls();
    assert calls[..2] == calls && calls[..2][..1] == calls[..1] && calls[..1][..0] == [];
    var full := Step(EMPTY, calls[0]);
    assert LedgerRuns.Run(EMPTY, calls[..1]) == full;
    assert LosesId(full, calls[1].op);
    IdsCounted(full, calls[1]);
    FailureAtomicity(full, calls[1]);
  }
}
