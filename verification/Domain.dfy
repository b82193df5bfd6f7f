/** Accounts, transactions and what a list of transactions says about its account. */
module Domain {
  import opened Wrappers
  import opened Numbers

  type AccountId = u32
  type CustomerId = u32
  type UserId = u32

  datatype AccountStatus = Active | Inactive | Closed

  datatype TransactionKind =
    | AccountCreated
    | Deposit
    | Withdrawal
    | TransferIn
    | TransferOut
    | Fee
    | Interest
    | LoanRequested
    | LoanPayment
    | ProfileUpdated
    | Activated
    | Deactivated
    | Closed

  datatype Transaction = Transaction(id: u64, occurredAt: u64, kind: TransactionKind, amount: i64, description: string)

  datatype Account = Account(
    id: AccountId,
    ownerId: Option<CustomerId>,
    name: string,
    email: string,
    balance: i64,
    loanBalance: i64,
    status: AccountStatus,
    transactions: seq<Transaction>)
  {
    function Record(transaction: Transaction): Account {
      this.(transactions := transactions + [transaction])
    }
  }

  function NewAccount(id: AccountId, ownerId: Option<CustomerId>, name: string, email: string, opening: i64): Account {
    Account(id, ownerId, name, email, opening, 0, Active, [])
  }

  // ---- The meaning of a transaction list ------------------------------------------------------

  function BalanceDelta(t: Transaction): int {
    var amount: int := t.amount;
    match t.kind
    case AccountCreated | Deposit | TransferIn | Interest | LoanRequested => amount
    case Withdrawal | TransferOut | Fee | LoanPayment => 0 - amount
    case ProfileUpdated | Activated | Deactivated | Closed => 0
  }

  function LoanDelta(t: Transaction): int {
    var amount: int := t.amount;
    match t.kind
    case LoanRequested => amount
    case LoanPayment => 0 - amount
    case _ => 0
  }

  function StatusAfter(status: AccountStatus, kind: TransactionKind): AccountStatus {
    match kind
    case AccountCreated | Activated => AccountStatus.Active
    case Deactivated => AccountStatus.Inactive
    case Closed => AccountStatus.Closed
    case _ => status
  }

  /** The balance a transaction list adds up to. */
  function BalanceReplay(ts: seq<Transaction>): int {
    if ts == [] then 0 else BalanceReplay(ts[..|ts| - 1]) + BalanceDelta(ts[|ts| - 1])
  }

  function LoanReplay(ts: seq<Transaction>): int {
    if ts == [] then 0 else LoanReplay(ts[..|ts| - 1]) + LoanDelta(ts[|ts| - 1])
  }

  /** The status implied by the last status-changing transaction. */
  function StatusReplay(ts: seq<Transaction>): AccountStatus {
    if ts == [] then AccountStatus.Active else StatusAfter(StatusReplay(ts[..|ts| - 1]), ts[|ts| - 1].kind)
  }

  lemma ReplayAppend(ts: seq<Transaction>, t: Transaction)
    ensures BalanceReplay(ts + [t]) == BalanceReplay(ts) + BalanceDelta(t)
    ensures LoanReplay(ts + [t]) == LoanReplay(ts) + LoanDelta(t)
    ensures StatusReplay(ts + [t]) == StatusAfter(StatusReplay(ts), t.kind)
  {
    assert (ts + [t])[..|ts|] == ts;
  }

  predicate AscendingIds(ts: seq<Transaction>) {
    forall i, j :: 0 <= i < j < |ts| ==> ts[i].id < ts[j].id
  }
}
