/** The bank object: a map of accounts and a transaction counter, updated step by step. */
module Banks {
  import opened Wrappers
  import opened Numbers
  import opened Ordered
  import opened Text
  import opened Money
  import opened Domain
  import opened Ledgers
  import opened Imports
  import opened LedgerTotals
  import opened MonthlyFees

  class Bank {
    var accounts: map<AccountId, Account>
    var nextTransactionId: u64

    ghost function State(): Ledger
      reads this
    {
      Ledger(accounts, nextTransactionId)
    }

    ghost predicate IsValid()
      reads this
    {
      Valid(State())
    }

    constructor ()
      ensures IsValid() && State() == EMPTY
    {
      accounts, nextTransactionId := map[], 1;
    }

    /** Import: validate each account, then its transaction ids, then its own id; the counter follows the highest id. */
    static method FromAccounts(list: seq<Account>) returns (r: Result<Bank, BankError>)
      ensures match Imports.FromAccounts(list)
              case Err(error) => r == Err(error)
              case Ok(l) => r.Ok? && fresh(r.value) && r.value.State() == l && r.value.IsValid()
    {
      ghost var spec := Imports.FromAccounts(list);
      if spec.Ok? {
        ImportedIsLoadable(list);
      }
      var bank := new Bank();
      var seenIds: set<u64> := {};
      var highest: u64 := 0;
      for i := 0 to |list|
        invariant fresh(bank)
        invariant ImportRest(list[i..], bank.accounts, Seen(seenIds, highest)) == Imports.FromAccounts(list)
      {
        var account := list[i];
        assert list[i..][0] == account && list[i..][1..] == list[i + 1..];
        var fault := AccountFault(account);
        if fault.Some? {
          return Err(fault.value);
        }
        ghost var before := Seen(seenIds, highest);
        for j := 0 to |account.transactions|
          invariant Scan(account.transactions[j..], Seen(seenIds, highest)) == Scan(account.transactions, before)
        {
          var id := account.transactions[j].id;
          assert account.transactions[j..][0].id == id
              && account.transactions[j..][1..] == account.transactions[j + 1..];
          if id == 0 {
            return Err(InvalidTransactionId(id));
          }
          if id in seenIds {
            return Err(DuplicateTransactionId(id));
          }
          seenIds := seenIds + {id};
          highest := if id > highest then id else highest;
        }
        if account.id in bank.accounts {
          return Err(AccountAlreadyExists(account.id));
        }
        bank.accounts := bank.accounts[account.id := account];
      }
      var next := CheckedU64(highest + 1);
      if next.None? {
        return Err(ArithmeticOverflow);
      }
      bank.nextTransactionId := next.value;
      return Ok(bank);
    }

    method NextTransaction(kind: TransactionKind, amount: i64, description: string, now: u64)
      returns (r: Result<Transaction, BankError>)
      modifies this`nextTransactionId
      ensures old(nextTransactionId) == U64_MAX ==> r == Err(ArithmeticOverflow) && nextTransactionId == U64_MAX
      ensures old(nextTransactionId) < U64_MAX ==>
                && nextTransactionId == old(nextTransactionId) + 1
                && r == Ok(Transaction(old(nextTransactionId), now, kind, amount, description))
    {
      var id := nextTransactionId;
      var advanced := CheckedU64(nextTransactionId + 1);
      if advanced.None? {
        return Err(ArithmeticOverflow);
      }
      nextTransactionId := advanced.value;
      return Ok(Transaction(id, now, kind, amount, description));
    }

    method CreateAccount(id: AccountId, ownerId: Option<CustomerId>, name: string, email: string, opening: i64,
                         now: u64)
      returns (r: Result<Reply, BankError>)
      requires IsValid()
      modifies this
      ensures var call := Call(Op.CreateAccount(id, ownerId, name, email, opening), now, now);
              State() == Step(old(State()), call) && r == Answer(old(State()), call)
    {
      if id in accounts {
        return Err(AccountAlreadyExists(id));
      }
      if opening < 0 {
        return Err(InvalidAmount);
      }
      var cleanName := CleanName(name);
      if cleanName.None? {
        return Err(InvalidProfileField("name"));
      }
      var cleanEmail := CleanEmail(email);
      if cleanEmail.None? {
        return Err(InvalidProfileField("email"));
      }
      var account := NewAccount(id, ownerId, cleanName.value, cleanEmail.value, opening);
      var transaction :- NextTransaction(AccountCreated, opening, "Account created", now);
      account := account.Record(transaction);
      accounts := accounts[id := account];
      return Ok(Opened(account));
    }

    method UpdateName(id: AccountId, name: string, now: u64) returns (r: Result<Reply, BankError>)
      requires IsValid()
      modifies this
      ensures var call := Call(Op.UpdateName(id, name), now, now);
              State() == Step(old(State()), call) && r == Answer(old(State()), call)
    {
      var cleaned := CleanName(name);
      if cleaned.None? {
        return Err(InvalidProfileField("name"));
      }
      if id !in accounts {
        return Err(AccountNotFound(id));
      }
      var transaction :- NextTransaction(ProfileUpdated, 0, "Name updated", now);
      accounts := accounts[id := accounts[id].(name := cleaned.value)];
      accounts := accounts[id := accounts[id].Record(transaction)];
      return Ok(Done);
    }

    method UpdateEmail(id: AccountId, email: string, now: u64) returns (r: Result<Reply, BankError>)
      requires IsValid()
      modifies this
      ensures var call := Call(Op.UpdateEmail(id, email), now, now);
              State() == Step(old(State()), call) && r == Answer(old(State()), call)
    {
      var cleaned := CleanEmail(email);
      if cleaned.None? {
        return Err(InvalidProfileField("email"));
      }
      if id !in accounts {
        return Err(AccountNotFound(id));
      }
      var transaction :- NextTransaction(ProfileUpdated, 0, "Email updated", now);
      accounts := accounts[id := accounts[id].(email := cleaned.value)];
      accounts := accounts[id := accounts[id].Record(transaction)];
      return Ok(Done);
    }

    method ActivateAccount(id: AccountId, now: u64) returns (r: Result<Reply, BankError>)
      requires IsValid()
      modifies this
      ensures var call := Call(Op.ActivateAccount(id), now, now);
              State() == Step(old(State()), call) && r == Answer(old(State()), call)
    {
      if id !in accounts {
        return Err(AccountNotFound(id));
      }
      if accounts[id].status.Closed? {
        return Err(AccountClosed(id));
      }
      var transaction :- NextTransaction(Activated, 0, "Account activated", now);
      accounts := accounts[id := accounts[id].(status := AccountStatus.Active)];
      accounts := accounts[id := accounts[id].Record(transaction)];
      return Ok(Done);
    }

    method DeactivateAccount(id: AccountId, now: u64) returns (r: Result<Reply, BankError>)
      requires IsValid()
      modifies this
      ensures var call := Call(Op.DeactivateAccount(id), now, now);
              State() == Step(old(State()), call) && r == Answer(old(State()), call)
    {
      if id !in accounts {
        return Err(AccountNotFound(id));
      }
      if accounts[id].status.Closed? {
        return Err(AccountClosed(id));
      }
      var transaction :- NextTransaction(Deactivated, 0, "Account deactivated", now);
      accounts := accounts[id := accounts[id].(status := AccountStatus.Inactive)];
      accounts := accounts[id := accounts[id].Record(transaction)];
      return Ok(Done);
    }

    method CloseAccount(id: AccountId, now: u64) returns (r: Result<Reply, BankError>)
      requires IsValid()
      modifies this
      ensures var call := Call(Op.CloseAccount(id), now, now);
              State() == Step(old(State()), call) && r == Answer(old(State()), call)
    {
      if id !in accounts {
        return Err(AccountNotFound(id));
      }
      if accounts[id].balance != 0 {
        return Err(AccountHasBalance(id, accounts[id].balance));
      }
      if accounts[id].loanBalance != 0 {
        return Err(AccountHasLoan(id, accounts[id].loanBalance));
      }
      var transaction :- NextTransaction(TransactionKind.Closed, 0, "Account closed", now);
      accounts := accounts[id := accounts[id].(status := AccountStatus.Closed)];
      accounts := accounts[id := accounts[id].Record(transaction)];
      return Ok(Done);
    }

    method DeleteAccount(id: AccountId) returns (r: Result<Reply, BankError>)
      requires IsValid()
      modifies this`accounts
      ensures forall now: u64 :: var call := Call(Op.DeleteAccount(id), now, now);
              State() == Step(old(State()), call) && r == Answer(old(State()), call)
    {
      if id !in accounts {
        return Err(AccountNotFound(id));
      }
      var account := accounts[id];
      if account.balance != 0 {
        return Err(AccountHasBalance(id, account.balance));
      }
      if account.loanBalance != 0 {
        return Err(AccountHasLoan(id, account.loanBalance));
      }
      accounts := accounts - {id};
      return Ok(Deleted(account));
    }

    method EnsureCanTransact(id: AccountId) returns (r: Option<BankError>)
      ensures r == Refusal(State(), id)
    {
      if id !in accounts {
        return Some(AccountNotFound(id));
      }
      match accounts[id].status {
        case Active => return None;
        case Inactive => return Some(AccountInactive(id));
        case Closed => return Some(AccountClosed(id));
      }
    }

    method EnsureSufficientFunds(id: AccountId, required: i64) returns (r: Option<BankError>)
      ensures r == Shortage(State(), id, required)
    {
      if id !in accounts {
        return Some(AccountNotFound(id));
      }
      if accounts[id].balance < required {
        return Some(InsufficientFunds(id, accounts[id].balance, required));
      }
      return None;
    }

    method Deposit(id: AccountId, amount: i64, now: u64) returns (r: Result<Reply, BankError>)
      requires IsValid()
      modifies this
      ensures var call := Call(Op.Deposit(id, amount), now, now);
              State() == Step(old(State()), call) && r == Answer(old(State()), call)
    {
      if amount <= 0 {
        return Err(InvalidAmount);
      }
      var refusal := EnsureCanTransact(id);
      if refusal.Some? {
        return Err(refusal.value);
      }
      var transaction :- NextTransaction(TransactionKind.Deposit, amount, "Money deposited", now);
      var balance := CheckedAdd(accounts[id].balance, amount);
      if balance.None? {
        return Err(ArithmeticOverflow);
      }
      accounts := accounts[id := accounts[id].(balance := balance.value)];
      accounts := accounts[id := accounts[id].Record(transaction)];
      return Ok(Done);
    }

    method Withdraw(id: AccountId, amount: i64, now: u64) returns (r: Result<Reply, BankError>)
      requires IsValid()
      modifies this
      ensures var call := Call(Op.Withdraw(id, amount), now, now);
              State() == Step(old(State()), call) && r == Answer(old(State()), call)
    {
      if amount <= 0 {
        return Err(InvalidAmount);
      }
      var refusal := EnsureCanTransact(id);
      if refusal.Some? {
        return Err(refusal.value);
      }
      var shortage := EnsureSufficientFunds(id, amount);
      if shortage.Some? {
        return Err(shortage.value);
      }
      var transaction :- NextTransaction(Withdrawal, amount, "Money withdrawn", now);
      var balance := CheckedSub(accounts[id].balance, amount);
      if balance.None? {
        return Err(ArithmeticOverflow);
      }
      accounts := accounts[id := accounts[id].(balance := balance.value)];
      accounts := accounts[id := accounts[id].Record(transaction)];
      return Ok(Done);
    }

    method Transfer(source: AccountId, target: AccountId, amount: i64, now: u64, later: u64)
      returns (r: Result<Reply, BankError>)
      requires IsValid()
      modifies this
      ensures var call := Call(Op.Transfer(source, target, amount), now, later);
              State() == Step(old(State()), call) && r == Answer(old(State()), call)
    {
      if amount <= 0 {
        return Err(InvalidAmount);
      }
      if source == target {
        return Err(SameAccountTransfer(source));
      }
      var refusal := EnsureCanTransact(source);
      if refusal.Some? {
        return Err(refusal.value);
      }
      refusal := EnsureCanTransact(target);
      if refusal.Some? {
        return Err(refusal.value);
      }
      var shortage := EnsureSufficientFunds(source, amount);
      if shortage.Some? {
        return Err(shortage.value);
      }
      var nextSource := CheckedSub(accounts[source].balance, amount);
      if nextSource.None? {
        return Err(ArithmeticOverflow);
      }
      var nextTarget := CheckedAdd(accounts[target].balance, amount);
      if nextTarget.None? {
        return Err(ArithmeticOverflow);
      }
      r := RecordTransfer(source, target, amount, nextSource.value, nextTarget.value, now, later);
    }

    /** The second half of a transfer: take two ids, then write both accounts. */
    method RecordTransfer(source: AccountId, target: AccountId, amount: i64, nextSource: i64, nextTarget: i64, now: u64,
                          later: u64)
      returns (r: Result<Reply, BankError>)
      requires source in accounts && target in accounts && source != target
      modifies this
      ensures old(nextTransactionId) == U64_MAX ==> r == Err(ArithmeticOverflow) && State() == old(State())
      ensures old(nextTransactionId) + 1 == U64_MAX ==>
                r == Err(ArithmeticOverflow) && State() == Ledger(old(accounts), U64_MAX)
      ensures old(nextTransactionId) + 1 < U64_MAX ==>
                var id := old(nextTransactionId);
                var outgoing := Transaction(id, now, TransferOut, amount, "Transferred to account " + Decimal(target));
                var incoming := Transaction(id + 1, later, TransferIn, amount,
                                            "Received from account " + Decimal(source));
                && r == Ok(Done)
                && nextTransactionId == id + 2
                && accounts == old(accounts)
                     [source := old(accounts[source]).(balance := nextSource).Record(outgoing)]
                     [target := old(accounts[target]).(balance := nextTarget).Record(incoming)]
    {
      var outgoing :- NextTransaction(TransferOut, amount, "Transferred to account " + Decimal(target), now);
      var incoming :- NextTransaction(TransferIn, amount, "Received from account " + Decimal(source), later);
      accounts := accounts[source := accounts[source].(balance := nextSource)];
      accounts := accounts[source := accounts[source].Record(outgoing)];
      accounts := accounts[target := accounts[target].(balance := nextTarget)];
      accounts := accounts[target := accounts[target].Record(incoming)];
      return Ok(Done);
    }

    method ApplyFee(id: AccountId, amount: i64, now: u64) returns (r: Result<Reply, BankError>)
      requires IsValid()
      modifies this
      ensures var call := Call(Op.ApplyFee(id, amount), now, now);
              State() == Step(old(State()), call) && r == Answer(old(State()), call)
    {
      if amount <= 0 {
        return Err(InvalidAmount);
      }
      var refusal := EnsureCanTransact(id);
      if refusal.Some? {
        return Err(refusal.value);
      }
      var shortage := EnsureSufficientFunds(id, amount);
      if shortage.Some? {
        return Err(shortage.value);
      }
      var transaction :- NextTransaction(Fee, amount, "Bank fee applied", now);
      var balance := CheckedSub(accounts[id].balance, amount);
      if balance.None? {
        return Err(ArithmeticOverflow);
      }
      accounts := accounts[id := accounts[id].(balance := balance.value)];
      accounts := accounts[id := accounts[id].Record(transaction)];
      return Ok(Done);
    }

    method ApplyInterest(id: AccountId, basisPoints: u32, now: u64) returns (r: Result<Reply, BankError>)
      requires IsValid()
      modifies this
      ensures var call := Call(Op.ApplyInterest(id, basisPoints), now, now);
              State() == Step(old(State()), call) && r == Answer(old(State()), call)
    {
      if basisPoints == 0 {
        return Err(InvalidAmount);
      }
      var refusal := EnsureCanTransact(id);
      if refusal.Some? {
        return Err(refusal.value);
      }
      var interest := CheckedPercentage(accounts[id].balance, basisPoints);
      if interest.None? {
        return Err(ArithmeticOverflow);
      }
      var transaction :- NextTransaction(Interest, interest.value, "Interest added at " + PrintRate(basisPoints), now);
      var balance := CheckedAdd(accounts[id].balance, interest.value);
      if balance.None? {
        return Err(ArithmeticOverflow);
      }
      accounts := accounts[id := accounts[id].(balance := balance.value)];
      accounts := accounts[id := accounts[id].Record(transaction)];
      return Ok(Paid(interest.value));
    }

    method RequestLoan(id: AccountId, amount: i64, now: u64) returns (r: Result<Reply, BankError>)
      requires IsValid()
      modifies this
      ensures var call := Call(Op.RequestLoan(id, amount), now, now);
              State() == Step(old(State()), call) && r == Answer(old(State()), call)
    {
      if amount <= 0 {
        return Err(InvalidAmount);
      }
      var refusal := EnsureCanTransact(id);
      if refusal.Some? {
        return Err(refusal.value);
      }
      var transaction :- NextTransaction(LoanRequested, amount, "Loan received", now);
      var balance := CheckedAdd(accounts[id].balance, amount);
      if balance.None? {
        return Err(ArithmeticOverflow);
      }
      accounts := accounts[id := accounts[id].(balance := balance.value)];
      var loanBalance := CheckedAdd(accounts[id].loanBalance, amount);
      if loanBalance.None? {
        return Err(ArithmeticOverflow);
      }
      accounts := accounts[id := accounts[id].(loanBalance := loanBalance.value)];
      accounts := accounts[id := accounts[id].Record(transaction)];
      assert accounts == old(accounts)[id := Posted(old(accounts)[id], transaction)];
      return Ok(Done);
    }

    method PayLoan(id: AccountId, amount: i64, now: u64) returns (r: Result<Reply, BankError>)
      requires IsValid()
      modifies this
      ensures var call := Call(Op.PayLoan(id, amount), now, now);
              State() == Step(old(State()), call) && r == Answer(old(State()), call)
    {
      if amount <= 0 {
        return Err(InvalidAmount);
      }
      var refusal := EnsureCanTransact(id);
      if refusal.Some? {
        return Err(refusal.value);
      }
      if accounts[id].loanBalance == 0 {
        return Err(NoLoan(id));
      }
      var payment := if amount < accounts[id].loanBalance then amount else accounts[id].loanBalance;
      if accounts[id].balance < payment {
        return Err(InsufficientFunds(id, accounts[id].balance, payment));
      }
      var transaction :- NextTransaction(LoanPayment, payment, "Loan payment made", now);
      var balance := CheckedSub(accounts[id].balance, payment);
      if balance.None? {
        return Err(ArithmeticOverflow);
      }
      accounts := accounts[id := accounts[id].(balance := balance.value)];
      var loanBalance := CheckedSub(accounts[id].loanBalance, payment);
      if loanBalance.None? {
        return Err(ArithmeticOverflow);
      }
      accounts := accounts[id := accounts[id].(loanBalance := loanBalance.value)];
      accounts := accounts[id := accounts[id].Record(transaction)];
      assert accounts == old(accounts)[id := Posted(old(accounts)[id], transaction)];
      return Ok(Paid(payment));
    }

    method ApplyMonthlyFee(amount: i64, clock: nat -> u64)
      returns (r: seq<(AccountId, Result<Reply, BankError>)>, ghost ids: seq<AccountId>)
      requires IsValid()
      modifies this
      ensures Lists(ids, old(accounts).Keys) && |r| == |ids|
      ensures FeesTaken(old(State()), ids, amount, clock, |ids|, State())
      ensures Answered(old(State()), ids, amount, r)
    {
      var accountIds := ListKeys(accounts.Keys);
      ids := accountIds;
      ghost var start := State();
      FeesAtStart(start, ids, amount, clock);
      r := [];
      for k := 0 to |accountIds|
        invariant |r| == k && IsValid() && FeesTaken(start, ids, amount, clock, k, State())
        invariant Answered(start, ids, amount, r)
      {
        FeeAttempt(start, ids, amount, clock, k, State());
        AnsweredStep(start, ids, amount, r);
        var outcome := ApplyFee(accountIds[k], amount, clock(k));
        r := r + [(accountIds[k], outcome)];
      }
    }

    method TotalBalance() returns (r: Result<i64, BankError>)
      requires IsValid()
      ensures TotalBalances(State()) <= I64_MAX ==> r == Ok(TotalBalances(State()))
      ensures TotalBalances(State()) > I64_MAX ==> r == Err(ArithmeticOverflow)
    {
      var ids := ListKeys(accounts.Keys);
      var total: i64 := 0;
      ListedTotal(State(), ids);
      for k := 0 to |ids|
        invariant total == Partial(accounts, ids[..k])
      {
        PartialStep(State(), ids, k);
        var sum := CheckedAdd(total, accounts[ids[k]].balance);
        if sum.None? {
          return Err(ArithmeticOverflow);
        }
        total := sum.value;
      }
      assert ids[..|ids|] == ids;
      return Ok(total);
    }
  }
}
