/** The monthly fee: one fee attempt per account, in ascending order of account ids. */
module MonthlyFees {
  import opened Wrappers
  import opened Numbers
  import opened Ordered
  import opened Domain
  import opened Ledgers
  import opened LedgerTotals

  /** The k-th attempt; the clock is read once per attempt. */
  function FeeCall(ids: seq<AccountId>, amount: i64, clock: nat -> u64, k: nat): Call
    requires k < |ids|
  {
    Call(ApplyFee(ids[k], amount), clock(k), clock(k))
  }

  /** An account that can pay. */
  predicate Chargeable(l: Ledger, id: AccountId, amount: i64) {
    id in l.accounts && l.accounts[id].status.Active? && 0 < amount <= l.accounts[id].balance
  }

  /** How many of the first k accounts can pay, judged before any fee is taken. */
  function Payers(l: Ledger, ids: seq<AccountId>, amount: i64, k: nat): nat
    requires k <= |ids|
  {
    if k == 0 then 0 else Payers(l, ids, amount, k - 1) + if Chargeable(l, ids[k - 1], amount) then 1 else 0
  }

  /** The k-th account pays iff it can and enough ids are left after the payers before it. */
  predicate Charged(l: Ledger, ids: seq<AccountId>, amount: i64, k: nat)
    requires k < |ids|
  {
    Chargeable(l, ids[k], amount) && l.next + Payers(l, ids, amount, k) < U64_MAX
  }

  /** What an account is told, given whether an id is left for its entry. */
  function Verdict(a: Account, amount: i64, idLeft: bool): Result<Reply, BankError> {
    if amount <= 0 then Err(InvalidAmount)
    else match a.status
      case Inactive => Err(AccountInactive(a.id))
      case Closed => Err(AccountClosed(a.id))
      case Active =>
        if a.balance < amount then Err(InsufficientFunds(a.id, a.balance, amount))
        else if !idLeft then Err(ArithmeticOverflow)
        else Ok(Done)
  }

  /** What the k-th account is told, judged before any fee is taken. */
  function FeeAnswer(l: Ledger, ids: seq<AccountId>, amount: i64, k: nat): (r: Result<Reply, BankError>)
    requires k < |ids| && ids[k] in l.accounts
    ensures r.Ok? <==> Charged(l, ids, amount, k)
  {
    Verdict(l.accounts[ids[k]], amount, l.next + Payers(l, ids, amount, k) < U64_MAX)
  }

  function Charges(l: Ledger, ids: seq<AccountId>, amount: i64, k: nat): nat
    requires k <= |ids|
  {
    if k == 0 then 0 else Charges(l, ids, amount, k - 1) + if Charged(l, ids, amount, k - 1) then 1 else 0
  }

  /** An account that has paid the fee under the given transaction id. */
  function Paying(a: Account, amount: i64, id: u64, now: u64): Account
    requires 0 < amount <= a.balance
  {
    a.(balance := a.balance - amount).Record(Transaction(id, now, Fee, amount, "Bank fee applied"))
  }

  /** The k-th account once the fee has been attempted. */
  function AfterFee(l: Ledger, ids: seq<AccountId>, amount: i64, clock: nat -> u64, k: nat): Account
    requires k < |ids| && ids[k] in l.accounts
  {
    if Charged(l, ids, amount, k) then Paying(l.accounts[ids[k]], amount, l.next + Payers(l, ids, amount, k), clock(k))
    else l.accounts[ids[k]]
  }

  function Fees(l: Ledger, ids: seq<AccountId>, amount: i64, k: nat): int
    requires k <= |ids|
  {
    amount * Charges(l, ids, amount, k)
  }

  lemma FeesSum(l: Ledger, ids: seq<AccountId>, amount: i64, k: nat)
    requires k < |ids|
    ensures Fees(l, ids, amount, k + 1) == Fees(l, ids, amount, k) + if Charged(l, ids, amount, k) then amount else 0
  {
    var n := Charges(l, ids, amount, k);
    assert amount * (n + 1) == amount * n + amount;
  }

  lemma {:induction false} ChargesBounded(l: Ledger, ids: seq<AccountId>, amount: i64, k: nat)
    requires k <= |ids|
    ensures Charges(l, ids, amount, k) ==
            if l.next + Payers(l, ids, amount, k) <= U64_MAX then Payers(l, ids, amount, k) else U64_MAX - l.next
  {
    if k > 0 {
      ChargesBounded(l, ids, amount, k - 1);
    }
  }

  /** One attempt: a fee entry and nothing else, or no change at all. */
  function FeeOnce(l: Ledger, id: AccountId, amount: i64, now: u64): Ledger
    requires id in l.accounts
  {
    if Chargeable(l, id, amount) && l.next < U64_MAX then
      Ledger(l.accounts[id := Paying(l.accounts[id], amount, l.next, now)], l.next + 1)
    else l
  }

  lemma FeeStep(l: Ledger, id: AccountId, amount: i64, now: u64)
    requires Valid(l) && id in l.accounts
    ensures var call := Call(ApplyFee(id, amount), now, now);
            && Step(l, call) == FeeOnce(l, id, amount, now)
            && Answer(l, call) == Verdict(l.accounts[id], amount, l.next < U64_MAX)
  {
    DecisionsSane(l, Call(ApplyFee(id, amount), now, now));
  }

  lemma FeeTotals(l: Ledger, id: AccountId, amount: i64, now: u64)
    requires id in l.accounts && l.accounts[id].id == id
    ensures TotalBalances(FeeOnce(l, id, amount, now)) ==
            TotalBalances(l) - if Chargeable(l, id, amount) && l.next < U64_MAX then amount else 0
  {
    var l' := FeeOnce(l, id, amount, now);
    PutTotals(l, l'.accounts[id]);
    SameTotals(l', l.(accounts := l.accounts[id := l'.accounts[id]]));
  }

  /** Exactly the charged accounts among the first k have paid, once, with ascending fee ids. */
  ghost predicate AccountsAfter(l: Ledger, ids: seq<AccountId>, amount: i64, clock: nat -> u64, k: nat, l': Ledger)
    requires k <= |ids| && forall j :: 0 <= j < |ids| ==> ids[j] in l.accounts
  {
    && l'.accounts.Keys == l.accounts.Keys
    && forall j {:trigger l'.accounts[ids[j]]} :: 0 <= j < |ids| ==>
         l'.accounts[ids[j]] == if j < k then AfterFee(l, ids, amount, clock, j) else l.accounts[ids[j]]
  }

  /** After k attempts no other account has changed, and the total has dropped by the fees paid. */
  ghost predicate FeesTaken(l: Ledger, ids: seq<AccountId>, amount: i64, clock: nat -> u64, k: nat, l': Ledger)
    requires k <= |ids| && forall j :: 0 <= j < |ids| ==> ids[j] in l.accounts
  {
    && AccountsAfter(l, ids, amount, clock, k, l')
    && l'.next == l.next + Charges(l, ids, amount, k)
    && TotalBalances(l') == TotalBalances(l) - Fees(l, ids, amount, k)
  }

  lemma ChargedNow(l: Ledger, ids: seq<AccountId>, amount: i64, clock: nat -> u64, k: nat, s: Ledger)
    requires k < |ids| && forall j :: 0 <= j < |ids| ==> ids[j] in l.accounts
    requires AccountsAfter(l, ids, amount, clock, k, s) && s.next == l.next + Charges(l, ids, amount, k)
    ensures s.accounts[ids[k]] == l.accounts[ids[k]]
    ensures Chargeable(s, ids[k], amount) && s.next < U64_MAX <==> Charged(l, ids, amount, k)
    ensures Charged(l, ids, amount, k) ==> s.next == l.next + Payers(l, ids, amount, k)
    ensures s.next < U64_MAX <==> l.next + Payers(l, ids, amount, k) < U64_MAX
  {
    ChargesBounded(l, ids, amount, k);
  }

  lemma ChargedAccount(l: Ledger, ids: seq<AccountId>, amount: i64, clock: nat -> u64, k: nat, s: Ledger)
    requires k < |ids| && ids[k] in l.accounts && ids[k] in s.accounts
    requires s.accounts[ids[k]] == l.accounts[ids[k]]
    requires Chargeable(s, ids[k], amount) && s.next < U64_MAX <==> Charged(l, ids, amount, k)
    requires Charged(l, ids, amount, k) ==> s.next == l.next + Payers(l, ids, amount, k)
    ensures FeeOnce(s, ids[k], amount, clock(k)).accounts[ids[k]] == AfterFee(l, ids, amount, clock, k)
  {
  }

  lemma AccountsStep(l: Ledger, ids: seq<AccountId>, amount: i64, clock: nat -> u64, k: nat, s: Ledger)
    requires k < |ids| && StrictlyAscending(ids) && forall j :: 0 <= j < |ids| ==> ids[j] in l.accounts
    requires AccountsAfter(l, ids, amount, clock, k, s) && s.next == l.next + Charges(l, ids, amount, k)
    ensures AccountsAfter(l, ids, amount, clock, k + 1, FeeOnce(s, ids[k], amount, clock(k)))
  {
    ChargedNow(l, ids, amount, clock, k, s);
    ChargedAccount(l, ids, amount, clock, k, s);
    FeeChangesOne(s, ids[k], amount, clock(k));
    var s' := FeeOnce(s, ids[k], amount, clock(k));
    forall j | 0 <= j < |ids|
      ensures s'.accounts[ids[j]] == if j < k + 1 then AfterFee(l, ids, amount, clock, j) else l.accounts[ids[j]]
    {
      if j != k {
        assert ids[j] != ids[k];
        assert s'.accounts[ids[j]] == s.accounts[ids[j]];
      }
    }
  }

  lemma FeeChangesOne(s: Ledger, id: AccountId, amount: i64, now: u64)
    requires id in s.accounts
    ensures FeeOnce(s, id, amount, now).accounts.Keys == s.accounts.Keys
    ensures forall q :: q in s.accounts && q != id ==> FeeOnce(s, id, amount, now).accounts[q] == s.accounts[q]
  {
  }

  lemma FeesTakenStep(l: Ledger, ids: seq<AccountId>, amount: i64, clock: nat -> u64, k: nat, s: Ledger)
    requires Valid(l) && k < |ids| && Lists(ids, l.accounts.Keys)
    requires FeesTaken(l, ids, amount, clock, k, s)
    ensures FeesTaken(l, ids, amount, clock, k + 1, FeeOnce(s, ids[k], amount, clock(k)))
  {
    AccountsStep(l, ids, amount, clock, k, s);
    ChargedNow(l, ids, amount, clock, k, s);
    FeeTotals(s, ids[k], amount, clock(k));
    FeesSum(l, ids, amount, k);
  }

  lemma FeeAttempt(l: Ledger, ids: seq<AccountId>, amount: i64, clock: nat -> u64, k: nat, s: Ledger)
    requires Valid(l) && k < |ids| && Lists(ids, l.accounts.Keys)
    requires Valid(s) && FeesTaken(l, ids, amount, clock, k, s)
    ensures Answer(s, FeeCall(ids, amount, clock, k)) == FeeAnswer(l, ids, amount, k)
    ensures FeesTaken(l, ids, amount, clock, k + 1, Step(s, FeeCall(ids, amount, clock, k)))
  {
    FeesTakenStep(l, ids, amount, clock, k, s);
    ChargedNow(l, ids, amount, clock, k, s);
    FeeStep(s, ids[k], amount, clock(k));
  }

  /** The answers so far: each account in turn is told what it is due. */
  ghost predicate Answered(l: Ledger, ids: seq<AccountId>, amount: i64, r: seq<(AccountId, Result<Reply, BankError>)>)
    requires forall j :: 0 <= j < |ids| ==> ids[j] in l.accounts
  {
    && |r| <= |ids|
    && forall k :: 0 <= k < |r| ==>
         && r[k] == (ids[k], FeeAnswer(l, ids, amount, k))
         && (r[k].1.Ok? <==> Charged(l, ids, amount, k))
  }

  lemma AnsweredStep(l: Ledger, ids: seq<AccountId>, amount: i64, r: seq<(AccountId, Result<Reply, BankError>)>)
    requires forall j :: 0 <= j < |ids| ==> ids[j] in l.accounts
    requires Answered(l, ids, amount, r) && |r| < |ids|
    ensures Answered(l, ids, amount, r + [(ids[|r|], FeeAnswer(l, ids, amount, |r|))])
  {
  }

  lemma FeesAtStart(l: Ledger, ids: seq<AccountId>, amount: i64, clock: nat -> u64)
    requires forall j :: 0 <= j < |ids| ==> ids[j] in l.accounts
    ensures FeesTaken(l, ids, amount, clock, 0, l)
  {
  }
}
