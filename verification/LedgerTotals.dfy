/** Money across the whole ledger: sums over all accounts, and their conservation. */
module LedgerTotals {
  import opened Sums
  import opened Ordered
  import opened Domain
  import opened Ledgers
  import opened LedgerRuns
  import opened LedgerLaws

  ghost function Balances(l: Ledger): map<int, int> {
    map id: int | id in l.accounts :: l.accounts[id].balance
  }

  ghost function Loans(l: Ledger): map<int, int> {
    map id: int | id in l.accounts :: l.accounts[id].loanBalance
  }

  ghost function TotalBalances(l: Ledger): int {
    Sum(Balances(l))
  }

  ghost function TotalLoans(l: Ledger): int {
    Sum(Loans(l))
  }

  /** What the bank as a whole is worth: what it holds for its customers minus what they owe. */
  ghost function Net(l: Ledger): int {
    TotalBalances(l) - TotalLoans(l)
  }

  lemma PutBalances(l: Ledger, a: Account)
    ensures Balances(l.(accounts := l.accounts[a.id := a])) == Balances(l)[a.id := a.balance]
    ensures Loans(l.(accounts := l.accounts[a.id := a])) == Loans(l)[a.id := a.loanBalance]
  {
  }

  lemma PutTotals(l: Ledger, a: Account)
    ensures var l' := l.(accounts := l.accounts[a.id := a]);
            && TotalBalances(l') ==
               TotalBalances(l) + a.balance - (if a.id in l.accounts then l.accounts[a.id].balance else 0)
            && TotalLoans(l') ==
               TotalLoans(l) + a.loanBalance - (if a.id in l.accounts then l.accounts[a.id].loanBalance else 0)
  {
    PutBalances(l, a);
    SumUpdate(Balances(l), a.id, a.balance);
    SumUpdate(Loans(l), a.id, a.loanBalance);
  }

  lemma DropTotals(l: Ledger, id: AccountId)
    requires id in l.accounts
    ensures var l' := l.(accounts := l.accounts - {id});
            && TotalBalances(l') == TotalBalances(l) - l.accounts[id].balance
            && TotalLoans(l') == TotalLoans(l) - l.accounts[id].loanBalance
  {
    var l' := l.(accounts := l.accounts - {id});
    SumWithout(Balances(l), id);
    SumWithout(Loans(l), id);
    assert Balances(l') == Balances(l) - {id};
    assert Loans(l') == Loans(l) - {id};
  }

  lemma SameTotals(l: Ledger, l': Ledger)
    requires l.accounts == l'.accounts
    ensures TotalBalances(l) == TotalBalances(l') && TotalLoans(l) == TotalLoans(l')
  {
    assert Balances(l) == Balances(l') && Loans(l) == Loans(l');
  }

  /** What a call brings into the bank or takes out of it, judged by its arguments and its answer. */
  function Flow(l: Ledger, call: Call): int {
    match Answer(l, call)
    case Err(_) => if LoanOverflows(l, call) then call.op.amount else 0
    case Ok(reply) =>
      match call.op
      case CreateAccount(_, _, _, _, opening) => opening
      case Deposit(_, amount) => amount
      case Withdraw(_, amount) => 0 - amount
      case ApplyFee(_, amount) => 0 - amount
      case ApplyInterest(_, _) => if reply.Paid? then reply.amount else 0
      case _ => 0
  }

  function TotalFlow(l: Ledger, calls: seq<Call>): int
    requires Valid(l)
  {
    if calls == [] then 0 else
      TotalFlow(l, calls[..|calls| - 1]) + Flow(Run(l, calls[..|calls| - 1]), calls[|calls| - 1])
  }

  lemma PostTotals(l: Ledger, id: AccountId, change: Change, t: Transaction)
    requires Valid(l) && Admissible(l, Post(id, change, t))
    ensures var l' := Apply(l, Post(id, change, t));
            && TotalBalances(l') == TotalBalances(l) + BalanceDelta(t)
            && TotalLoans(l') == TotalLoans(l) + LoanDelta(t)
  {
    var a := Reprofile(Posted(l.accounts[id], t), change);
    PutTotals(l, a);
    SameTotals(Apply(l, Post(id, change, t)), l.(accounts := l.accounts[a.id := a]));
  }

  lemma EffectTotals(l: Ledger, e: Effect)
    requires Valid(l) && Admissible(l, e)
    ensures var l' := Apply(l, e);
            Net(l') == Net(l) + (match e
                                 case Open(a) => a.balance
                                 case Post(_, _, t) => BalanceDelta(t) - LoanDelta(t)
                                 case Leak(_, amount) => amount
                                 case _ => 0)
  {
    var l' := Apply(l, e);
    match e {
      case Open(a) =>
        PutTotals(l, a);
        SameTotals(l', l.(accounts := l.accounts[a.id := a]));
      case Post(id, change, t) => PostTotals(l, id, change, t);
      case Move(source, target, outgoing, incoming) =>
        MoveIsTwoPosts(l, source, target, outgoing, incoming);
        var mid := Apply(l, Post(source, KeepProfile, outgoing));
        ApplyValid(l, Post(source, KeepProfile, outgoing));
        PostTotals(l, source, KeepProfile, outgoing);
        PostTotals(mid, target, KeepProfile, incoming);
      case Remove(id) =>
        DropTotals(l, id);
        SameTotals(l', l.(accounts := l.accounts - {id}));
      case Leak(id, amount) =>
        var a := l.accounts[id].(balance := l.accounts[id].balance + amount);
        PutTotals(l, a);
        SameTotals(l', l.(accounts := l.accounts[a.id := a]));
      case _ => SameTotals(l, l');
    }
  }

  lemma FlowOfShape(l: Ledger, call: Call)
    requires Valid(l)
    ensures Flow(l, call) == (match Decide(l, call).effect
                              case Open(a) => a.balance
                              case Post(_, _, t) => BalanceDelta(t) - LoanDelta(t)
                              case Leak(_, amount) => amount
                              case _ => 0)
  {
    Shapes(l, call);
    DecisionsSane(l, call);
  }

  /** Over every run, balances minus loans change by exactly the money that flowed in and out. */
  lemma {:induction false} Conservation(l: Ledger, calls: seq<Call>)
    requires Valid(l)
    ensures Net(Run(l, calls)) == Net(l) + TotalFlow(l, calls)
  {
    if calls != [] {
      var before, call := Run(l, calls[..|calls| - 1]), calls[|calls| - 1];
      Conservation(l, calls[..|calls| - 1]);
      FlowOfShape(before, call);
      DecisionsSane(before, call);
      EffectTotals(before, Decide(before, call).effect);
    }
  }

  // ---- Adding balances in key order -----------------------------------------------------------

  /** The sum of the values of the given keys, in order. */
  function Partial(accounts: map<AccountId, Account>, ids: seq<AccountId>): int
    requires forall k :: 0 <= k < |ids| ==> ids[k] in accounts
  {
    if ids == [] then 0 else Partial(accounts, ids[..|ids| - 1]) + accounts[ids[|ids| - 1]].balance
  }

  lemma {:induction false} PartialIsSum(l: Ledger, ids: seq<AccountId>, m: map<int, int>)
    requires forall k :: 0 <= k < |ids| ==> ids[k] in l.accounts
    requires StrictlyAscending(ids)
    requires forall id :: id in m <==> id in ids
    requires forall id :: id in m ==> m[id] == l.accounts[id].balance
    ensures Partial(l.accounts, ids) == Sum(m)
  {
    if ids == [] {
      SumOfNothing(m);
    } else {
      var last, init := ids[|ids| - 1], ids[..|ids| - 1];
      assert ids == init + [last];
      assert last in ids;
      SumWithout(m, last);
      forall id: int
        ensures id in m - {last} <==> id in init
      {
      }
      PartialIsSum(l, init, m - {last});
    }
  }

  /** Balances are never negative, so a partial sum never exceeds the total. */
  lemma {:induction false} PartialGrows(l: Ledger, ids: seq<AccountId>, k: nat)
    requires Valid(l) && k <= |ids|
    requires forall i :: 0 <= i < |ids| ==> ids[i] in l.accounts
    ensures 0 <= Partial(l.accounts, ids[..k]) <= Partial(l.accounts, ids)
    decreases |ids|
  {
    if ids != [] {
      var init := ids[..|ids| - 1];
      if k == |ids| {
        assert ids[..k] == ids;
        PartialGrows(l, init, |init|);
        assert init[..|init|] == init;
      } else {
        assert ids[..k] == init[..k];
        PartialGrows(l, init, k);
      }
    }
  }

  /** One more summand: the partial sum stays between nothing and the total. */
  lemma PartialStep(l: Ledger, ids: seq<AccountId>, k: nat)
    requires Valid(l) && k < |ids|
    requires forall i :: 0 <= i < |ids| ==> ids[i] in l.accounts
    ensures Partial(l.accounts, ids[..k + 1]) == Partial(l.accounts, ids[..k]) + l.accounts[ids[k]].balance
    ensures 0 <= Partial(l.accounts, ids[..k + 1]) <= Partial(l.accounts, ids)
  {
    assert ids[..k + 1][..k] == ids[..k];
    PartialGrows(l, ids, k + 1);
  }

  lemma ListedTotal(l: Ledger, ids: seq<AccountId>)
    requires Lists(ids, l.accounts.Keys)
    ensures Partial(l.accounts, ids) == TotalBalances(l)
  {
    PartialIsSum(l, ids, Balances(l));
  }
}
