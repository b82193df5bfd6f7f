/** What every run of ledger operations keeps: ids, statuses, replayed balances. */
module LedgerRuns {
  import opened Numbers
  import opened Domain
  import opened Ledgers

  function Run(l: Ledger, calls: seq<Call>): (l': Ledger)
    requires Valid(l)
    ensures Valid(l')
  {
    if calls == [] then l else Step(Run(l, calls[..|calls| - 1]), calls[|calls| - 1])
  }

  // ---- Ids, status and loans ------------------------------------------------------------------

  /** Ids ascend and have all been issued already. */
  ghost predicate IdsSound(a: Account, next: u64) {
    && a.transactions != [] && AscendingIds(a.transactions)
    && forall i :: 0 <= i < |a.transactions| ==> 1 <= a.transactions[i].id < next
  }

  /** After a Closed entry only profile updates and further Closed entries appear. */
  ghost predicate ClosedTail(ts: seq<Transaction>) {
    forall i, j :: 0 <= i < j < |ts| && ts[i].kind.Closed? ==> ts[j].kind.Closed? || ts[j].kind.ProfileUpdated?
  }

  /** The status is the one the transactions imply; closed accounts are settled and stay closed. */
  ghost predicate StatusSound(a: Account) {
    && a.status == StatusReplay(a.transactions)
    && (forall i :: 0 <= i < |a.transactions| && a.transactions[i].kind.Closed? ==> a.status.Closed?)
    && (a.status.Closed? ==> a.balance == 0 && a.loanBalance == 0)
    && ClosedTail(a.transactions)
  }

  ghost predicate LoanPrefixesIn(ts: seq<Transaction>) {
    forall k :: 0 <= k <= |ts| ==> 0 <= LoanReplay(ts[..k]) <= I64_MAX
  }

  ghost predicate LoanSound(a: Account) {
    a.loanBalance == LoanReplay(a.transactions) && LoanPrefixesIn(a.transactions)
  }

  /** The balance is the replay plus what failed loan requests credited, and so is every earlier balance. */
  ghost predicate BalanceSound(a: Account, leaked: int) {
    && a.balance == BalanceReplay(a.transactions) + leaked
    && leaked >= 0
    && BalancePrefixesIn(a.transactions, leaked)
  }

  ghost predicate BalancePrefixesIn(ts: seq<Transaction>, leaked: int) {
    forall k :: 0 <= k <= |ts| ==> -leaked <= BalanceReplay(ts[..k]) <= I64_MAX
  }

  ghost predicate AccountSound(a: Account, next: u64) {
    IdsSound(a, next) && StatusSound(a) && LoanSound(a) && CleanAccount(a)
  }

  ghost predicate IdsApart(a: Account, b: Account) {
    forall i, j :: 0 <= i < |a.transactions| && 0 <= j < |b.transactions| ==>
      a.transactions[i].id != b.transactions[j].id
  }

  ghost predicate AllSound(l: Ledger) {
    forall id :: id in l.accounts ==> AccountSound(l.accounts[id], l.next)
  }

  /** No transaction id is used twice across accounts. */
  ghost predicate AllApart(l: Ledger) {
    forall p, q :: p in l.accounts && q in l.accounts && p != q ==> IdsApart(l.accounts[p], l.accounts[q])
  }

  /** The invariant of every ledger that started empty. */
  ghost predicate Sound(l: Ledger) {
    Valid(l) && l.next >= 1 && AllSound(l) && AllApart(l)
  }

  lemma PrefixOfAppend(ts: seq<Transaction>, t: Transaction, k: nat)
    requires k <= |ts| + 1
    ensures (ts + [t])[..k] == if k <= |ts| then ts[..k] else ts + [t]
  {
  }

  lemma LoanPrefixesAppend(ts: seq<Transaction>, t: Transaction)
    requires LoanPrefixesIn(ts) && 0 <= LoanReplay(ts) + LoanDelta(t) <= I64_MAX
    ensures LoanPrefixesIn(ts + [t])
  {
    ReplayAppend(ts, t);
    forall k | 0 <= k <= |ts + [t]|
      ensures 0 <= LoanReplay((ts + [t])[..k]) <= I64_MAX
    {
      PrefixOfAppend(ts, t, k);
    }
  }

  lemma BalancePrefixesAppend(ts: seq<Transaction>, t: Transaction, leaked: int)
    requires BalancePrefixesIn(ts, leaked) && -leaked <= BalanceReplay(ts) + BalanceDelta(t) <= I64_MAX
    ensures BalancePrefixesIn(ts + [t], leaked)
  {
    ReplayAppend(ts, t);
    forall k | 0 <= k <= |ts + [t]|
      ensures -leaked <= BalanceReplay((ts + [t])[..k]) <= I64_MAX
    {
      PrefixOfAppend(ts, t, k);
    }
  }

  /** What posting an entry does to an account. */
  lemma PostedShape(a: Account, t: Transaction, change: Change)
    requires Representable(a, t)
    ensures var b := Reprofile(Posted(a, t), change);
            && b.transactions == a.transactions + [t]
            && b.balance == a.balance + BalanceDelta(t) && b.loanBalance == a.loanBalance + LoanDelta(t)
            && b.status == StatusAfter(a.status, t.kind)
            && b.id == a.id && b.ownerId == a.ownerId
  {
  }

  lemma PostedIds(a: Account, t: Transaction, change: Change, next: u64)
    requires IdsSound(a, next) && 1 <= next < U64_MAX && Representable(a, t) && t.id == next
    ensures IdsSound(Reprofile(Posted(a, t), change), next + 1)
  {
  }

  lemma PostedStatus(a: Account, t: Transaction, change: Change)
    requires StatusSound(a) && Representable(a, t) && KindAllowed(a, t.kind)
    ensures StatusSound(Reprofile(Posted(a, t), change))
  {
    ReplayAppend(a.transactions, t);
  }

  lemma PostedSound(a: Account, t: Transaction, change: Change, next: u64)
    requires AccountSound(a, next) && next < U64_MAX
    requires Representable(a, t) && KindAllowed(a, t.kind) && t.id == next && next >= 1
    requires a.loanBalance + LoanDelta(t) >= 0
    requires CleanChange(change)
    ensures AccountSound(Reprofile(Posted(a, t), change), next + 1)
  {
    PostedShape(a, t, change);
    ReplayAppend(a.transactions, t);
    LoanPrefixesAppend(a.transactions, t);
    PostedIds(a, t, change, next);
    PostedStatus(a, t, change);
  }

  lemma PostedBalance(a: Account, t: Transaction, change: Change, leaked: int)
    requires BalanceSound(a, leaked) && LoanSound(a)
    requires Representable(a, t) && a.balance + BalanceDelta(t) >= 0 && a.loanBalance + LoanDelta(t) >= 0
    ensures BalanceSound(Reprofile(Posted(a, t), change), leaked)
  {
    PostedShape(a, t, change);
    ReplayAppend(a.transactions, t);
    BalancePrefixesAppend(a.transactions, t, leaked);
  }

  lemma OpenedSound(l: Ledger, a: Account)
    requires Valid(l) && l.next >= 1 && Admissible(l, Open(a))
    ensures AccountSound(a, l.next + 1) && BalanceSound(a, 0)
  {
    var ts := a.transactions;
    assert ts == [] + [ts[0]];
    ReplayAppend([], ts[0]);
    LoanPrefixesAppend([], ts[0]);
    BalancePrefixesAppend([], ts[0], 0);
    assert forall k :: 0 <= k <= |ts| ==> ts[..k] == [] || ts[..k] == ts;
  }

  lemma Later(a: Account, next: u64, next': u64)
    requires AccountSound(a, next) && next <= next'
    ensures AccountSound(a, next')
  {
  }

  /** A fresh entry keeps an account apart from every account whose ids were all issued before. */
  lemma ApartAppend(a: Account, t: Transaction, change: Change, b: Account, next: u64)
    requires Representable(a, t) && IdsApart(a, b) && IdsSound(b, next) && t.id >= next
    ensures IdsApart(Reprofile(Posted(a, t), change), b) && IdsApart(b, Reprofile(Posted(a, t), change))
  {
  }

  lemma PostKeepsOne(l: Ledger, id: AccountId, change: Change, t: Transaction, q: AccountId)
    requires Valid(l) && l.next >= 1 && Admissible(l, Post(id, change, t))
    requires q in l.accounts && AccountSound(l.accounts[q], l.next)
    ensures AccountSound(Apply(l, Post(id, change, t)).accounts[q], l.next + 1)
  {
    if q == id {
      PostedSound(l.accounts[id], t, change, l.next);
    } else {
      Later(l.accounts[q], l.next, l.next + 1);
    }
  }

  lemma PostKeepsAll(l: Ledger, id: AccountId, change: Change, t: Transaction)
    requires Sound(l) && Admissible(l, Post(id, change, t))
    ensures AllSound(Apply(l, Post(id, change, t)))
  {
    var l' := Apply(l, Post(id, change, t));
    forall q | q in l'.accounts
      ensures AccountSound(l'.accounts[q], l'.next)
    {
      PostKeepsOne(l, id, change, t, q);
    }
  }

  lemma PostKeepsApart(l: Ledger, id: AccountId, change: Change, t: Transaction)
    requires Sound(l) && Admissible(l, Post(id, change, t))
    ensures AllApart(Apply(l, Post(id, change, t)))
  {
    var l' := Apply(l, Post(id, change, t));
    forall q | q in l'.accounts && q != id
      ensures IdsApart(l'.accounts[id], l'.accounts[q]) && IdsApart(l'.accounts[q], l'.accounts[id])
    {
      assert AccountSound(l.accounts[q], l.next);
      ApartAppend(l.accounts[id], t, change, l.accounts[q], l.next);
    }
  }

  lemma PostKeepsSound(l: Ledger, id: AccountId, change: Change, t: Transaction)
    requires Sound(l) && Admissible(l, Post(id, change, t))
    ensures Sound(Apply(l, Post(id, change, t)))
  {
    ApplyValid(l, Post(id, change, t));
    PostKeepsAll(l, id, change, t);
    PostKeepsApart(l, id, change, t);
  }

  lemma OpenKeepsAll(l: Ledger, a: Account)
    requires Sound(l) && Admissible(l, Open(a))
    ensures AllSound(Apply(l, Open(a)))
  {
    var l' := Apply(l, Open(a));
    OpenedSound(l, a);
    forall q | q in l.accounts
      ensures AccountSound(l.accounts[q], l'.next)
    {
      Later(l.accounts[q], l.next, l'.next);
    }
  }

  lemma FreshApart(a: Account, b: Account, next: u64)
    requires |a.transactions| == 1 && a.transactions[0].id >= next && IdsSound(b, next)
    ensures IdsApart(a, b) && IdsApart(b, a)
  {
  }

  lemma OpenKeepsApart(l: Ledger, a: Account)
    requires AllSound(l) && AllApart(l) && Admissible(l, Open(a))
    ensures AllApart(Apply(l, Open(a)))
  {
    forall q | q in l.accounts
      ensures IdsApart(a, l.accounts[q]) && IdsApart(l.accounts[q], a)
    {
      assert AccountSound(l.accounts[q], l.next);
      FreshApart(a, l.accounts[q], l.next);
    }
  }

  lemma OpenKeepsSound(l: Ledger, a: Account)
    requires Sound(l) && Admissible(l, Open(a))
    ensures Sound(Apply(l, Open(a)))
  {
    ApplyValid(l, Open(a));
    OpenKeepsAll(l, a);
    OpenKeepsApart(l, a);
  }

  /** A transfer is its two halves, posted one after the other. */
  lemma MoveIsTwoPosts(l: Ledger, source: AccountId, target: AccountId, outgoing: Transaction, incoming: Transaction)
    requires Valid(l) && Admissible(l, Move(source, target, outgoing, incoming))
    ensures Admissible(l, Post(source, KeepProfile, outgoing))
    ensures var mid := Apply(l, Post(source, KeepProfile, outgoing));
            && Admissible(mid, Post(target, KeepProfile, incoming))
            && Apply(l, Move(source, target, outgoing, incoming)) == Apply(mid, Post(target, KeepProfile, incoming))
  {
  }

  lemma QuietKeepsSound(l: Ledger, e: Effect)
    requires Sound(l) && Admissible(l, e) && (e.Nothing? || e.BurnId? || e.Remove?)
    ensures Sound(Apply(l, e))
  {
    var l' := Apply(l, e);
    forall q | q in l'.accounts
      ensures AccountSound(l'.accounts[q], l'.next)
    {
      Later(l.accounts[q], l.next, l'.next);
    }
  }

  lemma CreditKeepsAccount(a: Account, balance: i64, next: u64, next': u64)
    requires AccountSound(a, next) && a.status.Active? && next <= next'
    ensures AccountSound(a.(balance := balance), next')
  {
  }

  lemma LeakKeepsAccount(l: Ledger, id: AccountId, amount: i64, q: AccountId)
    requires Admissible(l, Leak(id, amount)) && q in l.accounts && AccountSound(l.accounts[q], l.next)
    ensures AccountSound(Apply(l, Leak(id, amount)).accounts[q], l.next + 1)
  {
    if q == id {
      CreditKeepsAccount(l.accounts[q], l.accounts[q].balance + amount, l.next, l.next + 1);
    } else {
      Later(l.accounts[q], l.next, l.next + 1);
    }
  }

  lemma SameListsApart(l: Ledger, l': Ledger)
    requires AllApart(l) && l'.accounts.Keys == l.accounts.Keys
    requires forall q :: q in l.accounts ==> l'.accounts[q].transactions == l.accounts[q].transactions
    ensures AllApart(l')
  {
    forall p, q | p in l'.accounts && q in l'.accounts && p != q
      ensures IdsApart(l'.accounts[p], l'.accounts[q])
    {
      assert IdsApart(l.accounts[p], l.accounts[q]);
    }
  }

  lemma LeakKeepsAll(l: Ledger, id: AccountId, amount: i64)
    requires Sound(l) && Admissible(l, Leak(id, amount))
    ensures AllSound(Apply(l, Leak(id, amount)))
  {
    var l' := Apply(l, Leak(id, amount));
    forall q | q in l'.accounts
      ensures AccountSound(l'.accounts[q], l'.next)
    {
      LeakKeepsAccount(l, id, amount, q);
    }
  }

  lemma LeakKeepsLists(l: Ledger, id: AccountId, amount: i64)
    requires Admissible(l, Leak(id, amount))
    ensures var l' := Apply(l, Leak(id, amount));
            && l'.accounts.Keys == l.accounts.Keys
            && forall q :: q in l.accounts ==> l'.accounts[q].transactions == l.accounts[q].transactions
  {
  }

  lemma LeakKeepsApart(l: Ledger, id: AccountId, amount: i64)
    requires AllApart(l) && Admissible(l, Leak(id, amount))
    ensures AllApart(Apply(l, Leak(id, amount)))
  {
    LeakKeepsLists(l, id, amount);
    SameListsApart(l, Apply(l, Leak(id, amount)));
  }

  lemma LeakKeepsSound(l: Ledger, id: AccountId, amount: i64)
    requires Sound(l) && Admissible(l, Leak(id, amount))
    ensures Sound(Apply(l, Leak(id, amount)))
  {
    ApplyValid(l, Leak(id, amount));
    LeakKeepsAll(l, id, amount);
    LeakKeepsApart(l, id, amount);
  }

  lemma ApplyKeepsSound(l: Ledger, e: Effect)
    requires Sound(l) && Admissible(l, e)
    ensures Sound(Apply(l, e))
  {
    ApplyValid(l, e);
    var l' := Apply(l, e);
    match e {
      case Open(a) => OpenKeepsSound(l, a);
      case Post(id, change, t) => PostKeepsSound(l, id, change, t);
      case Move(source, target, outgoing, incoming) =>
        MoveIsTwoPosts(l, source, target, outgoing, incoming);
        var mid := Apply(l, Post(source, KeepProfile, outgoing));
        PostKeepsSound(l, source, KeepProfile, outgoing);
        PostKeepsSound(mid, target, KeepProfile, incoming);
      case Leak(id, amount) => LeakKeepsSound(l, id, amount);
      case _ => QuietKeepsSound(l, e);
    }
  }

  /** Every ledger reached from the empty one is sound. */
  lemma {:induction false} RunsSound(l: Ledger, calls: seq<Call>)
    requires Sound(l)
    ensures Sound(Run(l, calls))
  {
    if calls != [] {
      var before, call := Run(l, calls[..|calls| - 1]), calls[|calls| - 1];
      RunsSound(l, calls[..|calls| - 1]);
      DecisionsSane(before, call);
      ApplyKeepsSound(before, Decide(before, call).effect);
    }
  }

  lemma EmptySound()
    ensures Sound(EMPTY)
  {
  }

  /** In particular every ledger that started empty. */
  lemma EveryRunSound(calls: seq<Call>)
    ensures Sound(Run(EMPTY, calls))
  {
    EmptySound();
    RunsSound(EMPTY, calls);
  }
}
