/** Laws about single operations and whole runs: failures, replay, closing. */
module LedgerLaws {
  import opened Wrappers
  import opened Numbers
  import opened Text
  import opened Domain
  import opened Ledgers
  import opened LedgerRuns

  /** The one failing operation that changes an account, in terms a caller can check beforehand. */
  predicate LoanOverflows(l: Ledger, call: Call) {
    && call.op.RequestLoan? && call.op.amount > 0
    && call.op.id in l.accounts && l.accounts[call.op.id].status.Active?
    && l.next < U64_MAX
    && l.accounts[call.op.id].balance + call.op.amount <= I64_MAX < l.accounts[call.op.id].loanBalance + call.op.amount
  }

  /** What a successful operation adds to the balance of account q, judged by its arguments and its answer. */
  function BalanceMove(op: Op, reply: Reply, q: AccountId): int {
    match op
    case Deposit(id, amount) => if q == id then amount else 0
    case Withdraw(id, amount) => if q == id then 0 - amount else 0
    case ApplyFee(id, amount) => if q == id then 0 - amount else 0
    case Transfer(source, target, amount) => if q == source then 0 - amount else if q == target then amount else 0
    case RequestLoan(id, amount) => if q == id then amount else 0
    case ApplyInterest(id, _) => if q == id && reply.Paid? then reply.amount else 0
    case PayLoan(id, _) => if q == id && reply.Paid? then 0 - reply.amount else 0
    case _ => 0
  }

  function LoanMove(op: Op, reply: Reply, q: AccountId): int {
    match op
    case RequestLoan(id, amount) => if q == id then amount else 0
    case PayLoan(id, _) => if q == id && reply.Paid? then 0 - reply.amount else 0
    case _ => 0
  }

  /** The effect of a call, told apart by the operation, the guard of the overflowing loan and the answer. */
  ghost predicate ShapeOf(l: Ledger, call: Call, d: Decision) {
    match d.effect
    case Nothing => d.reply.Err?
    case BurnId => d.reply.Err? && !LoanOverflows(l, call)
    case Leak(id, amount) => d.reply.Err? && LoanOverflows(l, call) && id == call.op.id && amount == call.op.amount
    case Open(a) => d.reply == Ok(Opened(a)) && call.op.CreateAccount? && a.id == call.op.id
        && a.balance == call.op.opening
    case Remove(id) => d.reply.Ok? && call.op == DeleteAccount(id)
    case Move(source, target, outgoing, incoming) =>
      d.reply == Ok(Done) && call.op == Op.Transfer(source, target, outgoing.amount)
    case Post(id, change, t) =>
      && d.reply.Ok? && id == call.op.id
      && !call.op.CreateAccount? && !call.op.DeleteAccount? && !call.op.Transfer?
      && BalanceDelta(t) == BalanceMove(call.op, d.reply.value, id)
      && LoanDelta(t) == LoanMove(call.op, d.reply.value, id)
  }

  ghost predicate Shaped(l: Ledger, call: Call) {
    ShapeOf(l, call, Decide(l, call)) && (LoanOverflows(l, call) <==> Decide(l, call).effect.Leak?)
  }

  lemma LifecycleShape(l: Ledger, call: Call)
    requires call.op.CreateAccount? || call.op.ActivateAccount? || call.op.DeactivateAccount? || call.op.CloseAccount?
             || call.op.DeleteAccount?
    ensures Shaped(l, call)
  {
  }

  lemma ProfileShape(l: Ledger, call: Call)
    requires call.op.UpdateName? || call.op.UpdateEmail?
    ensures Shaped(l, call)
  {
  }

  lemma CashShape(l: Ledger, call: Call)
    requires call.op.Deposit? || call.op.Withdraw? || call.op.ApplyFee? || call.op.Transfer?
    ensures Shaped(l, call)
  {
  }

  lemma CreditShape(l: Ledger, call: Call)
    requires call.op.ApplyInterest? || call.op.RequestLoan? || call.op.PayLoan?
    ensures Shaped(l, call)
  {
  }

  lemma Shapes(l: Ledger, call: Call)
    ensures Shaped(l, call)
  {
    match call.op {
      case CreateAccount(_, _, _, _, _) | ActivateAccount(_) | DeactivateAccount(_) | CloseAccount(_)
         | DeleteAccount(_) => LifecycleShape(l, call);
      case UpdateName(_, _) | UpdateEmail(_, _) => ProfileShape(l, call);
      case Deposit(_, _) | Withdraw(_, _) | ApplyFee(_, _) | Transfer(_, _, _) => CashShape(l, call);
      case ApplyInterest(_, _) | RequestLoan(_, _) | PayLoan(_, _) => CreditShape(l, call);
    }
  }

  lemma EffectMoves(l: Ledger, call: Call, d: Decision, q: AccountId)
    requires Valid(l) && Admissible(l, d.effect) && ShapeOf(l, call, d) && d.reply.Ok?
    requires q in l.accounts && q in Apply(l, d.effect).accounts
    ensures var (a, b, reply) := (l.accounts[q], Apply(l, d.effect).accounts[q], d.reply.value);
            && b.balance == a.balance + BalanceMove(call.op, reply, q)
            && b.loanBalance == a.loanBalance + LoanMove(call.op, reply, q)
            && b.ownerId == a.ownerId
            && (q != call.op.id && !(call.op.Transfer? && q == call.op.to) ==> b == a)
  {
  }

  /** A success moves exactly the money it was asked to move, and only on the accounts it names. */
  lemma SuccessMoves(l: Ledger, call: Call, q: AccountId)
    requires Valid(l) && Answer(l, call).Ok? && q in l.accounts && q in Step(l, call).accounts
    ensures var (a, b, reply) := (l.accounts[q], Step(l, call).accounts[q], Answer(l, call).value);
            && b.balance == a.balance + BalanceMove(call.op, reply, q)
            && b.loanBalance == a.loanBalance + LoanMove(call.op, reply, q)
            && b.ownerId == a.ownerId
            && (q != call.op.id && !(call.op.Transfer? && q == call.op.to) ==> b == a)
  {
    DecisionsSane(l, call);
    Shapes(l, call);
    EffectMoves(l, call, Decide(l, call), q);
  }

  lemma FailedEffect(l: Ledger, call: Call, d: Decision)
    requires Valid(l) && Admissible(l, d.effect) && ShapeOf(l, call, d) && d.reply.Err?
    ensures d.effect.Nothing? || d.effect.BurnId? || d.effect.Leak?
    ensures var l' := Apply(l, d.effect);
            && (!d.effect.Leak? ==> l'.accounts == l.accounts)
            && l.next <= l'.next <= l.next + 1
            && (d.effect.Leak? ==>
                  var a := l.accounts[call.op.id];
                  && l'.accounts[a.id].balance != a.balance
                  && l' == Ledger(l.accounts[a.id := a.(balance := a.balance + call.op.amount)], l.next + 1))
  {
  }

  /** A failing operation leaves every account alone unless it is a loan request that overflows only the loan. */
  lemma FailureAtomicity(l: Ledger, call: Call)
    requires Valid(l) && Answer(l, call).Err?
    ensures Step(l, call).accounts == l.accounts <==> !LoanOverflows(l, call)
    ensures l.next <= Step(l, call).next <= l.next + 1
    ensures LoanOverflows(l, call) ==>
              var a := l.accounts[call.op.id];
              Step(l, call) == Ledger(l.accounts[a.id := a.(balance := a.balance + call.op.amount)], l.next + 1)
  {
    DecisionsSane(l, call);
    Shapes(l, call);
    FailedEffect(l, call, Decide(l, call));
  }

  // ---- Replay ---------------------------------------------------------------------------------

  function Drift(a: Account): int {
    a.balance - BalanceReplay(a.transactions)
  }

  function LoanDrift(a: Account): int {
    a.loanBalance - LoanReplay(a.transactions)
  }

  lemma PostedDrift(a: Account, t: Transaction, change: Change)
    requires Representable(a, t)
    ensures var b := Reprofile(Posted(a, t), change);
            Drift(b) == Drift(a) && LoanDrift(b) == LoanDrift(a)
  {
    PostedShape(a, t, change);
    ReplayAppend(a.transactions, t);
  }

  lemma OpenedDrift(l: Ledger, a: Account)
    requires Admissible(l, Open(a))
    ensures Drift(a) == 0 && LoanDrift(a) == 0
  {
    assert a.transactions == [] + [a.transactions[0]];
    ReplayAppend([], a.transactions[0]);
  }

  lemma EffectDrift(l: Ledger, e: Effect, id: AccountId)
    requires Valid(l) && Admissible(l, e) && id in Apply(l, e).accounts
    ensures var a := Apply(l, e).accounts[id];
            if e.Open? && e.account.id == id then Drift(a) == 0 && LoanDrift(a) == 0
            else && id in l.accounts
                 && Drift(a) == Drift(l.accounts[id]) + (if e.Leak? && e.id == id then e.amount else 0)
                 && LoanDrift(a) == LoanDrift(l.accounts[id])
  {
    match e {
      case Open(a) => OpenedDrift(l, a);
      case Post(q, change, t) => PostedDrift(l.accounts[q], t, change);
      case Move(source, target, outgoing, incoming) =>
        PostedDrift(l.accounts[source], outgoing, KeepProfile);
        PostedDrift(l.accounts[target], incoming, KeepProfile);
      case _ =>
    }
  }

  lemma DriftOfDecision(l: Ledger, call: Call, d: Decision, id: AccountId)
    requires Valid(l) && Admissible(l, d.effect) && ShapeOf(l, call, d) && (LoanOverflows(l, call) <==> d.effect.Leak?)
    requires id in l.accounts && id in Apply(l, d.effect).accounts
    ensures var a := Apply(l, d.effect).accounts[id];
            && LoanDrift(a) == LoanDrift(l.accounts[id])
            && (Drift(a) == Drift(l.accounts[id]) <==> !(LoanOverflows(l, call) && call.op.id == id))
  {
    EffectDrift(l, d.effect, id);
  }

  /** No operation moves a balance away from its transaction list, except the overflowing loan request. */
  lemma DriftStep(l: Ledger, call: Call, id: AccountId)
    requires Valid(l) && id in l.accounts && id in Step(l, call).accounts
    ensures LoanDrift(Step(l, call).accounts[id]) == LoanDrift(l.accounts[id])
    ensures Drift(Step(l, call).accounts[id]) == Drift(l.accounts[id]) <==>
            !(LoanOverflows(l, call) && call.op.id == id)
  {
    DecisionsSane(l, call);
    Shapes(l, call);
    DriftOfDecision(l, call, Decide(l, call), id);
  }

  /** How far the balance of account id is from its replay after the calls: what failed loan requests credited. */
  function Slack(l: Ledger, calls: seq<Call>, id: AccountId): int
    requires Valid(l)
  {
    if calls == [] then (if id in l.accounts then Drift(l.accounts[id]) else 0)
    else
      var before, call := Run(l, calls[..|calls| - 1]), calls[|calls| - 1];
      var slack := Slack(l, calls[..|calls| - 1], id);
      if call.op.id != id then slack
      else if LoanOverflows(before, call) then slack + call.op.amount
      else if (call.op.CreateAccount? || call.op.DeleteAccount?) && Answer(before, call).Ok? then 0
      else slack
  }

  lemma StepDrift(l: Ledger, call: Call, id: AccountId)
    requires Valid(l) && id in Step(l, call).accounts
    ensures var a := Step(l, call).accounts[id];
            if call.op.id == id && call.op.CreateAccount? && Answer(l, call).Ok? then Drift(a) == 0
            else && id in l.accounts
                 && !(call.op.id == id && call.op.DeleteAccount? && Answer(l, call).Ok?)
                 && Drift(a) == Drift(l.accounts[id])
                                + (if LoanOverflows(l, call) && call.op.id == id then call.op.amount else 0)
  {
    DecisionsSane(l, call);
    Shapes(l, call);
    EffectDrift(l, Decide(l, call).effect, id);
  }

  /** Over every run from any valid ledger, a balance is its replay plus its slack. */
  lemma {:induction false} ReplayLaw(l: Ledger, calls: seq<Call>, id: AccountId)
    requires Valid(l) && id in Run(l, calls).accounts
    ensures Drift(Run(l, calls).accounts[id]) == Slack(l, calls, id)
  {
    if calls != [] {
      var before, call := Run(l, calls[..|calls| - 1]), calls[|calls| - 1];
      StepDrift(before, call, id);
      if id in before.accounts {
        ReplayLaw(l, calls[..|calls| - 1], id);
      }
    }
  }

  ghost predicate LeakFree(l: Ledger, calls: seq<Call>)
    requires Valid(l)
  {
    forall k :: 0 <= k < |calls| ==> !LoanOverflows(Run(l, calls[..k]), calls[k])
  }

  lemma {:induction false} SlackOfLeakFree(calls: seq<Call>, id: AccountId)
    ensures Slack(EMPTY, calls, id) >= 0
    ensures LeakFree(EMPTY, calls) ==> Slack(EMPTY, calls, id) == 0
  {
    if calls != [] {
      var init := calls[..|calls| - 1];
      SlackOfLeakFree(init, id);
      if LeakFree(EMPTY, calls) {
        forall k | 0 <= k < |init|
          ensures !LoanOverflows(Run(EMPTY, init[..k]), init[k])
        {
          assert init[..k] == calls[..k];
        }
      }
    }
  }

  // ---- Prefixes of the replay -----------------------------------------------------------------

  lemma EffectBalance(l: Ledger, e: Effect, id: AccountId, slack: int)
    requires Valid(l) && l.next >= 1 && Admissible(l, e) && id in Apply(l, e).accounts
    requires id in l.accounts ==> BalanceSound(l.accounts[id], slack) && LoanSound(l.accounts[id])
    ensures BalanceSound(Apply(l, e).accounts[id],
                         if e.Leak? && e.id == id then slack + e.amount
                         else if e.Open? && e.account.id == id then 0
                         else slack)
  {
    match e {
      case Open(a) => OpenedSound(l, a);
      case Post(q, change, t) =>
        if q == id {
          PostedBalance(l.accounts[q], t, change, slack);
        }
      case Move(source, target, outgoing, incoming) =>
        if source == id {
          PostedBalance(l.accounts[id], outgoing, KeepProfile, slack);
        } else if target == id {
          PostedBalance(l.accounts[id], incoming, KeepProfile, slack);
        }
      case _ =>
    }
  }

  lemma StepBalance(l: Ledger, call: Call, id: AccountId, slack: int)
    requires Sound(l) && id in Step(l, call).accounts
    requires id in l.accounts ==> BalanceSound(l.accounts[id], slack)
    ensures var a := Step(l, call).accounts[id];
            BalanceSound(a, if call.op.id != id then slack
                            else if LoanOverflows(l, call) then slack + call.op.amount
                            else if (call.op.CreateAccount? || call.op.DeleteAccount?) && Answer(l, call).Ok? then 0
                            else slack)
  {
    DecisionsSane(l, call);
    Shapes(l, call);
    assert id in l.accounts ==> AccountSound(l.accounts[id], l.next);
    EffectBalance(l, Decide(l, call).effect, id, slack);
  }

  /**
   * From the empty ledger: balance and loan are the replay of the transaction list (the balance up to
   * the slack), and no prefix of the replay leaves the range of amounts by more than the slack.
   */
  lemma {:induction false} ReplayFromEmpty(calls: seq<Call>, id: AccountId)
    requires id in Run(EMPTY, calls).accounts
    ensures BalanceSound(Run(EMPTY, calls).accounts[id], Slack(EMPTY, calls, id))
    ensures LoanSound(Run(EMPTY, calls).accounts[id])
    ensures LeakFree(EMPTY, calls) ==> BalanceSound(Run(EMPTY, calls).accounts[id], 0)
  {
    SlackOfLeakFree(calls, id);
    EveryRunSound(calls);
    assert AccountSound(Run(EMPTY, calls).accounts[id], Run(EMPTY, calls).next);
    if calls != [] {
      var init := calls[..|calls| - 1];
      var before := Run(EMPTY, init);
      EveryRunSound(init);
      if id in before.accounts {
        ReplayFromEmpty(init, id);
      }
      StepBalance(before, calls[|calls| - 1], id, Slack(EMPTY, init, id));
    }
  }

  // ---- A run that reaches the exception -------------------------------------------------------

  /** The call that opens account 1, and that account. */
  function OpenFirst(opening: i64): Call {
    Call(CreateAccount(1, None, "a", "a@b", opening), 0, 0)
  }

  function FirstAccount(opening: i64): Account {
    NewAccount(1, None, "a", "a@b", opening).Record(Transaction(1, 0, AccountCreated, opening, "Account created"))
  }

  lemma SampleTexts()
    ensures CleanName("a") == Some("a") && CleanEmail("a@b") == Some("a@b")
  {
    var name, email := "a", "a@b";
    TrimIdentity(name);
    TrimIdentity(email);
    assert ToLower(email) == email;
    assert email[1] == '@';
  }

  lemma FirstOpens(opening: i64)
    requires opening >= 0
    ensures Step(EMPTY, OpenFirst(opening)) == Ledger(map[1 := FirstAccount(opening)], 2)
    ensures Answer(EMPTY, OpenFirst(opening)).Ok?
  {
    SampleTexts();
  }

  /** The calls of a run that ends in an overflowing loan request. */
  function OverflowingCalls(): seq<Call> {
    [OpenFirst(0), Call(RequestLoan(1, I64_MAX), 0, 0), Call(Withdraw(1, I64_MAX), 0, 0), Call(RequestLoan(1, 1), 0, 0)]
  }

  /** The ledger that the second of the calls finds, and the one that the last finds. */
  ghost predicate JustOpened(l: Ledger) {
    && Valid(l) && 1 in l.accounts && l.next == 2 && l.accounts[1].status.Active?
    && l.accounts[1].balance == 0 && l.accounts[1].loanBalance == 0
  }

  ghost predicate AlmostFull(l: Ledger) {
    && Valid(l) && 1 in l.accounts && l.next == 4 && l.accounts[1].status.Active?
    && l.accounts[1].balance == 0 && l.accounts[1].loanBalance == I64_MAX && Drift(l.accounts[1]) == 0
  }

  lemma OverflowingMiddle(l: Ledger)
    requires JustOpened(l) && Drift(l.accounts[1]) == 0
    ensures var borrowed := Step(l, OverflowingCalls()[1]);
            && 1 in borrowed.accounts && borrowed.next == 3 && borrowed.accounts[1].status.Active?
            && borrowed.accounts[1].balance == I64_MAX && borrowed.accounts[1].loanBalance == I64_MAX
            && Drift(borrowed.accounts[1]) == 0
  {
    StepDrift(l, OverflowingCalls()[1], 1);
  }

  lemma OverflowingWithdrawal(l: Ledger)
    requires Valid(l) && 1 in l.accounts && l.next == 3 && l.accounts[1].status.Active?
    requires l.accounts[1].balance == I64_MAX && l.accounts[1].loanBalance == I64_MAX && Drift(l.accounts[1]) == 0
    ensures AlmostFull(Step(l, OverflowingCalls()[2]))
  {
    StepDrift(l, OverflowingCalls()[2], 1);
  }

  lemma RunOfFour(l: Ledger, c: seq<Call>)
    requires Valid(l) && |c| == 4
    ensures Run(l, c[..3]) == Step(Step(Step(l, c[0]), c[1]), c[2]) && Run(l, c) == Step(Run(l, c[..3]), c[3])
  {
    assert c[..3][..2] == c[..2] && c[..2][..1] == c[..1] && c[..1][..0] == [];
    assert Run(l, c[..1]) == Step(l, c[0]);
    assert Run(l, c[..2]) == Step(Step(l, c[0]), c[1]);
  }

  /** The last of the calls, on a ledger like the one it finds. */
  lemma OverflowingLast(l: Ledger)
    requires AlmostFull(l)
    ensures var call := OverflowingCalls()[3];
            && Answer(l, call) == Err(ArithmeticOverflow)
            && 1 in Step(l, call).accounts && Drift(Step(l, call).accounts[1]) == 1
  {
    var call := OverflowingCalls()[3];
    assert LoanOverflows(l, call);
    FailureAtomicity(l, call);
    StepDrift(l, call, 1);
  }

  lemma FirstJustOpened()
    ensures JustOpened(Ledger(map[1 := FirstAccount(0)], 2))
  {
  }

  lemma FirstThree()
    ensures AlmostFull(Run(EMPTY, OverflowingCalls()[..3]))
  {
    var l1 := Step(EMPTY, OverflowingCalls()[0]);
    FirstOpens(0);
    FirstJustOpened();
    StepDrift(EMPTY, OverflowingCalls()[0], 1);
    OverflowingMiddle(l1);
    OverflowingWithdrawal(Step(l1, OverflowingCalls()[1]));
    RunOfFour(EMPTY, OverflowingCalls());
  }

  /**
   * The exception is real: a legal run whose last, failing, loan request leaves a balance its entries do not explain.
   */
  lemma ReplayFailsAfterLoanOverflow()
    ensures var calls := OverflowingCalls();
            && Answer(Run(EMPTY, calls[..3]), calls[3]) == Err(ArithmeticOverflow)
            && 1 in Run(EMPTY, calls).accounts && Drift(Run(EMPTY, calls).accounts[1]) == 1
  {
    FirstThree();
    OverflowingLast(Run(EMPTY, OverflowingCalls()[..3]));
    RunOfFour(EMPTY, OverflowingCalls());
  }

  // ---- Closed is terminal ---------------------------------------------------------------------

  lemma ClosedEffect(l: Ledger, e: Effect, id: AccountId)
    requires Valid(l) && id in l.accounts && l.accounts[id].status.Closed?
    requires Admissible(l, e) && e != Remove(id)
    ensures id in Apply(l, e).accounts
    ensures var (a, b) := (l.accounts[id], Apply(l, e).accounts[id]);
            b.status.Closed? && a.transactions <= b.transactions
  {
  }

  lemma ClosedStep(l: Ledger, call: Call, id: AccountId)
    requires Sound(l) && id in l.accounts && l.accounts[id].status.Closed?
    requires call.op != DeleteAccount(id)
    ensures id in Step(l, call).accounts
    ensures var (a, b) := (l.accounts[id], Step(l, call).accounts[id]);
            b.status.Closed? && a.transactions <= b.transactions
  {
    DecisionsSane(l, call);
    Shapes(l, call);
    ClosedEffect(l, Decide(l, call).effect, id);
  }

  /** A closed account that nobody deletes stays closed and settled, and only gains profile and closing entries. */
  lemma {:induction false} ClosedIsTerminal(l: Ledger, calls: seq<Call>, id: AccountId)
    requires Sound(l) && id in l.accounts && l.accounts[id].status.Closed?
    requires forall k :: 0 <= k < |calls| ==> calls[k].op != DeleteAccount(id)
    ensures id in Run(l, calls).accounts
    ensures var (a, b) := (l.accounts[id], Run(l, calls).accounts[id]);
            && b.status.Closed? && b.balance == 0 && b.loanBalance == 0
            && a.transactions <= b.transactions
            && ClosedTail(b.transactions)
            && b.status == StatusReplay(b.transactions)
  {
    RunsSound(l, calls);
    if calls != [] {
      ClosedIsTerminal(l, calls[..|calls| - 1], id);
      RunsSound(l, calls[..|calls| - 1]);
      ClosedStep(Run(l, calls[..|calls| - 1]), calls[|calls| - 1], id);
    }
    assert AccountSound(Run(l, calls).accounts[id], Run(l, calls).next);
  }
}
