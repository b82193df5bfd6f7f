/** What the access rules guarantee about money and identities. */
module ApiLaws {
  import opened Domain
  import opened Ledgers
  import opened LedgerRuns
  import opened LedgerLaws
  import opened Identity
  import opened Api
  import ApiRuns

  /** No request of a customer session takes money from an account that is not linked to that customer. */
  lemma CustomerDebitsOnlyOwn(app: App, session: Session, op: Op, times: Times, q: AccountId)
    requires Valid(app.ledger) && Offered(op) && session.role.Customer?
    requires q in app.ledger.accounts
    ensures var ledger := BankSection(app, session, op, times).0.ledger;
            && q in ledger.accounts
            && ledger.accounts[q].ownerId == app.ledger.accounts[q].ownerId
            && (ledger.accounts[q].balance < app.ledger.accounts[q].balance ==>
                  session.customerId.Some? && app.ledger.accounts[q].ownerId == session.customerId)
            && ledger.accounts[q].loanBalance <= app.ledger.accounts[q].loanBalance
  {
    if Precheck(app, session, op).None? {
      var call := Call(op, times.first, times.second);
      StaysListed(app.ledger, call, q);
      if Answer(app.ledger, call).Ok? {
        SuccessMoves(app.ledger, call, q);
        PaymentsAreCredits(app.ledger, call);
      } else {
        FailureAtomicity(app.ledger, call);
      }
    }
  }

  lemma StaysListed(l: Ledger, call: Call, q: AccountId)
    requires Valid(l) && Offered(call.op) && q in l.accounts
    ensures q in Step(l, call).accounts
  {
    DecisionsSane(l, call);
    Shapes(l, call);
  }

  lemma PaymentsAreCredits(l: Ledger, call: Call)
    requires Valid(l) && Answer(l, call).Ok?
    ensures call.op.PayLoan? ==> Answer(l, call).value.Paid? && Answer(l, call).value.amount >= 0
  {
  }

  /** The bank calls one step of the server makes: at most one. */
  function CallsOf(s: ApiRuns.Server, step: ApiRuns.ApiStep): seq<Call>
    requires ApiRuns.Enabled(s, step)
  {
    if step.Perform? && step.request.Bank? && Precheck(s.app, step.session, step.request.op).None?
    then [Call(step.request.op, step.times.first, step.times.second)]
    else []
  }

  lemma StepOnLedger(s: ApiRuns.Server, h: Hasher, step: ApiRuns.ApiStep)
    requires Valid(s.app.ledger) && ApiRuns.Enabled(s, step)
    ensures var calls := CallsOf(s, step);
            ApiRuns.Next(s, h, step).app.ledger == if calls == [] then s.app.ledger else Step(s.app.ledger, calls[0])
  {
  }

  /**
   * The ledger of a running server is always the result of a run of bank calls, so every law about such runs holds
   * for it.
   */
  lemma {:induction false} LedgerOfServer(h: Hasher, steps: seq<ApiRuns.ApiStep>) returns (calls: seq<Call>)
    ensures ApiRuns.Run(h, steps).app.ledger == Run(EMPTY, calls)
    ensures forall k :: 0 <= k < |calls| ==> Offered(calls[k].op)
  {
    if steps == [] {
      calls := [];
    } else {
      var init, step := steps[..|steps| - 1], steps[|steps| - 1];
      calls := LedgerOfServer(h, init);
      var before := ApiRuns.Run(h, init);
      if ApiRuns.Enabled(before, step) {
        StepOnLedger(before, h, step);
        if CallsOf(before, step) != [] {
          var call := CallsOf(before, step)[0];
          assert (calls + [call])[..|calls|] == calls;
          calls := calls + [call];
        }
      }
    }
  }

  /** No step of the server creates a user or a customer for anyone but an administrator, the bootstrap apart. */
  lemma OnlyAdminsManageIdentities(s: ApiRuns.Server, h: Hasher, step: ApiRuns.ApiStep)
    requires Valid(s.app.ledger) && ApiRuns.Enabled(s, step)
    ensures ApiRuns.Next(s, h, step).app.identities != s.app.identities ==>
              || (step.Bootstrap? && s.app.identities.users.Keys == {})
              || (step.Perform? && step.session in s.granted && step.session.role.Admin?)
  {
  }
}
