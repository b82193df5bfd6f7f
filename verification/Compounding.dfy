/** Compound interest on one account, however the calls on other accounts are interleaved. */
module Compounding {
  import opened Numbers
  import opened Money
  import opened Domain
  import opened Ledgers
  import opened LedgerRuns

  function Power(base: nat, n: nat): nat {
    if n == 0 then 1 else base * Power(base, n - 1)
  }

  // ---- Arithmetic of one rounding step --------------------------------------------------------

  lemma Associate(a: int, b: int, c: int)
    ensures a * (b * c) == (a * b) * c
  {
  }

  lemma Distribute(a: int, b: int, c: int)
    ensures a * (b - c) == a * b - a * c
    ensures a * (b + c) == a * b + a * c
  {
  }

  lemma Monotone(a: nat, b: int, c: int)
    requires b <= c
    ensures a * b <= a * c
  {
  }

  lemma GapStep(k: nat, b: nat, b': nat, b0: nat, g: nat, growth: nat, lost: int)
    requires 10_000 * b' == b * growth - lost
    ensures b0 * (growth * g) - (10_000 * k) * b' == (b0 * g - k * b) * growth + k * lost
  {
    Associate(k, b, growth);
    Distribute(k, b * growth, lost);
    assert (10_000 * k) * b' == k * (10_000 * b');
    Associate(b0, g, growth);
    assert growth * g == g * growth;
    Distribute(growth, b0 * g, k * b);
  }

  lemma BoundStep(bp: nat, gap: nat, k: nat, g: nat, lost: nat)
    requires bp * gap <= 10_000 * (g - k) && lost < 10_000
    ensures bp * (gap * (10_000 + bp) + k * lost) <= 10_000 * ((10_000 + bp) * g - 10_000 * k)
  {
    var growth := 10_000 + bp;
    Distribute(bp, gap * growth, k * lost);
    Associate(bp, gap, growth);
    Monotone(growth, bp * gap, 10_000 * (g - k));
    Associate(growth, 10_000, g - k);
    Distribute(growth, g, k);
    Monotone(k, lost, 10_000);
    Monotone(bp, k * lost, k * 10_000);
    Distribute(k, 10_000, bp);
    assert growth * (10_000 * (g - k)) == 10_000 * (growth * (g - k));
    assert bp * (k * 10_000) == 10_000 * (bp * k);
    assert growth * k == 10_000 * k + bp * k;
  }

  lemma CompoundStep(b0: nat, b: nat, b': nat, bp: nat, k: nat, g: nat)
    requires k * b <= b0 * g
    requires bp * (b0 * g - k * b) <= 10_000 * (g - k)
    requires 0 <= b * (10_000 + bp) - 10_000 * b' < 10_000
    ensures (10_000 * k) * b' <= b0 * ((10_000 + bp) * g)
    ensures bp * (b0 * ((10_000 + bp) * g) - (10_000 * k) * b') <= 10_000 * ((10_000 + bp) * g - 10_000 * k)
  {
    var lost := b * (10_000 + bp) - 10_000 * b';
    GapStep(k, b, b', b0, g, 10_000 + bp, lost);
    BoundStep(bp, b0 * g - k * b, k, g, lost);
    Monotone(k, 0, lost);
    Monotone(10_000 + bp, 0, b0 * g - k * b);
  }

  /** b' is b grown at the rate, rounded down to a cent. */
  ghost predicate Rounds(b: int, b': int, basisPoints: u32) {
    0 <= b * (10_000 + basisPoints) - 10_000 * b' < 10_000
  }

  /** One application adds the share rounded down to a cent. */
  lemma InterestGain(l: Ledger, call: Call)
    requires Valid(l) && call.op.ApplyInterest? && Answer(l, call).Ok?
    ensures call.op.id in l.accounts && call.op.id in Step(l, call).accounts
    ensures Rounds(l.accounts[call.op.id].balance, Step(l, call).accounts[call.op.id].balance, call.op.basisPoints)
  {
    DecisionsSane(l, call);
    PercentageRounds(l.accounts[call.op.id].balance, call.op.basisPoints);
  }

  predicate IsInterest(l: Ledger, call: Call, id: AccountId, basisPoints: u32) {
    call.op == ApplyInterest(id, basisPoints) && Answer(l, call).Ok?
  }

  /** A run in which account id changes only by interest at the given rate; anything may happen elsewhere. */
  ghost predicate OnlyInterest(l: Ledger, calls: seq<Call>, id: AccountId, basisPoints: u32)
    requires Valid(l)
  {
    && id in l.accounts
    && (calls == [] ||
        var before, call := Run(l, calls[..|calls| - 1]), calls[|calls| - 1];
        && OnlyInterest(l, calls[..|calls| - 1], id, basisPoints)
        && (IsInterest(before, call, id, basisPoints)
            || (id in before.accounts && id in Step(before, call).accounts
                && Step(before, call).accounts[id] == before.accounts[id])))
  }

  function Applications(l: Ledger, calls: seq<Call>, id: AccountId, basisPoints: u32): nat
    requires Valid(l)
  {
    if calls == [] then 0 else
      Applications(l, calls[..|calls| - 1], id, basisPoints)
      + if IsInterest(Run(l, calls[..|calls| - 1]), calls[|calls| - 1], id, basisPoints) then 1 else 0
  }

  /**
   * After n applications at bp basis points a balance is at most the exactly compounded one, and what
   * rounding has cost is at most the compounded value of one cent lost per application.
   */
  ghost predicate Compounded(b0: int, b: int, n: nat, bp: nat) {
    && b0 >= 0 && b >= 0
    && Power(10_000, n) * b <= b0 * Power(10_000 + bp, n)
    && bp * (b0 * Power(10_000 + bp, n) - Power(10_000, n) * b) <= 10_000 * (Power(10_000 + bp, n) - Power(10_000, n))
  }

  lemma CompoundedStep(b0: int, b: int, b': int, n: nat, bp: u32)
    requires Compounded(b0, b, n, bp) && Rounds(b, b', bp) && b' >= 0
    ensures Compounded(b0, b', n + 1, bp)
  {
    CompoundStep(b0, b, b', bp, Power(10_000, n), Power(10_000 + bp, n));
  }

  lemma CompoundedStart(b: int, bp: nat)
    requires b >= 0
    ensures Compounded(b, b, 0, bp)
  {
  }

  lemma InterestOnce(l: Ledger, call: Call, id: AccountId, bp: u32, b0: int, n: nat)
    requires Valid(l) && IsInterest(l, call, id, bp) && id in l.accounts
    requires Compounded(b0, l.accounts[id].balance, n, bp)
    ensures id in Step(l, call).accounts
    ensures Compounded(b0, Step(l, call).accounts[id].balance, n + 1, bp)
  {
    InterestGain(l, call);
    CompoundedStep(b0, l.accounts[id].balance, Step(l, call).accounts[id].balance, n, bp);
  }

  /** The two-sided compound-interest law over every run in which the account changes by interest only. */
  lemma {:induction false} CompoundInterest(l: Ledger, calls: seq<Call>, id: AccountId, bp: u32)
    requires Valid(l) && OnlyInterest(l, calls, id, bp)
    ensures id in Run(l, calls).accounts
    ensures Compounded(l.accounts[id].balance, Run(l, calls).accounts[id].balance, Applications(l, calls, id, bp), bp)
  {
    if calls == [] {
      CompoundedStart(l.accounts[id].balance, bp);
    } else {
      var init := calls[..|calls| - 1];
      var before, call := Run(l, init), calls[|calls| - 1];
      CompoundInterest(l, init, id, bp);
      if IsInterest(before, call, id, bp) {
        InterestOnce(before, call, id, bp, l.accounts[id].balance, Applications(l, init, id, bp));
      }
    }
  }
}
