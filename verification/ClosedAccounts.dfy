/** When a closed account stays closed, over runs of the whole application with files saved and loaded. */
module ClosedAccounts {
  import opened Domain
  import opened Ledgers
  import opened LedgerLaws
  import opened Identity
  import opened Api
  import opened Storage
  import opened Databases
  import opened AppRuns
  import opened AppLaws
  import LedgerRuns

  /** The account is closed, and its entries begin with the given ones. */
  ghost predicate ClosedSince(l: Ledger, id: AccountId, ts: seq<Transaction>) {
    id in l.accounts && l.accounts[id].status.Closed? && ts <= l.accounts[id].transactions
  }

  predicate NeverDeletes(steps: seq<WorldStep>, id: AccountId) {
    forall k :: 0 <= k < |steps| && steps[k].BankStep? ==> steps[k].call.op != Op.DeleteAccount(id)
  }

  // The readings do not matter for a file that can be loaded: it has been migrated already.
  const ANY_STAMPS := Stamps(0, 0, 0)

  /** The account is closed now, and is closed after any single load. */
  ghost predicate ClosedAfterAnyLoad(w: World, h: Hasher, id: AccountId, ts: seq<Transaction>)
    requires Valid(w.app.ledger)
  {
    && ClosedSince(w.app.ledger, id, ts)
    && forall path ::
         && ClosedSince(SnapshotApp(w, h, path).ledger, id, ts)
         && ClosedSince(DatabaseApp(w, h, path, ANY_STAMPS).ledger, id, ts)
  }

  /** No run that does not delete the account ever finds it other than closed. */
  ghost predicate ClosedForGood(w: World, h: Hasher, id: AccountId, ts: seq<Transaction>)
    requires Valid(w.app.ledger)
  {
    forall steps :: NeverDeletes(steps, id) ==> ClosedSince(Run(w, h, steps).app.ledger, id, ts)
  }

  // ---- What the files have to be like ---------------------------------------------------------

  /** Closed, if the state can be loaded at all. */
  ghost function ClosedIfLoadable(h: Hasher, id: AccountId, ts: seq<Transaction>): App -> bool {
    app => Coherent(app, h)
           && (Owned(app.ledger.accounts, app.identities.customers) ==> ClosedSince(app.ledger, id, ts))
  }

  lemma SnapshotClosed(w: World, h: Hasher, id: AccountId, ts: seq<Transaction>, path: string)
    requires Valid(w.app.ledger) && ClosedSince(SnapshotApp(w, h, path).ledger, id, ts)
    requires path in w.files && w.files[path].SnapshotFile? && FileKeeps(w.files[path], IsCoherent(h))
    ensures FileKeeps(w.files[path], ClosedIfLoadable(h, id, ts))
  {
    var s := w.files[path].snapshot;
    var app :| IsCoherent(h)(app) && s == SnapshotOf(app);
    CoherentIsSaveable(app, h);
    SnapshotRoundTrip(h, app);
    assert ClosedIfLoadable(h, id, ts)(app);
  }

  /** What a kept file loads as, and that its state could be loaded. */
  lemma KeptReloads(db: Db, h: Hasher, app: App, c: Stamps)
    requires Coherent(app, h) && Keeps(db, app)
    ensures LoadedFrom(db, h, c).1.Ok? && ReloadOf(app, LoadedFrom(db, h, c).1.value)
    ensures Owned(app.ledger.accounts, app.identities.customers)
  {
    CoherentIsSaveable(app, h);
    WriteStateExact(app, h);
    KeptLoads(db, h, app, c);
    CoherentIsSorted(app, h, LoadedFrom(db, h, c).1.value);
  }

  lemma KeptClosed(db: Db, h: Hasher, id: AccountId, ts: seq<Transaction>, c: Stamps)
    requires FileKeeps(DatabaseFile(db), IsCoherent(h))
    requires LoadedFrom(db, h, c).1.Ok? ==> ClosedSince(LoadedFrom(db, h, c).1.value.ledger, id, ts)
    ensures FileKeeps(DatabaseFile(db), ClosedIfLoadable(h, id, ts))
  {
    if !NeverSaved(db) {
      var app :| IsCoherent(h)(app) && Keeps(db, app);
      KeptReloads(db, h, app, c);
      assert ClosedIfLoadable(h, id, ts)(app);
    }
  }

  lemma DatabaseClosed(w: World, h: Hasher, id: AccountId, ts: seq<Transaction>, path: string)
    requires Valid(w.app.ledger) && ClosedSince(DatabaseApp(w, h, path, ANY_STAMPS).ledger, id, ts)
    requires path in w.files && w.files[path].DatabaseFile? && FileKeeps(w.files[path], IsCoherent(h))
    ensures FileKeeps(w.files[path], ClosedIfLoadable(h, id, ts))
  {
    KeptClosed(w.files[path].db, h, id, ts, ANY_STAMPS);
  }

  lemma FilesClosed(w: World, h: Hasher, id: AccountId, ts: seq<Transaction>)
    requires Valid(w.app.ledger) && WorldKeeps(w, IsCoherent(h)) && ClosedAfterAnyLoad(w, h, id, ts)
    ensures WorldKeeps(w, ClosedIfLoadable(h, id, ts))
  {
    assert IsCoherent(h)(w.app);
    forall path | path in w.files
      ensures FileKeeps(w.files[path], ClosedIfLoadable(h, id, ts))
    {
      match w.files[path] {
        case SnapshotFile(_) => SnapshotClosed(w, h, id, ts, path);
        case DatabaseFile(_) => DatabaseClosed(w, h, id, ts, path);
      }
    }
  }

  // ---- What loading gives ---------------------------------------------------------------------

  lemma SnapshotGivesClosed(h: Hasher, id: AccountId, ts: seq<Transaction>, s: AppSnapshot)
    requires FileKeeps(SnapshotFile(s), ClosedIfLoadable(h, id, ts)) && FromSnapshot(h, s).Ok?
    ensures ClosedSince(FromSnapshot(h, s).value.ledger, id, ts)
  {
    var app :| ClosedIfLoadable(h, id, ts)(app) && s == SnapshotOf(app);
    CoherentIsSaveable(app, h);
    SnapshotRoundTrip(h, app);
  }

  lemma DatabaseGivesClosed(h: Hasher, id: AccountId, ts: seq<Transaction>, db: Db, c: Stamps)
    requires FileKeeps(DatabaseFile(db), ClosedIfLoadable(h, id, ts)) && LoadedFrom(db, h, c).1.Ok?
    ensures ClosedSince(LoadedFrom(db, h, c).1.value.ledger, id, ts)
  {
    if NeverSaved(db) {
      NeverSavedFails(db, h, c);
    } else {
      var app :| ClosedIfLoadable(h, id, ts)(app) && Keeps(db, app);
      KeptReloads(db, h, app, c);
    }
  }

  lemma EditKeepsClosed(app: App, h: Hasher, step: WorldStep, id: AccountId, ts: seq<Transaction>)
    requires Coherent(app, h) && Edits(step) && ClosedSince(app.ledger, id, ts)
    requires step.BankStep? ==> step.call.op != Op.DeleteAccount(id)
    ensures ClosedSince(Edited(app, h, step).ledger, id, ts)
  {
    if step.BankStep? {
      ClosedStep(app.ledger, step.call, id);
    }
  }

  lemma LoadSnapshotClosed(w: World, h: Hasher, path: string, id: AccountId, ts: seq<Transaction>)
    requires Valid(w.app.ledger) && WorldKeeps(w, ClosedIfLoadable(h, id, ts)) && ClosedSince(w.app.ledger, id, ts)
    ensures ClosedSince(SnapshotApp(w, h, path).ledger, id, ts)
  {
    if path in w.files && w.files[path].SnapshotFile? {
      if FromSnapshot(h, w.files[path].snapshot).Ok? {
        SnapshotGivesClosed(h, id, ts, w.files[path].snapshot);
      }
    }
  }

  lemma LoadDatabaseClosed(w: World, h: Hasher, path: string, c: Stamps, id: AccountId, ts: seq<Transaction>)
    requires Valid(w.app.ledger) && WorldKeeps(w, ClosedIfLoadable(h, id, ts)) && ClosedSince(w.app.ledger, id, ts)
    ensures ClosedSince(DatabaseApp(w, h, path, c).ledger, id, ts)
  {
    var db := DatabaseAt(w.files, path);
    if db.Some? {
      NewFileKeeps(ClosedIfLoadable(h, id, ts), w.files, path);
      if LoadedFrom(db.value, h, c).1.Ok? {
        DatabaseGivesClosed(h, id, ts, db.value, c);
      }
    }
  }

  lemma ReloadKeepsClosed(h: Hasher, id: AccountId, ts: seq<Transaction>)
    ensures Reloadable(ClosedIfLoadable(h, id, ts), h)
  {
  }

  /** An edit keeps the account closed, and the state coherent. */
  lemma EditKeepsBoth(app: App, h: Hasher, step: WorldStep, id: AccountId, ts: seq<Transaction>)
    requires SoundHasher(h) && Edits(step) && Coherent(app, h) && ClosedSince(app.ledger, id, ts)
    requires step.BankStep? ==> step.call.op != Op.DeleteAccount(id)
    ensures ClosedIfLoadable(h, id, ts)(Edited(app, h, step)) && ClosedSince(Edited(app, h, step).ledger, id, ts)
  {
    EditKeepsCoherent(app, h, step);
    EditKeepsClosed(app, h, step, id, ts);
  }

  lemma FileStepKeepsClosed(w: World, h: Hasher, step: WorldStep, id: AccountId, ts: seq<Transaction>)
    requires Valid(w.app.ledger) && WorldKeeps(w, ClosedIfLoadable(h, id, ts)) && ClosedSince(w.app.ledger, id, ts)
    requires !Edits(step)
    ensures ClosedSince(Next(w, h, step).app.ledger, id, ts)
  {
    match step {
      case LoadSnapshot(path) => LoadSnapshotClosed(w, h, path, id, ts);
      case LoadDatabase(path, stamps) => LoadDatabaseClosed(w, h, path, stamps, id, ts);
      case _ =>
    }
  }

  lemma StepKeepsClosed(w: World, h: Hasher, step: WorldStep, id: AccountId, ts: seq<Transaction>)
    requires SoundHasher(h) && Valid(w.app.ledger)
    requires WorldKeeps(w, ClosedIfLoadable(h, id, ts)) && ClosedSince(w.app.ledger, id, ts)
    requires step.BankStep? ==> step.call.op != Op.DeleteAccount(id)
    ensures ClosedSince(Next(w, h, step).app.ledger, id, ts)
  {
    assert ClosedIfLoadable(h, id, ts)(w.app);
    if Edits(step) {
      EditKeepsBoth(w.app, h, step, id, ts);
    } else {
      FileStepKeepsClosed(w, h, step, id, ts);
    }
  }

  lemma StepKeepsFiles(w: World, h: Hasher, step: WorldStep, id: AccountId, ts: seq<Transaction>)
    requires SoundHasher(h) && Valid(w.app.ledger)
    requires WorldKeeps(w, ClosedIfLoadable(h, id, ts)) && ClosedSince(w.app.ledger, id, ts)
    requires step.BankStep? ==> step.call.op != Op.DeleteAccount(id)
    ensures WorldKeeps(Next(w, h, step), ClosedIfLoadable(h, id, ts))
  {
    ReloadKeepsClosed(h, id, ts);
    assert ClosedIfLoadable(h, id, ts)(w.app);
    if Edits(step) {
      EditKeepsBoth(w.app, h, step, id, ts);
    }
    NextKeeps(w, h, step, ClosedIfLoadable(h, id, ts));
  }

  lemma {:induction false} RunKeepsClosed(w: World, h: Hasher, steps: seq<WorldStep>, id: AccountId,
                                          ts: seq<Transaction>)
    requires SoundHasher(h) && Valid(w.app.ledger) && NeverDeletes(steps, id)
    requires WorldKeeps(w, ClosedIfLoadable(h, id, ts)) && ClosedSince(w.app.ledger, id, ts)
    ensures WorldKeeps(Run(w, h, steps), ClosedIfLoadable(h, id, ts))
    ensures ClosedSince(Run(w, h, steps).app.ledger, id, ts)
  {
    if steps != [] {
      var init, last := steps[..|steps| - 1], steps[|steps| - 1];
      RunKeepsClosed(w, h, init, id, ts);
      StepKeepsClosed(Run(w, h, init), h, last, id, ts);
      StepKeepsFiles(Run(w, h, init), h, last, id, ts);
    }
  }

  // ---- The laws -------------------------------------------------------------------------------

  /**
   * An account that is closed now and after any single load stays closed and settled as long as nobody
   * deletes it, and only gains profile and closing entries, whatever is saved and loaded in between.
   */
  lemma ClosedAcrossLoads(w: World, h: Hasher, steps: seq<WorldStep>, id: AccountId, ts: seq<Transaction>)
    requires SoundHasher(h) && Valid(w.app.ledger) && WorldKeeps(w, IsCoherent(h))
    requires ClosedAfterAnyLoad(w, h, id, ts) && NeverDeletes(steps, id)
    ensures var l := Run(w, h, steps).app.ledger;
            && ClosedSince(l, id, ts)
            && l.accounts[id].balance == 0 && l.accounts[id].loanBalance == 0
            && LedgerRuns.ClosedTail(l.accounts[id].transactions)
  {
    FilesClosed(w, h, id, ts);
    RunKeepsClosed(w, h, steps, id, ts);
    var l := Run(w, h, steps).app.ledger;
    assert ClosedIfLoadable(h, id, ts)(Run(w, h, steps).app);
    assert LedgerRuns.AccountSound(l.accounts[id], l.next);
  }

  lemma OneStep(w: World, h: Hasher, step: WorldStep)
    requires Valid(w.app.ledger)
    ensures Run(w, h, []) == w && Run(w, h, [step]) == Next(w, h, step)
  {
    assert [step][..0] == [];
  }

  lemma OneLoad(w: World, h: Hasher, step: WorldStep, id: AccountId, ts: seq<Transaction>)
    requires Valid(w.app.ledger) && ClosedForGood(w, h, id, ts) && (step.LoadSnapshot? || step.LoadDatabase?)
    ensures ClosedSince(w.app.ledger, id, ts) && ClosedSince(Next(w, h, step).app.ledger, id, ts)
  {
    OneStep(w, h, step);
    assert NeverDeletes([], id) && NeverDeletes([step], id);
  }

  lemma LoadsStayClosed(w: World, h: Hasher, path: string, id: AccountId, ts: seq<Transaction>)
    requires Valid(w.app.ledger) && ClosedForGood(w, h, id, ts)
    ensures ClosedSince(w.app.ledger, id, ts)
    ensures ClosedSince(SnapshotApp(w, h, path).ledger, id, ts)
    ensures ClosedSince(DatabaseApp(w, h, path, ANY_STAMPS).ledger, id, ts)
  {
    OneLoad(w, h, LoadSnapshot(path), id, ts);
    OneLoad(w, h, LoadDatabase(path, ANY_STAMPS), id, ts);
  }

  lemma ForGoodNeedsLoads(w: World, h: Hasher, id: AccountId, ts: seq<Transaction>)
    requires Valid(w.app.ledger) && ClosedForGood(w, h, id, ts)
    ensures ClosedAfterAnyLoad(w, h, id, ts)
  {
    forall path
      ensures ClosedSince(w.app.ledger, id, ts)
      ensures ClosedSince(SnapshotApp(w, h, path).ledger, id, ts)
      ensures ClosedSince(DatabaseApp(w, h, path, ANY_STAMPS).ledger, id, ts)
    {
      LoadsStayClosed(w, h, path, id, ts);
    }
    LoadsStayClosed(w, h, "", id, ts);
  }

  lemma LoadsSuffice(w: World, h: Hasher, id: AccountId, ts: seq<Transaction>)
    requires SoundHasher(h) && Valid(w.app.ledger) && WorldKeeps(w, IsCoherent(h)) && ClosedAfterAnyLoad(w, h, id, ts)
    ensures ClosedForGood(w, h, id, ts)
  {
    forall steps | NeverDeletes(steps, id)
      ensures ClosedSince(Run(w, h, steps).app.ledger, id, ts)
    {
      ClosedAcrossLoads(w, h, steps, id, ts);
    }
  }

  /**
   * In every world whose files were written by the application: no run without a deletion ever reopens
   * the account, or drops any of the given entries, iff it is closed now and after any single load.
   */
  lemma ClosedForGoodIff(w: World, h: Hasher, id: AccountId, ts: seq<Transaction>)
    requires SoundHasher(h) && Valid(w.app.ledger) && WorldKeeps(w, IsCoherent(h))
    ensures ClosedForGood(w, h, id, ts) <==> ClosedAfterAnyLoad(w, h, id, ts)
  {
    if ClosedForGood(w, h, id, ts) {
      ForGoodNeedsLoads(w, h, id, ts);
    }
    if ClosedAfterAnyLoad(w, h, id, ts) {
      LoadsSuffice(w, h, id, ts);
    }
  }

  /** In particular at every point of every run from the start. */
  lemma ClosedForGoodAfterRun(h: Hasher, past: seq<WorldStep>, id: AccountId, ts: seq<Transaction>)
    requires SoundHasher(h)
    ensures ClosedForGood(Run(NEW_WORLD, h, past), h, id, ts) <==>
            ClosedAfterAnyLoad(Run(NEW_WORLD, h, past), h, id, ts)
  {
    WorldsCoherent(h, past);
    ClosedForGoodIff(Run(NEW_WORLD, h, past), h, id, ts);
  }

  // ---- A run that reopens an account ----------------------------------------------------------

  /** Open an account, save, close the account, and load what was saved. */
  function ReopeningSteps(): seq<WorldStep> {
    [BankStep(OpenFirst(0)), SaveSnapshot("f"),
     BankStep(Call(Op.CloseAccount(1), 0, 0)), LoadSnapshot("f")]
  }

  lemma FirstCloses()
    ensures var l := Step(Ledger(map[1 := FirstAccount(0)], 2), Call(Op.CloseAccount(1), 0, 0));
            1 in l.accounts && l.accounts[1].status.Closed?
  {
  }

  lemma RunStep(w: World, h: Hasher, steps: seq<WorldStep>, k: nat)
    requires Valid(w.app.ledger) && k < |steps|
    ensures Run(w, h, steps[..0]) == w
    ensures Run(w, h, steps[..k + 1]) == Next(Run(w, h, steps[..k]), h, steps[k])
  {
    assert steps[..k + 1][..k] == steps[..k];
  }

  /** Saving and closing, one after the other, from the world in which the account is open. */
  lemma SaveAndClose(w: World, h: Hasher)
    requires Valid(w.app.ledger) && w.app.ledger == Step(EMPTY, OpenFirst(0))
    ensures var closed := Next(Next(w, h, ReopeningSteps()[1]), h, ReopeningSteps()[2]);
            && 1 in closed.app.ledger.accounts && closed.app.ledger.accounts[1].status.Closed?
            && "f" in closed.files && closed.files["f"] == SnapshotFile(SnapshotOf(w.app))
  {
    FirstOpens(0);
    FirstCloses();
  }

  lemma SnapshotReopens(w: World, h: Hasher, path: string, app: App)
    requires Valid(w.app.ledger) && path in w.files && w.files[path] == SnapshotFile(SnapshotOf(app))
    requires Coherent(app, h) && Owned(app.ledger.accounts, app.identities.customers)
    ensures SnapshotApp(w, h, path).ledger.accounts == app.ledger.accounts
  {
    CoherentIsSaveable(app, h);
    SnapshotRoundTrip(h, app);
  }

  lemma NextLoads(w: World, h: Hasher, path: string)
    requires Valid(w.app.ledger)
    ensures Next(w, h, LoadSnapshot(path)).app == SnapshotApp(w, h, path)
  {
  }

  lemma LoadReopens(w: World, h: Hasher, path: string, app: App)
    requires Valid(w.app.ledger) && path in w.files && w.files[path] == SnapshotFile(SnapshotOf(app))
    requires Coherent(app, h) && Owned(app.ledger.accounts, app.identities.customers)
    ensures Next(w, h, LoadSnapshot(path)).app.ledger.accounts == app.ledger.accounts
  {
    SnapshotReopens(w, h, path, app);
    NextLoads(w, h, path);
  }

  lemma FourSteps(w: World, h: Hasher, s: seq<WorldStep>)
    requires Valid(w.app.ledger) && |s| == 4
    ensures var w1 := Run(w, h, s[..1]);
            && w1 == Next(w, h, s[0])
            && Run(w, h, s[..3]) == Next(Next(w1, h, s[1]), h, s[2])
            && Run(w, h, s) == Next(Run(w, h, s[..3]), h, s[3])
  {
    RunStep(w, h, s, 0);
    RunStep(w, h, s, 1);
    RunStep(w, h, s, 2);
    RunStep(w, h, s, 3);
    assert s[..4] == s;
  }

  lemma FirstStep(h: Hasher)
    ensures var app := Next(NEW_WORLD, h, ReopeningSteps()[0]).app;
            && app.ledger == Step(EMPTY, OpenFirst(0))
            && Owned(app.ledger.accounts, app.identities.customers)
            && 1 in app.ledger.accounts && app.ledger.accounts[1].status.Active?
  {
    FirstOpens(0);
  }

  /** The condition on files matters: loading a file saved before the account was closed opens it again. */
  lemma OldFileReopens(h: Hasher)
    requires SoundHasher(h)
    ensures var (closed, reopened) := (Run(NEW_WORLD, h, ReopeningSteps()[..3]), Run(NEW_WORLD, h, ReopeningSteps()));
            && 1 in closed.app.ledger.accounts && closed.app.ledger.accounts[1].status.Closed?
            && 1 in reopened.app.ledger.accounts && reopened.app.ledger.accounts[1].status.Active?
  {
    var w1, w3 := Run(NEW_WORLD, h, ReopeningSteps()[..1]), Run(NEW_WORLD, h, ReopeningSteps()[..3]);
    FourSteps(NEW_WORLD, h, ReopeningSteps());
    FirstStep(h);
    SaveAndClose(w1, h);
    EveryStateCoherent(h, ReopeningSteps()[..1]);
    LoadReopens(w3, h, "f", w1.app);
  }
}
