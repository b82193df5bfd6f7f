/** The laws of the ledger and of saving, over runs of the whole application with files saved and loaded. */
module AppLaws {
  import opened Wrappers
  import opened Numbers
  import opened Domain
  import opened Ledgers
  import opened LedgerLaws
  import opened Text
  import opened Identity
  import opened IdentityLaws
  import opened Audit
  import opened Api
  import opened Storage
  import opened SqliteWriting
  import opened Databases
  import opened AppRuns
  import LedgerRuns
  import Imports
  import ApiRuns

  // ---- Coherence and the round trip -----------------------------------------------------------

  ghost function IsCoherent(h: Hasher): App -> bool {
    app => Coherent(app, h)
  }

  lemma EditKeepsCoherent(app: App, h: Hasher, step: WorldStep)
    requires Coherent(app, h) && SoundHasher(h) && Edits(step)
    ensures Coherent(Edited(app, h, step), h)
  {
    match step {
      case BankStep(call) => ApiRuns.StepSound(app.ledger, call);
      case IdentityStep(op) =>
        assert Identity.RunFrom(app.identities, h, [op]) == Identity.After(app.identities, h, op) by {
          assert [op][..0] == [];
        }
        RunsConsistent(app.identities, h, [op]);
      case NoteStep(note, now) => RecordKeepsNumbered(app.log, note, now);
    }
  }

  lemma NewIsCoherent(h: Hasher)
    ensures Coherent(NEW_APP, h)
  {
    NobodyConsistent(h);
    LedgerRuns.EmptySound();
  }

  lemma WorldsCoherent(h: Hasher, steps: seq<WorldStep>)
    requires SoundHasher(h)
    ensures WorldKeeps(Run(NEW_WORLD, h, steps), IsCoherent(h))
  {
    NewIsCoherent(h);
    forall k | 0 <= k < |steps| && Edits(steps[k]) && IsCoherent(h)(Run(NEW_WORLD, h, steps[..k]).app)
      ensures IsCoherent(h)(Edited(Run(NEW_WORLD, h, steps[..k]).app, h, steps[k]))
    {
      EditKeepsCoherent(Run(NEW_WORLD, h, steps[..k]).app, h, steps[k]);
    }
    RunsKeep(NEW_WORLD, h, steps, IsCoherent(h));
  }

  /** Every state of every run, files loaded on the way or not, keeps all invariants of ledger, identities and log. */
  lemma EveryStateCoherent(h: Hasher, steps: seq<WorldStep>)
    requires SoundHasher(h)
    ensures Coherent(Run(NEW_WORLD, h, steps).app, h)
  {
    WorldsCoherent(h, steps);
    assert IsCoherent(h)(Run(NEW_WORLD, h, steps).app);
  }

  /**
   * Every state that the application can reach from its start, the empty one included, is saved to any
   * database file of the run iff the file can be migrated, its ids, its timestamps and the clock fit and
   * its account owners exist; and then that file loads as the state: equal accounts with their
   * transactions in the same order, customers, users, index, entries and audit counter, and a
   * transaction counter that is no higher and just past the highest id in use.
   */
  lemma EveryStateRoundTrip(h: Hasher, steps: seq<WorldStep>, path: string, c: Stamps, now: u64, later: Stamps)
    requires SoundHasher(h)
    requires DatabaseAt(Run(NEW_WORLD, h, steps).files, path).Some?
    ensures var (app, db) := (Run(NEW_WORLD, h, steps).app, DatabaseAt(Run(NEW_WORLD, h, steps).files, path).value);
            var (db', error) := Saved(db, h, app, c, now);
            && (error.None? <==>
                  && Migrated(db, h, c).1.None?
                  && Fits(app) && Owned(app.ledger.accounts, app.identities.customers) && now <= I64_MAX)
            && (error.None? ==> var r := LoadedFrom(db', h, later).1;
                                r.Ok? && ReloadOf(app, r.value) && r.value.ledger.next <= app.ledger.next)
  {
    var w := Run(NEW_WORLD, h, steps);
    var db := DatabaseAt(w.files, path).value;
    WorldsCoherent(h, steps);
    EveryStateCoherent(h, steps);
    NewFileKeeps(IsCoherent(h), w.files, path);
    KeptIsCurrent(db, IsCoherent(h), h, c);
    if Migrated(db, h, c).1.None? {
      SaveReloads(db, h, w.app, c, now, later);
    }
  }

  lemma SaveReloads(db: Db, h: Hasher, app: App, c: Stamps, now: u64, later: Stamps)
    requires Coherent(app, h) && Migrated(db, h, c).1.None? && Current(Migrated(db, h, c).0)
    ensures var (db', error) := Saved(db, h, app, c, now);
            && (error.None? <==> Fits(app) && Owned(app.ledger.accounts, app.identities.customers) && now <= I64_MAX)
            && (error.None? ==> var r := LoadedFrom(db', h, later).1;
                                r.Ok? && ReloadOf(app, r.value) && r.value.ledger.next <= app.ledger.next)
  {
    CoherentIsSaveable(app, h);
    SaveThenLoad(db, h, app, c, now, later);
    if Saved(db, h, app, c, now).1.None? {
      CoherentIsSorted(app, h, LoadedFrom(Saved(db, h, app, c, now).0, h, later).1.value);
    }
  }

  lemma DatabaseStepsGo(w: World, h: Hasher, path: string, c: Stamps, now: u64, later: Stamps)
    requires Valid(w.app.ledger) && DatabaseAt(w.files, path).Some?
    ensures var (db, error) := Saved(DatabaseAt(w.files, path).value, h, w.app, c, now);
            var r := LoadedFrom(db, h, later).1;
            DatabaseApp(w.(files := FilesAfterSave(w, h, path, c, now)), h, path, later) ==
            if r.Ok? then r.value else w.app
  {
  }

  lemma SaveThenLoadSteps(h: Hasher, steps: seq<WorldStep>, path: string, c: Stamps, now: u64, later: Stamps)
    requires SoundHasher(h)
    requires DatabaseAt(Run(NEW_WORLD, h, steps).files, path).Some?
    requires var w := Run(NEW_WORLD, h, steps);
             Saved(DatabaseAt(w.files, path).value, h, w.app, c, now).1.None?
    ensures var w := Run(NEW_WORLD, h, steps);
            ReloadOf(w.app, DatabaseApp(w.(files := FilesAfterSave(w, h, path, c, now)), h, path, later))
  {
    EveryStateRoundTrip(h, steps, path, c, now, later);
    DatabaseStepsGo(Run(NEW_WORLD, h, steps), h, path, c, now, later);
  }

  lemma SnapshotReads(w: World, h: Hasher, path: string, s: AppSnapshot)
    requires Valid(w.app.ledger)
    ensures SnapshotApp(w.(files := w.files[path := SnapshotFile(s)]), h, path) ==
            var r := FromSnapshot(h, s);
            if r.Ok? then r.value else w.app
  {
  }

  lemma SnapshotSteps(w: World, h: Hasher, path: string)
    requires Coherent(w.app, h)
    ensures var after := SnapshotApp(w.(files := w.files[path := SnapshotFile(SnapshotOf(w.app))]), h, path);
            if Owned(w.app.ledger.accounts, w.app.identities.customers) then ReloadOf(w.app, after) else after == w.app
  {
    CoherentIsSaveable(w.app, h);
    SnapshotRoundTrip(h, w.app);
    SnapshotReads(w, h, path, SnapshotOf(w.app));
  }

  lemma FileSteps(w: World, h: Hasher, path: string, c: Stamps, now: u64)
    requires Valid(w.app.ledger)
    ensures Next(w, h, SaveSnapshot(path)) == w.(files := w.files[path := SnapshotFile(SnapshotOf(w.app))])
    ensures Next(w, h, LoadSnapshot(path)) == w.(app := SnapshotApp(w, h, path))
    ensures Next(w, h, SaveDatabase(path, c, now)) == w.(files := FilesAfterSave(w, h, path, c, now))
    ensures Next(w, h, LoadDatabase(path, c)) == World(DatabaseApp(w, h, path, c), FilesAfterLoad(w, h, path, c))
  {
  }

  /** Saving to a database file and loading it again, as steps of a run: the state comes back if the save succeeds. */
  lemma DatabaseStepsRoundTrip(h: Hasher, steps: seq<WorldStep>, path: string, c: Stamps, now: u64, later: Stamps)
    requires SoundHasher(h)
    requires DatabaseAt(Run(NEW_WORLD, h, steps).files, path).Some?
    requires var w := Run(NEW_WORLD, h, steps);
             Saved(DatabaseAt(w.files, path).value, h, w.app, c, now).1.None?
    ensures var w := Run(NEW_WORLD, h, steps);
            ReloadOf(w.app, Next(Next(w, h, SaveDatabase(path, c, now)), h, LoadDatabase(path, later)).app)
  {
    var w := Run(NEW_WORLD, h, steps);
    SaveThenLoadSteps(h, steps, path, c, now, later);
    FileSteps(w, h, path, c, now);
    FileSteps(w.(files := FilesAfterSave(w, h, path, c, now)), h, path, later, now);
  }

  /**
   * The same for snapshot files: the state comes back iff its account owners exist, and otherwise nothing is loaded.
   */
  lemma SnapshotStepsRoundTrip(h: Hasher, steps: seq<WorldStep>, path: string)
    requires SoundHasher(h)
    ensures var w := Run(NEW_WORLD, h, steps);
            var after := Next(Next(w, h, SaveSnapshot(path)), h, LoadSnapshot(path)).app;
            if Owned(w.app.ledger.accounts, w.app.identities.customers) then ReloadOf(w.app, after) else after == w.app
  {
    var w := Run(NEW_WORLD, h, steps);
    EveryStateCoherent(h, steps);
    SnapshotSteps(w, h, path);
    FileSteps(w, h, path, Stamps(0, 0, 0), 0);
    FileSteps(w.(files := w.files[path := SnapshotFile(SnapshotOf(w.app))]), h, path, Stamps(0, 0, 0), 0);
  }

  // ---- What single steps change ---------------------------------------------------------------

  /** A call of the bank is one step of its ledger, a note one entry of the log if there is an id for it. */
  lemma EditsExact(w: World, h: Hasher, step: WorldStep)
    requires Valid(w.app.ledger) && Edits(step)
    ensures Next(w, h, step).files == w.files
    ensures step.BankStep? ==> Next(w, h, step).app == w.app.(ledger := Step(w.app.ledger, step.call))
    ensures step.NoteStep? ==>
              var (note, log) := (step.note, w.app.log);
              var entry := AuditEntry(log.nextId, step.now, note.actor, note.action, note.outcome, note.target,
                                      note.message);
              Next(w, h, step).app ==
              if log.nextId < U64_MAX then w.app.(log := Log(log.entries + [entry], log.nextId + 1)) else w.app
  {
  }

  /** A creation adds what was asked for iff it is possible, and changes nothing else. */
  lemma CreationsExact(w: World, h: Hasher, op: IdentityOp)
    requires Valid(w.app.ledger) && Consistent(w.app.identities)
    ensures var (s, app) := (w.app.identities, Next(w, h, IdentityStep(op)).app);
            match op
            case NewCustomer(id, fullName, email) =>
              app == if !CustomerCreatable(s, id, fullName, email) then w.app
                     else w.app.(identities := s.(customers := s.customers[id := CustomerRecord(id, Trim(fullName),
                                                                                                NameKey(email))]))
            case NewUser(_, _, _, _, _, _) =>
              app == if !Creatable(s, h, op) then w.app else w.app.(identities := WithUser(s, h, op))
  {
    match op {
      case NewCustomer(id, fullName, email) => CreateCustomerIff(w.app.identities, id, fullName, email);
      case NewUser(_, _, _, _, _, _) => CreateUserIff(w.app.identities, h, op);
    }
  }

  /** A snapshot is not taken for a database, nor a database for a snapshot. */
  lemma FilesToldApart(w: World, h: Hasher, path: string, c: Stamps, now: u64)
    requires Valid(w.app.ledger) && path in w.files
    ensures w.files[path].SnapshotFile? ==>
              Next(w, h, SaveDatabase(path, c, now)) == w && Next(w, h, LoadDatabase(path, c)) == w
    ensures w.files[path].DatabaseFile? ==> Next(w, h, LoadSnapshot(path)) == w
  {
  }

  // ---- Account owners -------------------------------------------------------------------------

  ghost function IsOwned(h: Hasher): App -> bool {
    app => Coherent(app, h) && Owned(app.ledger.accounts, app.identities.customers)
  }

  function OpensFor(op: Op): Option<CustomerId> {
    if op.CreateAccount? then op.ownerId else None
  }

  /** Accounts are opened for nobody or for a customer that exists at that moment. */
  ghost predicate OpenedForExisting(w: World, h: Hasher, steps: seq<WorldStep>)
    requires Valid(w.app.ledger)
  {
    forall k :: 0 <= k < |steps| && steps[k].BankStep? && OpensFor(steps[k].call.op).Some? ==>
      OpensFor(steps[k].call.op).value in Run(w, h, steps[..k]).app.identities.customers
  }

  lemma EditKeepsOwned(app: App, h: Hasher, step: WorldStep)
    requires Coherent(app, h) && SoundHasher(h) && Edits(step) && Owned(app.ledger.accounts, app.identities.customers)
    requires step.BankStep? && OpensFor(step.call.op).Some? ==>
               OpensFor(step.call.op).value in app.identities.customers
    ensures Owned(Edited(app, h, step).ledger.accounts, Edited(app, h, step).identities.customers)
  {
    match step {
      case BankStep(call) => ApiRuns.StepOwners(app.ledger, call, app.identities);
      case IdentityStep(op) =>
        match op {
          case NewCustomer(id, fullName, email) => CreateCustomerKeeps(app.identities, id, fullName, email);
          case NewUser(salt, id, username, role, link, password) =>
            CreateUserAdds(app.identities, h, salt, id, username, role, link, password);
        }
      case NoteStep(_, _) =>
    }
  }

  /**
   * If owners are checked when accounts are opened, every account owner exists at every later moment, loads included.
   */
  lemma OwnersExist(h: Hasher, steps: seq<WorldStep>)
    requires SoundHasher(h) && OpenedForExisting(NEW_WORLD, h, steps)
    ensures WorldKeeps(Run(NEW_WORLD, h, steps), IsOwned(h))
    ensures Owned(Run(NEW_WORLD, h, steps).app.ledger.accounts, Run(NEW_WORLD, h, steps).app.identities.customers)
  {
    NewIsCoherent(h);
    forall k | 0 <= k < |steps| && Edits(steps[k]) && IsOwned(h)(Run(NEW_WORLD, h, steps[..k]).app)
      ensures IsOwned(h)(Edited(Run(NEW_WORLD, h, steps[..k]).app, h, steps[k]))
    {
      EditKeepsCoherent(Run(NEW_WORLD, h, steps[..k]).app, h, steps[k]);
      EditKeepsOwned(Run(NEW_WORLD, h, steps[..k]).app, h, steps[k]);
    }
    RunsKeep(NEW_WORLD, h, steps, IsOwned(h));
    assert IsOwned(h)(Run(NEW_WORLD, h, steps).app);
  }

  // ---- Replay ---------------------------------------------------------------------------------

  /** Balances are their replay plus what failed loan requests credited; none were if `exact`. */
  ghost predicate Explained(l: Ledger, exact: bool) {
    forall id :: id in l.accounts ==>
      LedgerRuns.BalanceSound(l.accounts[id], if exact then 0 else Drift(l.accounts[id]))
  }

  ghost function IsExplained(h: Hasher, exact: bool): App -> bool {
    app => Coherent(app, h) && Explained(app.ledger, exact)
  }

  /** No loan request of the run overflows only the loan. */
  ghost predicate NoLeaks(w: World, h: Hasher, steps: seq<WorldStep>)
    requires Valid(w.app.ledger)
  {
    forall k :: 0 <= k < |steps| && steps[k].BankStep? ==>
        !LoanOverflows(Run(w, h, steps[..k]).app.ledger, steps[k].call)
  }

  lemma StepExplained(l: Ledger, call: Call, exact: bool)
    requires LedgerRuns.Sound(l) && Explained(l, exact) && (exact ==> !LoanOverflows(l, call))
    ensures Explained(Step(l, call), exact)
  {
    forall id | id in Step(l, call).accounts
      ensures var a := Step(l, call).accounts[id]; LedgerRuns.BalanceSound(a, if exact then 0 else Drift(a))
    {
      StepBalance(l, call, id, if exact || id !in l.accounts then 0 else Drift(l.accounts[id]));
    }
  }

  lemma EditsExplained(h: Hasher, steps: seq<WorldStep>, exact: bool)
    requires SoundHasher(h) && (exact ==> NoLeaks(NEW_WORLD, h, steps))
    ensures EditsKeep(NEW_WORLD, h, steps, IsExplained(h, exact))
  {
    forall k | 0 <= k < |steps| && Edits(steps[k]) && IsExplained(h, exact)(Run(NEW_WORLD, h, steps[..k]).app)
      ensures IsExplained(h, exact)(Edited(Run(NEW_WORLD, h, steps[..k]).app, h, steps[k]))
    {
      var app := Run(NEW_WORLD, h, steps[..k]).app;
      EditKeepsCoherent(app, h, steps[k]);
      if steps[k].BankStep? {
        StepExplained(app.ledger, steps[k].call, exact);
      }
    }
  }

  lemma WorldsExplained(h: Hasher, steps: seq<WorldStep>, exact: bool)
    requires SoundHasher(h) && (exact ==> NoLeaks(NEW_WORLD, h, steps))
    ensures Explained(Run(NEW_WORLD, h, steps).app.ledger, exact)
  {
    NewIsCoherent(h);
    EditsExplained(h, steps, exact);
    RunsKeep(NEW_WORLD, h, steps, IsExplained(h, exact));
    assert IsExplained(h, exact)(Run(NEW_WORLD, h, steps).app);
  }

  /**
   * Whatever is saved and loaded on the way: loans equal their replay, balances their replay plus what
   * failed loan requests credited, and exactly their replay when no request overflowed only the loan;
   * every prefix of a replay is in range.
   */
  lemma ReplayAcrossLoads(h: Hasher, steps: seq<WorldStep>, id: AccountId)
    requires SoundHasher(h) && id in Run(NEW_WORLD, h, steps).app.ledger.accounts
    ensures var a := Run(NEW_WORLD, h, steps).app.ledger.accounts[id];
            && LedgerRuns.LoanSound(a)
            && LedgerRuns.BalanceSound(a, Drift(a))
            && (NoLeaks(NEW_WORLD, h, steps) ==> LedgerRuns.BalanceSound(a, 0))
  {
    EveryStateCoherent(h, steps);
    var l := Run(NEW_WORLD, h, steps).app.ledger;
    assert LedgerRuns.AccountSound(l.accounts[id], l.next);
    WorldsExplained(h, steps, false);
    if NoLeaks(NEW_WORLD, h, steps) {
      WorldsExplained(h, steps, true);
    }
  }

  // ---- Ids that are issued again --------------------------------------------------------------

  /** Open an account and delete it. */
  function ReissuingCalls(): seq<Call> {
    [OpenFirst(0), Call(Op.DeleteAccount(1), 0, 0)]
  }

  lemma FirstDeleted(a: Account)
    requires a.balance == 0 && a.loanBalance == 0
    ensures Valid(Ledger(map[1 := a], 2)) ==>
              Step(Ledger(map[1 := a], 2), Call(Op.DeleteAccount(1), 0, 0)) == Ledger(map[], 2)
  {
    assert map[1 := a] - {1} == map[];
  }

  /** A real case: id 1 was used, its account is deleted, and after a reload it is the next one again. */
  lemma ReloadReissuesIds()
    ensures LedgerRuns.Run(EMPTY, ReissuingCalls()) == Ledger(map[], 2)
    ensures Imports.FromAccounts([]) == Ok(Ledger(map[], 1))
  {
    var c := ReissuingCalls();
    FirstOpens(0);
    FirstDeleted(FirstAccount(0));
    assert c[..2] == c && c[..2][..1] == c[..1] && c[..1][..0] == [];
    assert LedgerRuns.Run(EMPTY, c[..1]) == Step(EMPTY, c[0]);
  }
}
