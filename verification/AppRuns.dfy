/** Runs of the whole application: every operation and every note, with files saved and loaded in between. */
module AppRuns {
  import opened Wrappers
  import opened Numbers
  import opened Domain
  import opened Ledgers
  import opened Imports
  import opened Identity
  import opened Audit
  import opened Api
  import opened Storage
  import opened Sqlite
  import opened Databases

  datatype File = SnapshotFile(snapshot: AppSnapshot) | DatabaseFile(db: Db)

  /** The application and the files it has written. */
  datatype World = World(app: App, files: map<string, File>)

  const NEW_WORLD := World(NEW_APP, map[])

  datatype WorldStep =
    | BankStep(call: Call)
    | IdentityStep(op: IdentityOp)
    | NoteStep(note: Audit.Note, now: u64)
    | SaveSnapshot(path: string)
    | LoadSnapshot(path: string)
    | SaveDatabase(path: string, stamps: Stamps, now: u64)
    | LoadDatabase(path: string, stamps: Stamps)

  predicate Edits(step: WorldStep) {
    step.BankStep? || step.IdentityStep? || step.NoteStep?
  }

  /** The application after an operation of the bank or of the identity store, or after a note. */
  function Edited(app: App, h: Hasher, step: WorldStep): (app': App)
    requires Valid(app.ledger) && Edits(step)
    ensures Valid(app'.ledger)
  {
    match step
    case BankStep(call) => app.(ledger := Step(app.ledger, call))
    case IdentityStep(op) => app.(identities := Identity.After(app.identities, h, op))
    case NoteStep(note, now) => app.(log := RecordNote(app.log, note, now).0)
  }

  /** Opening a path that does not exist creates the file; a snapshot is not a database. */
  function DatabaseAt(files: map<string, File>, path: string): Option<Db> {
    if path !in files then Some(NEW_FILE)
    else match files[path]
      case SnapshotFile(_) => None
      case DatabaseFile(db) => Some(db)
  }

  lemma ImportIsValid(accounts: seq<Account>)
    ensures Imports.FromAccounts(accounts).Ok? ==> Valid(Imports.FromAccounts(accounts).value)
  {
    if Imports.FromAccounts(accounts).Ok? {
      ImportedIsLoadable(accounts);
    }
  }

  lemma ReadIsImported(h: Hasher, t: Tables) returns (accounts: seq<Account>)
    requires ReadState(h, t).Ok? && ReadState(h, t).value.Some?
    ensures Imports.FromAccounts(accounts) == Ok(ReadState(h, t).value.value.ledger)
  {
    accounts := ReadAccounts(t, Rows.OrderById(t.accounts), []).value;
  }

  lemma ReadIsValid(h: Hasher, t: Tables)
    ensures ReadState(h, t).Ok? && ReadState(h, t).value.Some? ==> Valid(ReadState(h, t).value.value.ledger)
  {
    if ReadState(h, t).Ok? && ReadState(h, t).value.Some? {
      var accounts := ReadIsImported(h, t);
      ImportIsValid(accounts);
    }
  }

  lemma SnapshotIsValid(h: Hasher, s: AppSnapshot)
    ensures FromSnapshot(h, s).Ok? ==> Valid(FromSnapshot(h, s).value.ledger)
  {
    if FromSnapshot(h, s).Ok? {
      AssembledIsLoaded(h, s.customers, s.users, s.accounts, s.auditEntries);
    }
  }

  lemma LoadedIsValid(db: Db, h: Hasher, c: Stamps)
    ensures LoadedFrom(db, h, c).1.Ok? ==> Valid(LoadedFrom(db, h, c).1.value.ledger)
  {
    var current := Migrated(db, h, c).0;
    if current.tables.Some? {
      ReadIsValid(h, current.tables.value);
    }
    if current.snapshot.Some? && current.snapshot.value.Some? {
      SnapshotIsValid(h, current.snapshot.value.value);
    }
  }

  /** The application after loading a snapshot file; a load that fails leaves it as it is. */
  function SnapshotApp(w: World, h: Hasher, path: string): (app: App)
    requires Valid(w.app.ledger)
    ensures Valid(app.ledger)
  {
    if path in w.files && w.files[path].SnapshotFile? then
      SnapshotIsValid(h, w.files[path].snapshot);
      match FromSnapshot(h, w.files[path].snapshot)
      case Err(_) => w.app
      case Ok(app) => app
    else w.app
  }

  /** The application after loading a database file. */
  function DatabaseApp(w: World, h: Hasher, path: string, c: Stamps): (app: App)
    requires Valid(w.app.ledger)
    ensures Valid(app.ledger)
  {
    match DatabaseAt(w.files, path)
    case None => w.app
    case Some(db) =>
      LoadedIsValid(db, h, c);
      match LoadedFrom(db, h, c).1
      case Err(_) => w.app
      case Ok(app) => app
  }

  /** The files after loading a database file, which migrates it. */
  function FilesAfterLoad(w: World, h: Hasher, path: string, c: Stamps): map<string, File> {
    match DatabaseAt(w.files, path)
    case None => w.files
    case Some(db) => w.files[path := DatabaseFile(LoadedFrom(db, h, c).0)]
  }

  function FilesAfterSave(w: World, h: Hasher, path: string, c: Stamps, now: u64): map<string, File> {
    match DatabaseAt(w.files, path)
    case None => w.files
    case Some(db) => w.files[path := DatabaseFile(Saved(db, h, w.app, c, now).0)]
  }

  function Next(w: World, h: Hasher, step: WorldStep): (w': World)
    requires Valid(w.app.ledger)
    ensures Valid(w'.app.ledger)
  {
    match step
    case SaveSnapshot(path) => w.(files := w.files[path := SnapshotFile(SnapshotOf(w.app))])
    case LoadSnapshot(path) => w.(app := SnapshotApp(w, h, path))
    case SaveDatabase(path, stamps, now) => w.(files := FilesAfterSave(w, h, path, stamps, now))
    case LoadDatabase(path, stamps) => World(DatabaseApp(w, h, path, stamps), FilesAfterLoad(w, h, path, stamps))
    case _ => w.(app := Edited(w.app, h, step))
  }

  function Run(w: World, h: Hasher, steps: seq<WorldStep>): (w': World)
    requires Valid(w.app.ledger)
    ensures Valid(w'.app.ledger)
  {
    if steps == [] then w else Next(Run(w, h, steps[..|steps| - 1]), h, steps[|steps| - 1])
  }

  // ---- What every run keeps -------------------------------------------------------------------

  /** A database file that has never been saved to, however far it was migrated. */
  predicate NeverSaved(db: Db) {
    || db == NEW_FILE
    || db == Db([], Some(None), None)
    || db == Db([1], Some(None), None)
    || db == Db([1, 2], Some(None), Some(NO_ROWS))
    || db == Db([1, 2, 3], Some(None), Some(NO_ROWS))
  }

  /** The file was written from a state with the property. */
  ghost predicate FileKeeps(file: File, P: App -> bool) {
    match file
    case SnapshotFile(s) => exists app :: P(app) && s == SnapshotOf(app)
    case DatabaseFile(db) => NeverSaved(db) || exists app :: P(app) && Keeps(db, app)
  }

  /** The application has the property, and so had every state in the files. */
  ghost predicate WorldKeeps(w: World, P: App -> bool) {
    P(w.app) && forall path :: path in w.files ==> FileKeeps(w.files[path], P)
  }

  /** A property of coherent states that a reload cannot break. */
  ghost predicate Reloadable(P: App -> bool, h: Hasher) {
    && (forall app :: P(app) ==> Coherent(app, h))
    && forall app, app' :: P(app) && ReloadOf(app, app') && Coherent(app', h) ==> P(app')
  }

  lemma ReloadKeepsCoherent(app: App, h: Hasher, app': App)
    requires Coherent(app, h) && ReloadOf(app, app')
    ensures Coherent(app', h)
  {
    ReloadKeepsSound(app.ledger, app'.ledger);
  }

  lemma SnapshotLoads(h: Hasher, P: App -> bool, s: AppSnapshot)
    requires Reloadable(P, h) && FileKeeps(SnapshotFile(s), P) && FromSnapshot(h, s).Ok?
    ensures P(FromSnapshot(h, s).value)
  {
    var app :| P(app) && s == SnapshotOf(app);
    CoherentIsSaveable(app, h);
    SnapshotRoundTrip(h, app);
    ReloadKeepsCoherent(app, h, FromSnapshot(h, s).value);
  }

  lemma NeverSavedMigrates(db: Db, h: Hasher, c: Stamps)
    requires NeverSaved(db)
    ensures NeverSaved(Migrated(db, h, c).0)
    ensures Migrated(db, h, c).1.None? ==> Current(Migrated(db, h, c).0)
  {
    HighestOfFirst();
    if db == NEW_FILE {
      NewFileMigrates(h, c);
    } else if db == Db([1], Some(None), None) {
      EmptyMigrates(h, c);
    } else if db == Db([1, 2], Some(None), Some(NO_ROWS)) {
      MigratedFromTwo(db, h, c);
      LastStamp(Some(None), NO_ROWS, c.three);
    }
  }

  lemma NeverSavedFails(db: Db, h: Hasher, c: Stamps)
    requires NeverSaved(db)
    ensures LoadedFrom(db, h, c).0 == Migrated(db, h, c).0 && LoadedFrom(db, h, c).1.Err?
  {
    NeverSavedMigrates(db, h, c);
    assert !HasRows(NO_ROWS);
  }

  lemma KeptIsCurrent(db: Db, P: App -> bool, h: Hasher, c: Stamps)
    requires FileKeeps(DatabaseFile(db), P)
    ensures FileKeeps(DatabaseFile(Migrated(db, h, c).0), P)
    ensures Migrated(db, h, c).1.None? ==> Current(Migrated(db, h, c).0)
  {
    if NeverSaved(db) {
      NeverSavedMigrates(db, h, c);
    } else {
      CurrentStays(db, h, c);
    }
  }

  lemma SaveKeeps(h: Hasher, P: App -> bool, app: App, db: Db, c: Stamps, now: u64)
    requires P(app) && FileKeeps(DatabaseFile(db), P)
    ensures FileKeeps(DatabaseFile(Saved(db, h, app, c, now).0), P)
  {
    KeptIsCurrent(db, P, h, c);
    if Migrated(db, h, c).1.None? {
      SaveExact(db, h, app, c, now);
    }
  }

  lemma LoadKeeps(h: Hasher, P: App -> bool, db: Db, c: Stamps)
    requires Reloadable(P, h) && FileKeeps(DatabaseFile(db), P)
    ensures FileKeeps(DatabaseFile(LoadedFrom(db, h, c).0), P)
    ensures LoadedFrom(db, h, c).1.Ok? ==> P(LoadedFrom(db, h, c).1.value)
  {
    if NeverSaved(db) {
      NeverSavedFails(db, h, c);
      NeverSavedMigrates(db, h, c);
    } else {
      var app :| P(app) && Keeps(db, app);
      CoherentIsSaveable(app, h);
      KeptLoads(db, h, app, c);
      CoherentIsSorted(app, h, LoadedFrom(db, h, c).1.value);
      ReloadKeepsCoherent(app, h, LoadedFrom(db, h, c).1.value);
    }
  }

  lemma NewFileKeeps(P: App -> bool, files: map<string, File>, path: string)
    requires forall p :: p in files ==> FileKeeps(files[p], P)
    ensures DatabaseAt(files, path).Some? ==> FileKeeps(DatabaseFile(DatabaseAt(files, path).value), P)
  {
  }

  /** Every file was written from a state with the property. */
  ghost predicate FilesKeep(files: map<string, File>, P: App -> bool) {
    forall path :: path in files ==> FileKeeps(files[path], P)
  }

  lemma SnapshotAppKeeps(w: World, h: Hasher, path: string, P: App -> bool)
    requires Reloadable(P, h) && WorldKeeps(w, P) && Valid(w.app.ledger)
    ensures P(SnapshotApp(w, h, path))
  {
    if path in w.files && w.files[path].SnapshotFile? {
      var s := w.files[path].snapshot;
      if FromSnapshot(h, s).Ok? {
        SnapshotLoads(h, P, s);
      }
    }
  }

  lemma DatabaseAppKeeps(w: World, h: Hasher, path: string, c: Stamps, P: App -> bool)
    requires Reloadable(P, h) && WorldKeeps(w, P) && Valid(w.app.ledger)
    ensures P(DatabaseApp(w, h, path, c))
  {
    NewFileKeeps(P, w.files, path);
    var db := DatabaseAt(w.files, path);
    if db.Some? {
      LoadKeeps(h, P, db.value, c);
    }
  }

  lemma LoadKeepsFiles(w: World, h: Hasher, path: string, c: Stamps, P: App -> bool)
    requires Reloadable(P, h) && WorldKeeps(w, P)
    ensures FilesKeep(FilesAfterLoad(w, h, path, c), P)
  {
    NewFileKeeps(P, w.files, path);
    var db := DatabaseAt(w.files, path);
    if db.Some? {
      LoadKeeps(h, P, db.value, c);
    }
  }

  lemma SaveKeepsFiles(w: World, h: Hasher, path: string, c: Stamps, now: u64, P: App -> bool)
    requires WorldKeeps(w, P)
    ensures FilesKeep(FilesAfterSave(w, h, path, c, now), P)
  {
    NewFileKeeps(P, w.files, path);
    var db := DatabaseAt(w.files, path);
    if db.Some? {
      SaveKeeps(h, P, w.app, db.value, c, now);
    }
  }

  lemma NextKeeps(w: World, h: Hasher, step: WorldStep, P: App -> bool)
    requires Reloadable(P, h) && WorldKeeps(w, P) && Valid(w.app.ledger)
    requires Edits(step) ==> P(Edited(w.app, h, step))
    ensures WorldKeeps(Next(w, h, step), P)
  {
    match step {
      case LoadSnapshot(path) => SnapshotAppKeeps(w, h, path, P);
      case SaveDatabase(path, stamps, now) => SaveKeepsFiles(w, h, path, stamps, now, P);
      case LoadDatabase(path, stamps) =>
        DatabaseAppKeeps(w, h, path, stamps, P);
        LoadKeepsFiles(w, h, path, stamps, P);
      case _ =>
    }
  }

  /** Each edit of the run keeps the property. */
  ghost predicate EditsKeep(w: World, h: Hasher, steps: seq<WorldStep>, P: App -> bool)
    requires Valid(w.app.ledger)
  {
    forall k :: 0 <= k < |steps| && Edits(steps[k]) && P(Run(w, h, steps[..k]).app) ==>
      P(Edited(Run(w, h, steps[..k]).app, h, steps[k]))
  }

  /** What the edits keep and a reload cannot break holds after every run, for the application and all files. */
  lemma {:induction false} RunsKeep(w: World, h: Hasher, steps: seq<WorldStep>, P: App -> bool)
    requires Reloadable(P, h) && WorldKeeps(w, P) && Valid(w.app.ledger) && EditsKeep(w, h, steps, P)
    ensures WorldKeeps(Run(w, h, steps), P)
  {
    if steps != [] {
      var init := steps[..|steps| - 1];
      assert forall k :: 0 <= k < |init| ==> init[..k] == steps[..k] && init[k] == steps[k];
      RunsKeep(w, h, init, P);
      NextKeeps(Run(w, h, init), h, steps[|steps| - 1], P);
    }
  }
}
