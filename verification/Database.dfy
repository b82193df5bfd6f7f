/** The database file: schema versions, the snapshot table, the normalized tables; migration, saving, loading. */
module Databases {
  import opened Wrappers
  import opened Numbers
  import opened Domain
  import opened Ledgers
  import opened LedgerRuns
  import opened Imports
  import opened Identity
  import opened Audit
  import opened Api
  import opened Storage
  import opened Sqlite
  import opened SqliteWriting
  import opened SqliteReading
  import ApiRuns

  const CURRENT_SCHEMA: int := 3

  /** A table that has not been created is None; the snapshot table holds at most one row. */
  datatype Db = Db(versions: seq<int>, snapshot: Option<Option<AppSnapshot>>, tables: Option<Tables>)

  const NEW_FILE := Db([], None, None)

  function Highest(versions: seq<int>): int {
    if versions == [] then 0
    else
      var rest := Highest(versions[..|versions| - 1]);
      if versions[|versions| - 1] > rest then versions[|versions| - 1] else rest
  }

  /** Record a schema version; the clock reading must fit its column. */
  function Stamp(db: Db, version: int, now: u64): Result<Db, StoreError> {
    var appliedAt :- ToI64("current_epoch_seconds", now);
    if version in db.versions then Err(ConstraintViolation) else Ok(db.(versions := db.versions + [version]))
  }

  /** The first migration is not a transaction: the table stays even when the stamp fails. */
  function MigrateToOne(db: Db, now: u64): (Db, Option<StoreError>) {
    if db.snapshot.Some? then (db, Some(TableExists))
    else
      var created := db.(snapshot := Some(None));
      match Stamp(created, 1, now)
      case Err(error) => (created, Some(error))
      case Ok(stamped) => (stamped, None)
  }

  function ReadSnapshot(db: Db, h: Hasher): Result<Option<App>, StoreError> {
    match db.snapshot
    case None => Err(NoSuchTable)
    case Some(None) => Ok(None)
    case Some(Some(s)) =>
      match FromSnapshot(h, s)
      case Err(error) => Err(Invalid(error))
      case Ok(app) => Ok(Some(app))
  }

  /** The second migration creates the normalized tables and fills them from the snapshot, all or nothing. */
  function MigrateToTwo(db: Db, h: Hasher, now: u64): (Db, Option<StoreError>) {
    match ReadSnapshot(db, h)
    case Err(error) => (db, Some(error))
    case Ok(state) =>
      if db.tables.Some? then (db, Some(TableExists))
      else
        match Stamp(db, 2, now)
        case Err(error) => (db, Some(error))
        case Ok(stamped) =>
          match (if state.Some? then WriteState(state.value) else Ok(NO_ROWS))
          case Err(error) => (db, Some(error))
          case Ok(rows) => (stamped.(tables := Some(rows)), None)
  }

  /** The third migration only adds indexes. */
  function MigrateToThree(db: Db, now: u64): (Db, Option<StoreError>) {
    if db.tables.None? then (db, Some(NoSuchTable))
    else
      match Stamp(db, 3, now)
      case Err(error) => (db, Some(error))
      case Ok(stamped) => (stamped, None)
  }

  /** The clock readings of the three migrations; each stamp reads the clock again. */
  datatype Stamps = Stamps(one: u64, two: u64, three: u64)

  predicate StampsFit(c: Stamps) {
    c.one <= I64_MAX && c.two <= I64_MAX && c.three <= I64_MAX
  }

  function Migrated(db: Db, h: Hasher, c: Stamps): (Db, Option<StoreError>) {
    var version := Highest(db.versions);
    if version > CURRENT_SCHEMA then (db, Some(UnsupportedSchemaVersion(version)))
    else
      var (db1, e1) := if version < 1 then MigrateToOne(db, c.one) else (db, None);
      if e1.Some? then (db1, e1) else
      var (db2, e2) := if version < 2 then MigrateToTwo(db1, h, c.two) else (db1, None);
      if e2.Some? then (db2, e2) else
      if version < 3 then MigrateToThree(db2, c.three) else (db2, None)
  }

  /** Rows and snapshot are replaced in one transaction. */
  function Replaced(current: Db, app: App, now: u64): (Db, Option<StoreError>) {
    if current.tables.None? || current.snapshot.None? then (current, Some(NoSuchTable))
    else
      match WriteState(app)
      case Err(failure) => (current, Some(failure))
      case Ok(rows) =>
        match ToI64("current_epoch_seconds", now)
        case Err(failure) => (current, Some(failure))
        case Ok(_) => (current.(tables := Some(rows), snapshot := Some(Some(SnapshotOf(app)))), None)
  }

  function Saved(db: Db, h: Hasher, app: App, c: Stamps, now: u64): (Db, Option<StoreError>) {
    var (current, error) := Migrated(db, h, c);
    if error.Some? then (current, error) else Replaced(current, app, now)
  }

  /** The normalized tables when they hold anything, else the snapshot. */
  function LoadedFrom(db: Db, h: Hasher, c: Stamps): (Db, Result<App, StoreError>) {
    var (current, error) := Migrated(db, h, c);
    if error.Some? then (current, Err(error.value))
    else if current.tables.None? then (current, Err(NoSuchTable))
    else
      match ReadState(h, current.tables.value)
      case Err(failure) => (current, Err(failure))
      case Ok(Some(app)) => (current, Ok(app))
      case Ok(None) =>
        match ReadSnapshot(current, h)
        case Err(failure) => (current, Err(failure))
        case Ok(None) => (current, Err(MissingState))
        case Ok(Some(app)) => (current, Ok(app))
  }

  // ---- Round trip -----------------------------------------------------------------------------

  /** A file on the current schema. */
  ghost predicate Current(db: Db) {
    Highest(db.versions) == CURRENT_SCHEMA && db.snapshot.Some? && db.tables.Some?
  }

  /** Migrating a file on the current schema changes nothing. */
  lemma CurrentStays(db: Db, h: Hasher, c: Stamps)
    requires Current(db)
    ensures Migrated(db, h, c) == (db, None)
  {
  }

  /** How a state's records are listed when it is written. */
  lemma RecordsListed(app: App, h: Hasher)
    requires Saveable(app, h)
    ensures EnumeratesCustomers(Values(app.identities.customers), app.identities.customers)
    ensures EnumeratesUsers(Values(app.identities.users), app.identities.users)
    ensures Enumerates(Values(app.ledger.accounts), app.ledger.accounts)
    ensures InIdOrder(Values(app.identities.customers), Values(app.identities.users), Values(app.ledger.accounts))
  {
    CustomersListed(app.identities.customers);
    UsersListed(app.identities.users);
    AccountsListed(app.ledger.accounts);
    ListedOrder(app.identities.customers, app.identities.users, app.ledger.accounts);
  }

  lemma ListedOrder(customers: map<CustomerId, CustomerRecord>, users: map<UserId, User>,
                    accounts: map<AccountId, Account>)
    requires forall id :: id in customers ==> customers[id].id == id
    requires forall id :: id in users ==> users[id].id == id
    requires forall id :: id in accounts ==> accounts[id].id == id
    ensures InIdOrder(Values(customers), Values(users), Values(accounts))
  {
    var c := ValuesListed(customers);
    var u := ValuesListed(users);
    var a := ValuesListed(accounts);
    OrderOfLists(Values(customers), c, customers, Values(users), u, users, Values(accounts), a, accounts);
  }

  lemma OrderOfLists(cs: seq<CustomerRecord>, c: seq<u32>, customers: map<CustomerId, CustomerRecord>,
                     us: seq<User>, u: seq<u32>, users: map<UserId, User>,
                     accs: seq<Account>, a: seq<u32>, accounts: map<AccountId, Account>)
    requires ListsValues(cs, c, customers) && ListsValues(us, u, users) && ListsValues(accs, a, accounts)
    requires forall id :: id in customers ==> customers[id].id == id
    requires forall id :: id in users ==> users[id].id == id
    requires forall id :: id in accounts ==> accounts[id].id == id
    ensures InIdOrder(cs, us, accs)
  {
    assert forall i :: 0 <= i < |c| ==> cs[i].id == c[i];
    assert forall i :: 0 <= i < |u| ==> us[i].id == u[i];
    assert forall i :: 0 <= i < |a| ==> accs[i].id == a[i];
  }

  ghost predicate Blank(app: App) {
    app.identities.customers == map[] && app.identities.users == map[] && app.ledger.accounts == map[]
    && app.log.entries == []
  }

  lemma NoRowsMeansBlank(app: App, customers: seq<CustomerRecord>, users: seq<User>, accounts: seq<Account>)
    requires EnumeratesCustomers(customers, app.identities.customers) && EnumeratesUsers(users, app.identities.users)
    requires Enumerates(accounts, app.ledger.accounts)
    requires !HasRows(RowsOf(customers, users, accounts, app.log.entries))
    ensures Blank(app)
  {
    assert |AccountRows(accounts)| == 0 && |CustomerRows(customers)| == 0 && |UserRows(users)| == 0;
    assert |AuditRows(app.log.entries)| == 0;
    assert accounts == [] && customers == [] && users == [];
  }

  lemma BlankSorts(app: App, app': App)
    requires Blank(app) && ReloadOf(app, app')
    ensures SortedReload(app, app')
  {
    assert SortedMap(app.ledger.accounts) == map[];
    SortedEntriesStable(app.log.entries);
  }

  lemma SortsOf(app: App, h: Hasher)
    requires Saveable(app, h) && WriteState(app).Ok?
    ensures Fits(app) && Owned(app.ledger.accounts, app.identities.customers)
    ensures WriteState(app).value ==
            RowsOf(Values(app.identities.customers), Values(app.identities.users), Values(app.ledger.accounts),
                   app.log.entries)
  {
    RecordsListed(app, h);
    WriteExact(app, h, Values(app.identities.customers), Values(app.identities.users), Values(app.ledger.accounts));
  }

  lemma WriteStateExact(app: App, h: Hasher)
    requires Saveable(app, h)
    ensures WriteState(app).Ok? <==> Fits(app) && Owned(app.ledger.accounts, app.identities.customers)
  {
    RecordsListed(app, h);
    WriteExact(app, h, Values(app.identities.customers), Values(app.identities.users), Values(app.ledger.accounts));
  }

  lemma RowsReadBack(app: App, h: Hasher)
    requires Saveable(app, h) && WriteState(app).Ok?
    ensures var r := ReadState(h, WriteState(app).value);
            r.Ok? && (if r.value.Some? then SortedReload(app, r.value.value) else Blank(app))
  {
    RecordsListed(app, h);
    SortsOf(app, h);
    RecordsReadBack(app, h, Values(app.identities.customers), Values(app.identities.users),
                    Values(app.ledger.accounts));
  }

  lemma RecordsReadBack(app: App, h: Hasher, customers: seq<CustomerRecord>, users: seq<User>, accounts: seq<Account>)
    requires Saveable(app, h) && Owned(app.ledger.accounts, app.identities.customers)
    requires EnumeratesCustomers(customers, app.identities.customers) && EnumeratesUsers(users, app.identities.users)
    requires Enumerates(accounts, app.ledger.accounts) && InIdOrder(customers, users, accounts)
    ensures var r := ReadState(h, RowsOf(customers, users, accounts, app.log.entries));
            r.Ok? && (if r.value.Some? then SortedReload(app, r.value.value) else Blank(app))
  {
    if HasRows(RowsOf(customers, users, accounts, app.log.entries)) {
      ReadExact(app, h, customers, users, accounts);
    } else {
      NoRowsMeansBlank(app, customers, users, accounts);
    }
  }

  /** A file whose rows and snapshot were both taken from a state loads as that state, sorted. */
  lemma LoadBoth(db: Db, h: Hasher, app: App, s: AppSnapshot, c: Stamps)
    requires Saveable(app, h) && Current(db) && WriteState(app).Ok? && db.tables == Some(WriteState(app).value)
    requires db.snapshot == Some(Some(s)) && FromSnapshot(h, s).Ok? && ReloadOf(app, FromSnapshot(h, s).value)
    ensures var (db', r) := LoadedFrom(db, h, c);
            db' == db && r.Ok? && SortedReload(app, r.value)
  {
    CurrentStays(db, h, c);
    RowsReadBack(app, h);
    if Blank(app) {
      BlankSorts(app, FromSnapshot(h, s).value);
    }
  }

  /** A file whose rows and snapshot were last taken from this state. */
  ghost predicate Keeps(db: Db, app: App) {
    Current(db) && WriteState(app) == Ok(db.tables.value) && db.snapshot == Some(Some(SnapshotOf(app)))
  }

  lemma ReplacedExact(current: Db, app: App, now: u64)
    requires Current(current)
    ensures var (db', error) := Replaced(current, app, now);
            && (error.None? <==> WriteState(app).Ok? && now <= I64_MAX)
            && (if error.None? then Keeps(db', app) else db' == current)
  {
  }

  lemma SaveExact(db: Db, h: Hasher, app: App, c: Stamps, now: u64)
    requires Migrated(db, h, c).1.None? && Current(Migrated(db, h, c).0)
    ensures var (db', error) := Saved(db, h, app, c, now);
            && (error.None? <==> WriteState(app).Ok? && now <= I64_MAX)
            && (if error.None? then Keeps(db', app) else db' == Migrated(db, h, c).0)
  {
    ReplacedExact(Migrated(db, h, c).0, app, now);
  }

  lemma KeptLoads(db: Db, h: Hasher, app: App, c: Stamps)
    requires Saveable(app, h) && Keeps(db, app)
    ensures var (db', r) := LoadedFrom(db, h, c);
            db' == db && r.Ok? && SortedReload(app, r.value)
  {
    WriteStateExact(app, h);
    SnapshotRoundTrip(h, app);
    LoadBoth(db, h, app, SnapshotOf(app), c);
  }

  /**
   * Saving to a migratable file succeeds iff every id and timestamp, and the clock, fit 64 signed bits
   * and every account owner exists. A failed save leaves the migrated file alone; after a successful
   * one the file loads as the saved state in id order, and loading leaves the file alone.
   */
  lemma SaveThenLoad(db: Db, h: Hasher, app: App, c: Stamps, now: u64, later: Stamps)
    requires Saveable(app, h) && Migrated(db, h, c).1.None? && Current(Migrated(db, h, c).0)
    ensures var (db', error) := Saved(db, h, app, c, now);
            && (error.None? <==> Fits(app) && Owned(app.ledger.accounts, app.identities.customers) && now <= I64_MAX)
            && (error.Some? ==> db' == Migrated(db, h, c).0)
            && (error.None? ==> var (db'', r) := LoadedFrom(db', h, later);
                                db'' == db' && r.Ok? && SortedReload(app, r.value))
  {
    WriteStateExact(app, h);
    SaveExact(db, h, app, c, now);
    if Saved(db, h, app, c, now).1.None? {
      KeptLoads(Saved(db, h, app, c, now).0, h, app, later);
    }
  }

  /** What is left of a new file by a migration: each stamp that fits its column takes it one step further. */
  function NewFileAfter(c: Stamps): Db {
    if c.one > I64_MAX then Db([], Some(None), None)
    else if c.two > I64_MAX then Db([1], Some(None), None)
    else if c.three > I64_MAX then Db([1, 2], Some(None), Some(NO_ROWS))
    else Db([1, 2, 3], Some(None), Some(NO_ROWS))
  }

  lemma HighestOfFirst()
    ensures Highest([]) == 0 && Highest([1]) == 1 && Highest([1, 2]) == 2 && Highest([1, 2, 3]) == 3
  {
    assert [1][..0] == [] && [1, 2][..1] == [1] && [1, 2, 3][..2] == [1, 2];
    assert Highest([1]) == 1;
    assert Highest([1, 2]) == 2;
  }

  lemma MigratedFromOne(db: Db, h: Hasher, c: Stamps)
    requires Highest(db.versions) == 1
    ensures var (filled, error) := MigrateToTwo(db, h, c.two);
            Migrated(db, h, c) == if error.Some? then (filled, error) else MigrateToThree(filled, c.three)
  {
  }

  lemma MigratedFromTwo(db: Db, h: Hasher, c: Stamps)
    requires Highest(db.versions) == 2
    ensures Migrated(db, h, c) == MigrateToThree(db, c.three)
  {
  }

  /** The last stamp completes a file iff its reading fits. */
  lemma LastStamp(snapshot: Option<Option<AppSnapshot>>, rows: Tables, now: u64)
    ensures var (db, error) := MigrateToThree(Db([1, 2], snapshot, Some(rows)), now);
            && db == Db(if now <= I64_MAX then [1, 2, 3] else [1, 2], snapshot, Some(rows))
            && (error.None? <==> now <= I64_MAX)
  {
    assert [1, 2] + [3] == [1, 2, 3];
  }

  /** The second migration of a file without a snapshot. */
  lemma EmptyFilled(h: Hasher, now: u64)
    ensures var (db, error) := MigrateToTwo(Db([1], Some(None), None), h, now);
            && db == (if now <= I64_MAX then Db([1, 2], Some(None), Some(NO_ROWS)) else Db([1], Some(None), None))
            && (error.None? <==> now <= I64_MAX)
  {
    assert [1] + [2] == [1, 2];
  }

  lemma EmptyMigrates(h: Hasher, c: Stamps)
    ensures var (db, error) := Migrated(Db([1], Some(None), None), h, c);
            && db == NewFileAfter(c.(one := 0))
            && (error.None? <==> c.two <= I64_MAX && c.three <= I64_MAX)
  {
    HighestOfFirst();
    MigratedFromOne(Db([1], Some(None), None), h, c);
    EmptyFilled(h, c.two);
    LastStamp(Some(None), NO_ROWS, c.three);
  }

  lemma FirstStamp(h: Hasher, c: Stamps)
    ensures Migrated(NEW_FILE, h, c).1.None? ==> c.one <= I64_MAX
    ensures if c.one <= I64_MAX then Migrated(NEW_FILE, h, c) == Migrated(Db([1], Some(None), None), h, c)
            else Migrated(NEW_FILE, h, c).0 == NewFileAfter(c)
  {
    HighestOfFirst();
    assert [] + [1] == [1];
  }

  /** A new file can be migrated to the current schema iff all three clock readings fit their column. */
  lemma NewFileMigrates(h: Hasher, c: Stamps)
    ensures Migrated(NEW_FILE, h, c).0 == NewFileAfter(c)
    ensures Migrated(NEW_FILE, h, c).1.None? <==> StampsFit(c)
    ensures Migrated(NEW_FILE, h, c).1.None? ==> Current(Migrated(NEW_FILE, h, c).0)
  {
    FirstStamp(h, c);
    EmptyMigrates(h, c);
    HighestOfFirst();
  }

  /**
   * A file without any stamp is migrated iff it has no table either and the readings fit. With the
   * snapshot table but without its stamp, whatever left it so, it refuses every migration for good.
   */
  lemma UnstampedMigrates(db: Db, h: Hasher, c: Stamps)
    requires db.versions == []
    ensures Migrated(db, h, c).1.None? <==> db.snapshot.None? && db.tables.None? && StampsFit(c)
    ensures db.snapshot.Some? ==> Migrated(db, h, c) == (db, Some(TableExists))
  {
    HighestOfFirst();
    assert [] + [1] == [1];
    if db == NEW_FILE {
      NewFileMigrates(h, c);
    } else if db.snapshot.None? {
      UnstampedTables(db, h, c);
    }
  }

  /** Tables without a stamp are in the way of the second migration. */
  lemma UnstampedTables(db: Db, h: Hasher, c: Stamps)
    requires db.versions == [] && db.snapshot.None? && db.tables.Some?
    ensures Migrated(db, h, c).1.Some?
  {
    HighestOfFirst();
    if c.one <= I64_MAX {
      var created := Db([] + [1], Some(None), db.tables);
      assert MigrateToOne(db, c.one) == (created, None);
      assert MigrateToTwo(created, h, c.two) == (created, Some(TableExists));
    }
  }

  /**
   * A second attempt on a file that was new at the first completes it iff the first stamp of the first
   * attempt fitted, and each of the others fitted at one of the two.
   */
  lemma HalfCreatedIsStuck(h: Hasher, c: Stamps, later: Stamps)
    ensures var db := Migrated(NEW_FILE, h, c).0;
            && (Migrated(db, h, later).1.None? <==>
                  && c.one <= I64_MAX
                  && (c.two <= I64_MAX || later.two <= I64_MAX)
                  && ((c.two <= I64_MAX && c.three <= I64_MAX) || later.three <= I64_MAX))
            && (c.one > I64_MAX ==> Migrated(db, h, later) == (db, Some(TableExists)))
  {
    NewFileMigrates(h, c);
    HighestOfFirst();
    if c.one > I64_MAX {
      UnstampedMigrates(NewFileAfter(c), h, later);
    } else if c.two > I64_MAX {
      EmptyMigrates(h, later);
    } else if c.three > I64_MAX {
      MigratedFromTwo(NewFileAfter(c), h, later);
      LastStamp(Some(None), NO_ROWS, later.three);
    } else {
      CurrentStays(NewFileAfter(c), h, later);
    }
  }

  // ---- States of the running server -----------------------------------------------------------

  lemma CoherentIsSaveable(app: App, h: Hasher)
    requires Coherent(app, h)
    ensures Saveable(app, h)
  {
    SoundIsLoadable(app.ledger);
    NumberedReloads(app.log);
  }

  lemma SoundAccountSorted(a: Account, next: u64)
    requires AccountSound(a, next)
    ensures SortedAccount(a) == a
  {
    SortedTransactionsStable(a.transactions);
  }

  lemma SoundLedgerSorted(l: Ledger)
    requires Sound(l)
    ensures SortedMap(l.accounts) == l.accounts
  {
    forall id | id in l.accounts
      ensures SortedMap(l.accounts)[id] == l.accounts[id]
    {
      SoundAccountSorted(l.accounts[id], l.next);
    }
  }

  lemma CoherentIsSorted(app: App, h: Hasher, app': App)
    requires Coherent(app, h) && SortedReload(app, app')
    ensures ReloadOf(app, app') && app'.ledger.next <= app.ledger.next
  {
    SoundLedgerSorted(app.ledger);
    SortedEntriesStable(app.log.entries);
    CounterNotHigher(app.ledger, app'.ledger);
  }

  /**
   * A coherent state can be saved to a new file iff its ids, its timestamps and the clock fit 64 signed
   * bits and its account owners exist, and then loads as it was: the same accounts with their
   * transactions in the same order, customers, users, index, entries and audit counter, and a
   * transaction counter that is no higher and just past the highest id in use.
   */
  lemma CoherentRoundTrip(h: Hasher, app: App, c: Stamps, now: u64, later: Stamps)
    requires Coherent(app, h)
    ensures var (db, error) := Saved(NEW_FILE, h, app, c, now);
            && (error.None? <==>
                  Fits(app) && Owned(app.ledger.accounts, app.identities.customers) && StampsFit(c) && now <= I64_MAX)
            && (error.None? ==> var r := LoadedFrom(db, h, later).1;
                                r.Ok? && ReloadOf(app, r.value) && r.value.ledger.next <= app.ledger.next)
  {
    NewFileMigrates(h, c);
    if StampsFit(c) {
      CoherentIsSaveable(app, h);
      SaveThenLoad(NEW_FILE, h, app, c, now, later);
      var (db, error) := Saved(NEW_FILE, h, app, c, now);
      if error.None? {
        CoherentIsSorted(app, h, LoadedFrom(db, h, later).1.value);
      }
    }
  }

  /** In particular every state a running server can reach, the empty one included. */
  lemma ServerStateRoundTrip(h: Hasher, steps: seq<ApiRuns.ApiStep>, c: Stamps, now: u64, later: Stamps)
    requires SoundHasher(h)
    ensures var app := ApiRuns.Run(h, steps).app;
            var (db, error) := Saved(NEW_FILE, h, app, c, now);
            && (error.None? <==> Fits(app) && StampsFit(c) && now <= I64_MAX)
            && (error.None? ==> var r := LoadedFrom(db, h, later).1;
                                r.Ok? && ReloadOf(app, r.value) && r.value.ledger.next <= app.ledger.next)
  {
    ApiRuns.RunsSound(h, steps);
    assert ApiRuns.AppSound(ApiRuns.Run(h, steps).app, h);
    CoherentRoundTrip(h, ApiRuns.Run(h, steps).app, c, now, later);
  }

  // ---- Migration of an old file ---------------------------------------------------------------

  /** A file of the first schema with a snapshot. */
  function OldFile(s: AppSnapshot): Db {
    Db([1], Some(Some(s)), None)
  }

  /** The same file after the second migration, and after the third. */
  function FilledFile(s: AppSnapshot, rows: Tables, versions: seq<int>): Db {
    Db(versions, Some(Some(s)), Some(rows))
  }

  lemma SnapshotFilled(s: AppSnapshot, h: Hasher, app: App, now: u64)
    requires FromSnapshot(h, s) == Ok(app)
    ensures var (db, error) := MigrateToTwo(OldFile(s), h, now);
            if WriteState(app).Err? || now > I64_MAX then db == OldFile(s) && error.Some?
            else db == FilledFile(s, WriteState(app).value, [1, 2]) && error.None?
  {
    assert [1] + [2] == [1, 2];
  }

  lemma MigrationSteps(s: AppSnapshot, h: Hasher, app: App, c: Stamps)
    requires FromSnapshot(h, s) == Ok(app)
    ensures var (db, error) := Migrated(OldFile(s), h, c);
            if WriteState(app).Err? || c.two > I64_MAX then db == OldFile(s) && error.Some?
            else if c.three > I64_MAX then db == FilledFile(s, WriteState(app).value, [1, 2]) && error.Some?
            else db == FilledFile(s, WriteState(app).value, [1, 2, 3]) && error.None?
  {
    HighestOfFirst();
    MigratedFromOne(OldFile(s), h, c);
    SnapshotFilled(s, h, app, c.two);
    if WriteState(app).Ok? {
      LastStamp(Some(Some(s)), WriteState(app).value, c.three);
    }
  }

  lemma MigrationResumes(s: AppSnapshot, h: Hasher, rows: Tables, c: Stamps)
    ensures var (db, error) := Migrated(FilledFile(s, rows, [1, 2]), h, c);
            if c.three > I64_MAX then db == FilledFile(s, rows, [1, 2]) && error.Some?
            else db == FilledFile(s, rows, [1, 2, 3]) && error.None?
  {
    HighestOfFirst();
    MigratedFromTwo(FilledFile(s, rows, [1, 2]), h, c);
    LastStamp(Some(Some(s)), rows, c.three);
  }

  /** A fully migrated file: it loads as the state in id order, and migrating it again changes nothing. */
  ghost predicate MigratedAs(db: Db, h: Hasher, app: App, later: Stamps) {
    && Current(db)
    && Migrated(db, h, later) == (db, None)
    && LoadedFrom(db, h, later).1.Ok? && SortedReload(app, LoadedFrom(db, h, later).1.value)
  }

  lemma FilledLoads(s: AppSnapshot, h: Hasher, app: App, later: Stamps)
    requires FromSnapshot(h, s) == Ok(app) && WriteState(app).Ok?
    ensures MigratedAs(FilledFile(s, WriteState(app).value, [1, 2, 3]), h, app, later)
  {
    HighestOfFirst();
    AssembledIsLoaded(h, s.customers, s.users, s.accounts, s.auditEntries);
    var db := FilledFile(s, WriteState(app).value, [1, 2, 3]);
    CurrentStays(db, h, later);
    LoadBoth(db, h, app, s, later);
  }

  /**
   * A file of the first schema whose snapshot loads as a state is migrated iff that state and both clock
   * readings fit; it then loads as that state in id order, and migrating it again changes nothing. If
   * the state or the first reading does not fit, the file is left as it was; if only the second reading
   * does not, the tables are filled and the next migration completes it iff its own reading fits.
   */
  lemma MigrationPreservesMeaning(s: AppSnapshot, h: Hasher, app: App, c: Stamps, again: Stamps, later: Stamps)
    requires FromSnapshot(h, s) == Ok(app)
    ensures var (db, error) := Migrated(OldFile(s), h, c);
            && (error.None? <==> Fits(app) && c.two <= I64_MAX && c.three <= I64_MAX)
            && (error.None? ==> MigratedAs(db, h, app, later))
            && (error.Some? ==> (db == OldFile(s) <==> !(Fits(app) && c.two <= I64_MAX)))
            && (error.Some? && db != OldFile(s) ==>
                  var (db', error') := Migrated(db, h, again);
                  && (error'.None? <==> again.three <= I64_MAX)
                  && (error'.None? ==> MigratedAs(db', h, app, later))
                  && (error'.Some? ==> db' == db))
  {
    AssembledIsLoaded(h, s.customers, s.users, s.accounts, s.auditEntries);
    WriteStateExact(app, h);
    MigrationSteps(s, h, app, c);
    if WriteState(app).Ok? {
      FilledLoads(s, h, app, later);
      MigrationResumes(s, h, WriteState(app).value, again);
    }
  }

  /** A loaded state whose transactions and entries are already in id order. */
  ghost predicate InOrder(app: App) {
    && (forall id :: id in app.ledger.accounts ==> AscendingIds(app.ledger.accounts[id].transactions))
    && forall i, j :: 0 <= i < j < |app.log.entries| ==> app.log.entries[i].id < app.log.entries[j].id
  }

  /** Migration and a load give back exactly the snapshot's state iff that state was in id order. */
  lemma MigrationExactIff(s: AppSnapshot, h: Hasher, app: App, c: Stamps, later: Stamps)
    requires FromSnapshot(h, s) == Ok(app) && Migrated(OldFile(s), h, c).1.None?
    ensures LoadedFrom(Migrated(OldFile(s), h, c).0, h, later).1 == Ok(app) <==> InOrder(app)
  {
    MigrationPreservesMeaning(s, h, app, c, later, later);
    AssembledIsLoaded(h, s.customers, s.users, s.accounts, s.auditEntries);
    SortedIffInOrder(app, h, LoadedFrom(Migrated(OldFile(s), h, c).0, h, later).1.value);
  }

  /** A snapshot whose two audit entries are listed by descending id. */
  function DescendingSnapshot(): AppSnapshot {
    AppSnapshot(CURRENT_VERSION, [], [], [],
                [AuditEntry(2, 0, System, Login, Failure, None, ""),
                 AuditEntry(1, 0, System, Login, Failure, None, "")])
  }

  lemma DescendingLoads(h: Hasher)
    ensures FromSnapshot(h, DescendingSnapshot()) == Ok(App(EMPTY, NOBODY, Log(DescendingSnapshot().auditEntries, 3)))
  {
    var entries := DescendingSnapshot().auditEntries;
    assert entries[1..] == [entries[1]] && entries[1..][1..] == [];
    assert CheckIds(entries, {}, 0) == CheckIds([entries[1]], {2}, 2) == CheckIds([], {2, 1}, 2) == Ok(2);
    OwnersChecked(map[], map[]);
  }

  /** A real case: this snapshot loads, fits and migrates, and the migrated file loads as another state. */
  lemma MigrationReorders(h: Hasher, c: Stamps, later: Stamps)
    requires StampsFit(c)
    ensures var (before, after) := (FromSnapshot(h, DescendingSnapshot()),
                                    Migrated(OldFile(DescendingSnapshot()), h, c));
            && before.Ok? && after.1.None?
            && LoadedFrom(after.0, h, later).1.Ok? && LoadedFrom(after.0, h, later).1.value != before.value
  {
    DescendingLoads(h);
    var app := FromSnapshot(h, DescendingSnapshot()).value;
    assert Fits(app);
    MigrationPreservesMeaning(DescendingSnapshot(), h, app, c, later, later);
    MigrationExactIff(DescendingSnapshot(), h, app, c, later);
  }

  lemma SortedAccountIff(a: Account)
    requires LoadableAccount(a)
    ensures SortedAccount(a) == a <==> AscendingIds(a.transactions)
  {
    SortedTransactionsKeep(a.transactions);
    if AscendingIds(a.transactions) {
      SortedTransactionsStable(a.transactions);
    }
  }

  lemma SortedLedgerIff(l: Ledger)
    requires Loadable(l)
    ensures SortedMap(l.accounts) == l.accounts <==>
            forall id :: id in l.accounts ==> AscendingIds(l.accounts[id].transactions)
  {
    forall id | id in l.accounts
      ensures SortedMap(l.accounts)[id] == l.accounts[id] <==> AscendingIds(l.accounts[id].transactions)
    {
      SortedAccountIff(l.accounts[id]);
    }
  }

  lemma SortedIffInOrder(app: App, h: Hasher, app': App)
    requires Loaded(app, h) && SortedReload(app, app')
    ensures app' == app <==> InOrder(app)
  {
    SortedLedgerIff(app.ledger);
    SortedEntriesKeep(app.log.entries);
    if InOrder(app) {
      SortedEntriesStable(app.log.entries);
      TightCounterUnique(app.ledger, app'.ledger);
    }
  }
}
