/** Which database files can be migrated and loaded, whatever wrote them. */
module MigrationLaws {
  import opened Wrappers
  import opened Numbers
  import opened Identity
  import opened Api
  import opened Storage
  import opened Sqlite
  import opened SqliteWriting
  import opened Databases
  import opened SqliteDecoding

  // ---- Stamps ---------------------------------------------------------------------------------

  /** The highest version is the greatest of the stamps, and at least zero. */
  lemma {:induction false} HighestExact(versions: seq<int>)
    ensures Highest(versions) >= 0 && (Highest(versions) > 0 ==> Highest(versions) in versions)
    ensures forall v :: v in versions ==> v <= Highest(versions)
  {
    if versions != [] {
      var n := |versions| - 1;
      HighestExact(versions[..n]);
      assert versions == versions[..n] + [versions[n]];
    }
  }

  ghost predicate DistinctVersions(versions: seq<int>) {
    forall i, j :: 0 <= i < j < |versions| ==> versions[i] != versions[j]
  }

  lemma StampKeepsDistinct(db: Db, version: int, now: u64)
    requires DistinctVersions(db.versions) && Stamp(db, version, now).Ok?
    ensures DistinctVersions(Stamp(db, version, now).value.versions)
  {
  }

  /** No migration stamps a version twice. */
  lemma StampsStayDistinct(db: Db, h: Hasher, now: u64)
    requires DistinctVersions(db.versions)
    ensures DistinctVersions(MigrateToOne(db, now).0.versions)
    ensures DistinctVersions(MigrateToTwo(db, h, now).0.versions)
    ensures DistinctVersions(MigrateToThree(db, now).0.versions)
  {
    if Stamp(db, 1, now).Ok? {
      StampKeepsDistinct(db, 1, now);
    }
    if Stamp(db, 2, now).Ok? {
      StampKeepsDistinct(db, 2, now);
    }
    if Stamp(db, 3, now).Ok? {
      StampKeepsDistinct(db, 3, now);
    }
  }

  // ---- Migration ------------------------------------------------------------------------------

  /** The snapshot table exists, and what it holds is valid and fits the columns of the tables. */
  ghost predicate Transferable(db: Db, h: Hasher) {
    && db.snapshot.Some?
    && (db.snapshot.value.Some? ==>
          && FromSnapshot(h, db.snapshot.value.value).Ok?
          && Fits(FromSnapshot(h, db.snapshot.value.value).value))
  }

  /** The rows that a migration makes of the snapshot. */
  ghost function Transferred(db: Db, h: Hasher): Tables
    requires Transferable(db, h)
  {
    if db.snapshot.value.None? then NO_ROWS
    else
      var app := FromSnapshot(h, db.snapshot.value.value).value;
      RowsOf(Values(app.identities.customers), Values(app.identities.users), Values(app.ledger.accounts),
             app.log.entries)
  }

  lemma SnapshotTransfers(db: Db, h: Hasher, s: AppSnapshot)
    requires db.snapshot == Some(Some(s)) && FromSnapshot(h, s).Ok?
    ensures var written := WriteState(FromSnapshot(h, s).value);
            && (written.Ok? <==> Transferable(db, h))
            && (written.Ok? ==> written.value == Transferred(db, h))
  {
    var app := FromSnapshot(h, s).value;
    AssembledIsLoaded(h, s.customers, s.users, s.accounts, s.auditEntries);
    WriteStateExact(app, h);
    if WriteState(app).Ok? {
      SortsOf(app, h);
    }
  }

  lemma TransferExact(db: Db, h: Hasher)
    ensures var r := ReadSnapshot(db, h);
            && (Transferable(db, h) <==> r.Ok? && (r.value.Some? ==> WriteState(r.value.value).Ok?))
            && (Transferable(db, h) ==>
                  Transferred(db, h) == if r.value.Some? then WriteState(r.value.value).value else NO_ROWS)
  {
    if db.snapshot.Some? && db.snapshot.value.Some? && FromSnapshot(h, db.snapshot.value.value).Ok? {
      SnapshotTransfers(db, h, db.snapshot.value.value);
    }
  }

  lemma StampExact(db: Db, version: int, now: u64)
    requires Highest(db.versions) < version
    ensures Stamp(db, version, now) ==
            if now <= I64_MAX then Ok(db.(versions := db.versions + [version]))
            else Err(IntegerOverflow("current_epoch_seconds", now))
  {
    HighestExact(db.versions);
  }

  lemma SecondMigration(db: Db, h: Hasher, now: u64)
    requires Highest(db.versions) < 2
    ensures var (filled, error) := MigrateToTwo(db, h, now);
            && (error.None? <==> Transferable(db, h) && db.tables.None? && now <= I64_MAX)
            && filled == if error.None? then Db(db.versions + [2], db.snapshot, Some(Transferred(db, h))) else db
  {
    TransferExact(db, h);
    StampExact(db, 2, now);
  }

  lemma ThirdMigration(db: Db, now: u64)
    requires 3 !in db.versions
    ensures var (done, error) := MigrateToThree(db, now);
            && (error.None? <==> db.tables.Some? && now <= I64_MAX)
            && done == if error.None? then db.(versions := db.versions + [3]) else db
  {
  }

  lemma HighestAfter(versions: seq<int>, version: int)
    ensures Highest(versions + [version]) == if version > Highest(versions) then version else Highest(versions)
  {
    assert (versions + [version])[..|versions|] == versions;
  }

  lemma FromVersionTwo(db: Db, h: Hasher, c: Stamps)
    requires Highest(db.versions) == 2
    ensures var (done, error) := Migrated(db, h, c);
            && (error.None? <==> db.tables.Some? && c.three <= I64_MAX)
            && done == if error.None? then db.(versions := db.versions + [3]) else db
  {
    MigratedFromTwo(db, h, c);
    HighestExact(db.versions);
    ThirdMigration(db, c.three);
  }

  lemma FromVersionOne(db: Db, h: Hasher, c: Stamps)
    requires Highest(db.versions) == 1
    ensures var (done, error) := Migrated(db, h, c);
            && (error.None? <==>
                  Transferable(db, h) && db.tables.None? && c.two <= I64_MAX && c.three <= I64_MAX)
            && (error.None? ==> done == Db(db.versions + [2] + [3], db.snapshot, Some(Transferred(db, h))))
  {
    MigratedFromOne(db, h, c);
    SecondMigration(db, h, c.two);
    HighestExact(db.versions);
    ThirdMigration(MigrateToTwo(db, h, c.two).0, c.three);
  }

  lemma FirstMigration(db: Db, h: Hasher, c: Stamps)
    requires Highest(db.versions) < 1 && db.snapshot.None? && c.one <= I64_MAX
    ensures var created := Db(db.versions + [1], Some(None), db.tables);
            Highest(created.versions) == 1 && Migrated(db, h, c) == Migrated(created, h, c)
  {
    HighestExact(db.versions);
    HighestAfter(db.versions, 1);
    MigratedFromOne(Db(db.versions + [1], Some(None), db.tables), h, c);
  }

  lemma FromUnstamped(db: Db, h: Hasher, c: Stamps)
    requires Highest(db.versions) < 1
    ensures var (done, error) := Migrated(db, h, c);
            && (error.None? <==> db.snapshot.None? && db.tables.None? && StampsFit(c))
            && (error.None? ==> done == Db(db.versions + [1] + [2] + [3], Some(None), Some(NO_ROWS)))
  {
    if db.snapshot.None? && c.one <= I64_MAX {
      FirstMigration(db, h, c);
      FromVersionOne(Db(db.versions + [1], Some(None), db.tables), h, c);
    }
  }

  /**
   * Any file, whatever its stamps: it is migrated iff its schema is not newer than the current one and it has what
   * the remaining migrations need. They fill the tables from the snapshot, which stays.
   */
  lemma MigratesIff(db: Db, h: Hasher, c: Stamps)
    ensures var (done, error) := Migrated(db, h, c);
            var version := Highest(db.versions);
            && (error.None? <==>
                  && version <= CURRENT_SCHEMA
                  && (version < 1 ==> db.snapshot.None? && c.one <= I64_MAX)
                  && (version == 1 ==> Transferable(db, h))
                  && (version < 2 ==> db.tables.None? && c.two <= I64_MAX)
                  && (version == 2 ==> db.tables.Some?)
                  && (version < 3 ==> c.three <= I64_MAX))
            && (error.None? && version < 1 ==> done.snapshot == Some(None) && done.tables == Some(NO_ROWS))
            && (error.None? && version == 1 ==>
                  done.snapshot == db.snapshot && done.tables == Some(Transferred(db, h)))
            && (error.None? && version >= 2 ==> done.snapshot == db.snapshot && done.tables == db.tables)
            && (error.None? ==> Highest(done.versions) == CURRENT_SCHEMA)
            && (version > CURRENT_SCHEMA ==> (done, error) == (db, Some(UnsupportedSchemaVersion(version))))
  {
    var versions := db.versions;
    HighestExact(versions);
    HighestAfter(versions, 3);
    if Highest(versions) == 2 {
      FromVersionTwo(db, h, c);
    } else if Highest(versions) == 1 {
      FromVersionOne(db, h, c);
      HighestAfter(versions + [2], 3);
      HighestAfter(versions, 2);
    } else if Highest(versions) < 1 {
      FromUnstamped(db, h, c);
      HighestAfter(versions, 1);
      HighestAfter(versions + [1], 2);
      HighestAfter(versions + [1] + [2], 3);
    }
  }

  // ---- Loading --------------------------------------------------------------------------------

  /** A file holds a state in its tables or, if these are empty, in its snapshot. */
  ghost predicate Holds(db: Db, h: Hasher, app: App) {
    && Loaded(app, h)
    && db.tables.Some?
    && if db.tables.value != NO_ROWS then StoresState(db.tables.value, app)
       else
         && db.snapshot.Some? && db.snapshot.value.Some?
         && FromSnapshot(h, db.snapshot.value.value) == Ok(app)
  }

  /** The state in the tables, or if these are empty in the snapshot. */
  ghost function Chosen(rows: Result<Option<App>, StoreError>,
                        snapshot: Result<Option<App>, StoreError>): Result<App, StoreError>
  {
    match rows
    case Err(error) => Err(error)
    case Ok(Some(app)) => Ok(app)
    case Ok(None) =>
      match snapshot
      case Err(error) => Err(error)
      case Ok(None) => Err(MissingState)
      case Ok(Some(app)) => Ok(app)
  }

  lemma ChosenExact(rows: Result<Option<App>, StoreError>, snapshot: Result<Option<App>, StoreError>, app: App)
    ensures Chosen(rows, snapshot) == Ok(app) <==>
            rows == Ok(Some(app)) || (rows == Ok(None) && snapshot == Ok(Some(app)))
  {
  }

  lemma TablesDecide(db: Db, h: Hasher, c: Stamps)
    requires Migrated(db, h, c).1.None? && Migrated(db, h, c).0.tables.Some?
    ensures var current := Migrated(db, h, c).0;
            LoadedFrom(db, h, c).1 == Chosen(ReadState(h, current.tables.value), ReadSnapshot(current, h))
  {
  }

  lemma SnapshotHolds(db: Db, h: Hasher, app: App)
    ensures ReadSnapshot(db, h) == Ok(Some(app)) <==>
            && db.snapshot.Some? && db.snapshot.value.Some?
            && FromSnapshot(h, db.snapshot.value.value) == Ok(app)
    ensures ReadSnapshot(db, h) == Ok(Some(app)) ==> Loaded(app, h)
  {
    if ReadSnapshot(db, h) == Ok(Some(app)) {
      var s := db.snapshot.value.value;
      AssembledIsLoaded(h, s.customers, s.users, s.accounts, s.auditEntries);
    }
  }

  lemma HoldsExact(db: Db, h: Hasher, app: App)
    requires db.tables.Some?
    ensures Holds(db, h, app) <==>
            || ReadState(h, db.tables.value) == Ok(Some(app))
            || (ReadState(h, db.tables.value) == Ok(None) && ReadSnapshot(db, h) == Ok(Some(app)))
  {
    ReadStateIff(h, db.tables.value, app);
    SnapshotHolds(db, h, app);
  }

  lemma CurrentLoads(db: Db, h: Hasher, c: Stamps, app: App)
    requires Migrated(db, h, c).1.None? && Migrated(db, h, c).0.tables.Some?
    ensures LoadedFrom(db, h, c).1 == Ok(app) <==> Holds(Migrated(db, h, c).0, h, app)
  {
    TablesDecide(db, h, c);
    var current := Migrated(db, h, c).0;
    ChosenExact(ReadState(h, current.tables.value), ReadSnapshot(current, h), app);
    HoldsExact(current, h, app);
  }

  /** Any file loads as a state iff it can be migrated and then holds that state; the load leaves it migrated. */
  lemma LoadIff(db: Db, h: Hasher, c: Stamps, app: App)
    ensures LoadedFrom(db, h, c).0 == Migrated(db, h, c).0
    ensures LoadedFrom(db, h, c).1 == Ok(app) <==>
            Migrated(db, h, c).1.None? && Holds(Migrated(db, h, c).0, h, app)
  {
    if Migrated(db, h, c).1.None? && Migrated(db, h, c).0.tables.Some? {
      CurrentLoads(db, h, c, app);
    }
  }
}
