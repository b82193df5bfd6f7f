/**
 * The SQLite store as it runs: rows deleted and inserted in loops, rows pushed into lists, a file that is migrated in
 * place.
 */
module SqliteStores {
  import opened Wrappers
  import opened Numbers
  import opened Rows
  import opened Domain
  import opened Ledgers
  import opened Identity
  import opened Audit
  import opened Api
  import opened Storage
  import opened Sqlite
  import opened Databases
  import Imports

  method WriteCustomers(start: Tables, list: seq<CustomerRecord>) returns (r: Result<Tables, StoreError>)
    ensures r == InsertCustomers(start, list)
  {
    var t := start;
    for i := 0 to |list|
      invariant InsertCustomers(t, list[i..]) == InsertCustomers(start, list)
    {
      assert list[i..][0] == list[i] && list[i..][1..] == list[i + 1..];
      t :- InsertCustomer(t, list[i]);
    }
    return Ok(t);
  }

  method WriteUsers(start: Tables, list: seq<User>) returns (r: Result<Tables, StoreError>)
    ensures r == InsertUsers(start, list)
  {
    var t := start;
    for i := 0 to |list|
      invariant InsertUsers(t, list[i..]) == InsertUsers(start, list)
    {
      assert list[i..][0] == list[i] && list[i..][1..] == list[i + 1..];
      t :- InsertUser(t, list[i]);
    }
    return Ok(t);
  }

  method InsertAccountWithTransactions(start: Tables, a: Account) returns (r: Result<Tables, StoreError>)
    ensures r == match InsertAccountRow(start, a)
                 case Err(error) => Err(error)
                 case Ok(t) => InsertTransactions(t, a.id, a.transactions)
  {
    var t :- InsertAccountRow(start, a);
    ghost var t1 := t;
    for i := 0 to |a.transactions|
      invariant InsertTransactions(t, a.id, a.transactions[i..]) == InsertTransactions(t1, a.id, a.transactions)
    {
      assert a.transactions[i..][0] == a.transactions[i] && a.transactions[i..][1..] == a.transactions[i + 1..];
      t :- InsertTransaction(t, a.id, a.transactions[i]);
    }
    return Ok(t);
  }

  method WriteAccounts(start: Tables, list: seq<Account>) returns (r: Result<Tables, StoreError>)
    ensures r == InsertAccounts(start, list)
  {
    var t := start;
    for i := 0 to |list|
      invariant InsertAccounts(t, list[i..]) == InsertAccounts(start, list)
    {
      assert list[i..][0] == list[i] && list[i..][1..] == list[i + 1..];
      t :- InsertAccountWithTransactions(t, list[i]);
    }
    return Ok(t);
  }

  method WriteEntries(start: Tables, list: seq<AuditEntry>) returns (r: Result<Tables, StoreError>)
    ensures r == InsertEntries(start, list)
  {
    var t := start;
    for i := 0 to |list|
      invariant InsertEntries(t, list[i..]) == InsertEntries(start, list)
    {
      assert list[i..][0] == list[i] && list[i..][1..] == list[i + 1..];
      t :- InsertEntry(t, list[i]);
    }
    return Ok(t);
  }

  /** The transaction in which a state is written; dropping it without a commit leaves the file as it was. */
  method WriteNormalizedState(app: App) returns (r: Result<Tables, StoreError>)
    ensures r == WriteState(app)
  {
    var t := NO_ROWS;
    t :- WriteCustomers(t, Values(app.identities.customers));
    t :- WriteUsers(t, Values(app.identities.users));
    t :- WriteAccounts(t, Values(app.ledger.accounts));
    r := WriteEntries(t, app.log.entries);
  }

  method ReadBank(t: Tables) returns (r: Result<Ledger, StoreError>)
    ensures r == match ReadAccounts(t, OrderById(t.accounts), [])
                 case Err(error) => Err(error)
                 case Ok(accounts) =>
                   match Imports.FromAccounts(accounts)
                   case Err(error) => Err(Invalid(InvalidBankState(error)))
                   case Ok(ledger) => Ok(ledger)
  {
    var rows := OrderById(t.accounts);
    var accounts := [];
    for i := 0 to |rows|
      invariant ReadAccounts(t, rows[i..], accounts) == ReadAccounts(t, rows, [])
    {
      assert rows[i..][0] == rows[i] && rows[i..][1..] == rows[i + 1..];
      var account :- ReadAccount(t, rows[i]);
      accounts := accounts + [account];
    }
    match Imports.FromAccounts(accounts) {
      case Err(error) => return Err(Invalid(InvalidBankState(error)));
      case Ok(ledger) => return Ok(ledger);
    }
  }

  method ReadAuditLog(t: Tables) returns (r: Result<Log, StoreError>)
    ensures r == match ReadEntries(OrderById(t.audit), [])
                 case Err(error) => Err(error)
                 case Ok(entries) =>
                   match ImportEntries(entries)
                   case Err(error) => Err(Invalid(InvalidAuditState(error)))
                   case Ok(log) => Ok(log)
  {
    var rows := OrderById(t.audit);
    var entries := [];
    for i := 0 to |rows|
      invariant ReadEntries(rows[i..], entries) == ReadEntries(rows, [])
    {
      assert rows[i..][0] == rows[i] && rows[i..][1..] == rows[i + 1..];
      var entry :- DecodeEntry(rows[i]);
      entries := entries + [entry];
    }
    match ImportEntries(entries) {
      case Err(error) => return Err(Invalid(InvalidAuditState(error)));
      case Ok(log) => return Ok(log);
    }
  }

  method ReadNormalizedState(h: Hasher, t: Tables) returns (r: Result<Option<App>, StoreError>)
    ensures r == ReadState(h, t)
  {
    if !HasRows(t) {
      return Ok(None);
    }
    var customers :- Collect(OrderById(t.customers), DecodeCustomer);
    var users :- Collect(OrderById(t.users), DecodeUser);
    var built := Identity.FromRecords(h, customers, users);
    if built.Err? {
      return Err(Invalid(InvalidIdentityState(built.error)));
    }
    var ledger :- ReadBank(t);
    var log :- ReadAuditLog(t);
    var owner := OwnerFault(Values(ledger.accounts), built.value.customers);
    if owner.Some? {
      return Err(Invalid(owner.value));
    }
    return Ok(Some(App(ledger, built.value, log)));
  }

  class Database {
    var versions: seq<int>
    var snapshot: Option<Option<AppSnapshot>>
    var tables: Option<Tables>

    ghost function State(): Db
      reads this
    {
      Db(versions, snapshot, tables)
    }

    constructor ()
      ensures State() == NEW_FILE
    {
      versions, snapshot, tables := [], None, None;
    }

    method ApplyMigrationOne(now: u64) returns (error: Option<StoreError>)
      modifies this
      ensures (State(), error) == MigrateToOne(old(State()), now)
    {
      if snapshot.Some? {
        return Some(TableExists);
      }
      snapshot := Some(None);
      var appliedAt := ToI64("current_epoch_seconds", now);
      if appliedAt.Err? {
        return Some(appliedAt.error);
      }
      if 1 in versions {
        return Some(ConstraintViolation);
      }
      versions := versions + [1];
      return None;
    }

    method ApplyMigrationTwo(h: Hasher, now: u64) returns (error: Option<StoreError>)
      modifies this
      ensures (State(), error) == MigrateToTwo(old(State()), h, now)
    {
      if snapshot.None? {
        return Some(NoSuchTable);
      }
      var state: Option<App> := None;
      if snapshot.value.Some? {
        var loaded := FromSnapshot(h, snapshot.value.value);
        if loaded.Err? {
          return Some(Invalid(loaded.error));
        }
        state := Some(loaded.value);
      }
      if tables.Some? {
        return Some(TableExists);
      }
      var appliedAt := ToI64("current_epoch_seconds", now);
      if appliedAt.Err? {
        return Some(appliedAt.error);
      }
      if 2 in versions {
        return Some(ConstraintViolation);
      }
      var rows := NO_ROWS;
      if state.Some? {
        var written := WriteNormalizedState(state.value);
        if written.Err? {
          return Some(written.error);
        }
        rows := written.value;
      }
      versions := versions + [2];
      tables := Some(rows);
      return None;
    }

    method ApplyMigrationThree(now: u64) returns (error: Option<StoreError>)
      modifies this
      ensures (State(), error) == MigrateToThree(old(State()), now)
    {
      if tables.None? {
        return Some(NoSuchTable);
      }
      var appliedAt := ToI64("current_epoch_seconds", now);
      if appliedAt.Err? {
        return Some(appliedAt.error);
      }
      if 3 in versions {
        return Some(ConstraintViolation);
      }
      versions := versions + [3];
      return None;
    }

    method Migrate(h: Hasher, c: Stamps) returns (error: Option<StoreError>)
      modifies this
      ensures (State(), error) == Migrated(old(State()), h, c)
    {
      var version := Highest(versions);
      if version > CURRENT_SCHEMA {
        return Some(UnsupportedSchemaVersion(version));
      }
      if version < 1 {
        error := ApplyMigrationOne(c.one);
        if error.Some? {
          return;
        }
      }
      if version < 2 {
        error := ApplyMigrationTwo(h, c.two);
        if error.Some? {
          return;
        }
      }
      if version < 3 {
        error := ApplyMigrationThree(c.three);
        return;
      }
      return None;
    }

    method Save(h: Hasher, app: App, c: Stamps, now: u64) returns (error: Option<StoreError>)
      modifies this
      ensures (State(), error) == Saved(old(State()), h, app, c, now)
    {
      error := Migrate(h, c);
      if error.Some? {
        return;
      }
      if tables.None? || snapshot.None? {
        return Some(NoSuchTable);
      }
      var rows := WriteNormalizedState(app);
      if rows.Err? {
        return Some(rows.error);
      }
      var updatedAt := ToI64("current_epoch_seconds", now);
      if updatedAt.Err? {
        return Some(updatedAt.error);
      }
      tables := Some(rows.value);
      snapshot := Some(Some(SnapshotOf(app)));
      return None;
    }

    method Load(h: Hasher, c: Stamps) returns (r: Result<App, StoreError>)
      modifies this
      ensures (State(), r) == LoadedFrom(old(State()), h, c)
    {
      var error := Migrate(h, c);
      if error.Some? {
        return Err(error.value);
      }
      if tables.None? {
        return Err(NoSuchTable);
      }
      var state :- ReadNormalizedState(h, tables.value);
      if state.Some? {
        return Ok(state.value);
      }
      if snapshot.None? {
        return Err(NoSuchTable);
      }
      if snapshot.value.None? {
        return Err(MissingState);
      }
      var loaded := FromSnapshot(h, snapshot.value.value);
      if loaded.Err? {
        return Err(Invalid(loaded.error));
      }
      return Ok(loaded.value);
    }
  }
}
