/** Which tables are read as a state, and as which: nothing is assumed of how the rows came to be. */
module SqliteDecoding {
  import opened Wrappers
  import opened Rows
  import opened Domain
  import opened Identity
  import opened Audit
  import opened Api
  import opened Storage
  import opened Sqlite
  import SqliteReading

  /** Row by row, the rows decode to the values. */
  ghost predicate Decoded<A(!new), B(!new)>(rows: seq<A>, decode: A -> Result<B, StoreError>, values: seq<B>) {
    |values| == |rows| && forall i :: 0 <= i < |rows| ==> decode(rows[i]) == Ok(values[i])
  }

  lemma {:induction false} CollectIff<A(!new), B(!new)>(rows: seq<A>, decode: A -> Result<B, StoreError>,
                                                        values: seq<B>)
    ensures Collect(rows, decode) == Ok(values) <==> Decoded(rows, decode, values)
  {
    if Decoded(rows, decode, values) {
      CollectAll(rows, decode, values);
    }
    if rows != [] && Collect(rows, decode) == Ok(values) {
      CollectIff(rows[1..], decode, values[1..]);
      assert values == [values[0]] + values[1..];
      assert forall i :: 1 <= i < |rows| ==> rows[i] == rows[1..][i - 1] && values[i] == values[1..][i - 1];
    }
  }

  /** The rows of an account are those that name it. */
  lemma {:induction false} OfAccountExact(rows: seq<Row<TransactionCols>>, account: int, row: Row<TransactionCols>)
    ensures row in OfAccount(rows, account) <==> row in rows && row.cols.accountId == account
  {
    if rows != [] {
      OfAccountExact(rows[1..], account, row);
      assert rows == [rows[0]] + rows[1..];
    }
  }

  /** The account's own columns and, by ascending id, its transaction rows. */
  ghost predicate AccountStored(t: Tables, row: Row<AccountCols>, a: Account) {
    && row.id == a.id
    && row.cols.ownerId == OptionalInt(a.ownerId)
    && row.cols.name == a.name && row.cols.email == a.email
    && row.cols.balance == a.balance && row.cols.loanBalance == a.loanBalance
    && row.cols.status == StatusText(a.status)
    && Decoded(OrderById(OfAccount(t.transactions, a.id)), DecodeTransaction, a.transactions)
  }

  lemma ReadAccountIsStored(t: Tables, row: Row<AccountCols>)
    requires ReadAccount(t, row).Ok?
    ensures AccountStored(t, row, ReadAccount(t, row).value)
  {
    var a := ReadAccount(t, row).value;
    EnumsExact("accounts.status", row.cols.status, Admin, a.status, Success);
    CollectIff(OrderById(OfAccount(t.transactions, a.id)), DecodeTransaction, a.transactions);
  }

  lemma StoredAccountIsRead(t: Tables, row: Row<AccountCols>, a: Account)
    requires AccountStored(t, row, a)
    ensures ReadAccount(t, row) == Ok(a)
  {
    EnumsRoundTrip(Admin, a.status, Success, "accounts.status");
    CollectIff(OrderById(OfAccount(t.transactions, a.id)), DecodeTransaction, a.transactions);
  }

  lemma AccountRowExact(t: Tables, row: Row<AccountCols>, a: Account)
    ensures ReadAccount(t, row) == Ok(a) <==> AccountStored(t, row, a)
  {
    if ReadAccount(t, row) == Ok(a) {
      ReadAccountIsStored(t, row);
    }
    if AccountStored(t, row, a) {
      StoredAccountIsRead(t, row, a);
    }
  }

  ghost predicate AccountsStored(t: Tables, rows: seq<Row<AccountCols>>, accounts: seq<Account>) {
    |accounts| == |rows| && forall i :: 0 <= i < |rows| ==> AccountStored(t, rows[i], accounts[i])
  }

  lemma {:induction false} AccountsReadFrom(t: Tables, rows: seq<Row<AccountCols>>, done: seq<Account>)
    requires ReadAccounts(t, rows, done).Ok?
    ensures done <= ReadAccounts(t, rows, done).value
    ensures AccountsStored(t, rows, ReadAccounts(t, rows, done).value[|done|..])
    decreases |rows|
  {
    if rows != [] {
      var a := ReadAccount(t, rows[0]).value;
      var all := ReadAccounts(t, rows, done).value;
      AccountRowExact(t, rows[0], a);
      AccountsReadFrom(t, rows[1..], done + [a]);
      assert all[|done|] == a;
      assert forall i :: 1 <= i < |rows| ==> rows[i] == rows[1..][i - 1] && all[|done| + i] == all[|done| + 1..][i - 1];
    }
  }

  ghost predicate EachRead(t: Tables, rows: seq<Row<AccountCols>>, accounts: seq<Account>) {
    |accounts| == |rows| && forall i :: 0 <= i < |rows| ==> ReadAccount(t, rows[i]) == Ok(accounts[i])
  }

  lemma ReadOne(t: Tables, rows: seq<Row<AccountCols>>, accounts: seq<Account>, k: nat)
    requires k < |rows| == |accounts| && ReadAccount(t, rows[k]) == Ok(accounts[k])
    ensures ReadAccounts(t, rows[k..], accounts[..k]) == ReadAccounts(t, rows[k + 1..], accounts[..k + 1])
  {
    assert rows[k..][0] == rows[k] && rows[k..][1..] == rows[k + 1..];
    assert accounts[..k] + [accounts[k]] == accounts[..k + 1];
  }

  lemma {:induction false} EachIsRead(t: Tables, rows: seq<Row<AccountCols>>, accounts: seq<Account>, k: nat)
    requires EachRead(t, rows, accounts) && k <= |rows|
    ensures ReadAccounts(t, rows[k..], accounts[..k]) == Ok(accounts)
    decreases |rows| - k
  {
    if k == |rows| {
      assert accounts[..k] == accounts;
    } else {
      EachIsRead(t, rows, accounts, k + 1);
      ReadOne(t, rows, accounts, k);
    }
  }

  lemma StoredAreRead(t: Tables, rows: seq<Row<AccountCols>>, accounts: seq<Account>)
    requires AccountsStored(t, rows, accounts)
    ensures EachRead(t, rows, accounts)
  {
    forall i | 0 <= i < |rows|
      ensures ReadAccount(t, rows[i]) == Ok(accounts[i])
    {
      StoredAccountIsRead(t, rows[i], accounts[i]);
    }
  }

  lemma AccountsIff(t: Tables, rows: seq<Row<AccountCols>>, accounts: seq<Account>)
    ensures ReadAccounts(t, rows, []) == Ok(accounts) <==> AccountsStored(t, rows, accounts)
  {
    if ReadAccounts(t, rows, []).Ok? {
      AccountsReadFrom(t, rows, []);
    }
    if AccountsStored(t, rows, accounts) {
      StoredAreRead(t, rows, accounts);
      EachIsRead(t, rows, accounts, 0);
      assert rows[0..] == rows && accounts[..0] == [];
    }
  }

  lemma {:induction false} EntriesCollect(rows: seq<Row<AuditCols>>, done: seq<AuditEntry>)
    ensures ReadEntries(rows, done) ==
            match Collect(rows, DecodeEntry)
            case Err(error) => Err(error)
            case Ok(values) => Ok(done + values)
    decreases |rows|
  {
    if rows == [] {
      assert done + [] == done;
    } else if DecodeEntry(rows[0]).Ok? {
      var entry := DecodeEntry(rows[0]).value;
      EntriesCollect(rows[1..], done + [entry]);
      if Collect(rows[1..], DecodeEntry).Ok? {
        var values := Collect(rows[1..], DecodeEntry).value;
        assert done + [entry] + values == done + ([entry] + values);
      }
    }
  }

  lemma EntriesIff(rows: seq<Row<AuditCols>>, entries: seq<AuditEntry>)
    ensures ReadEntries(rows, []) == Ok(entries) <==> Decoded(rows, DecodeEntry, entries)
  {
    EntriesCollect(rows, []);
    CollectIff(rows, DecodeEntry, entries);
    if Collect(rows, DecodeEntry).Ok? {
      assert [] + Collect(rows, DecodeEntry).value == Collect(rows, DecodeEntry).value;
    }
  }

  /** By ascending key, the rows of the tables are those of the records. */
  ghost predicate Stores(t: Tables, customers: seq<CustomerRecord>, users: seq<User>, accounts: seq<Account>,
                         entries: seq<AuditEntry>)
  {
    && Decoded(OrderById(t.customers), DecodeCustomer, customers)
    && Decoded(OrderById(t.users), DecodeUser, users)
    && AccountsStored(t, OrderById(t.accounts), accounts)
    && Decoded(OrderById(t.audit), DecodeEntry, entries)
  }

  lemma StoredIsRead(h: Hasher, t: Tables, customers: seq<CustomerRecord>, users: seq<User>, accounts: seq<Account>,
                     entries: seq<AuditEntry>)
    requires t != NO_ROWS && Stores(t, customers, users, accounts, entries)
    ensures ReadState(h, t) ==
            match Assemble(h, customers, users, accounts, entries)
            case Err(error) => Err(Invalid(error))
            case Ok(app) => Ok(Some(app))
  {
    CollectIff(OrderById(t.customers), DecodeCustomer, customers);
    CollectIff(OrderById(t.users), DecodeUser, users);
    AccountsIff(t, OrderById(t.accounts), accounts);
    EntriesIff(OrderById(t.audit), entries);
    SqliteReading.ReadAssembles(h, t, customers, users, accounts, entries);
  }

  lemma ReadIsStored(h: Hasher, t: Tables)
    returns (customers: seq<CustomerRecord>, users: seq<User>, accounts: seq<Account>, entries: seq<AuditEntry>)
    requires ReadState(h, t).Ok? && ReadState(h, t).value.Some?
    ensures t != NO_ROWS && Stores(t, customers, users, accounts, entries)
  {
    customers := Collect(OrderById(t.customers), DecodeCustomer).value;
    users := Collect(OrderById(t.users), DecodeUser).value;
    accounts := ReadAccounts(t, OrderById(t.accounts), []).value;
    entries := ReadEntries(OrderById(t.audit), []).value;
    CollectIff(OrderById(t.customers), DecodeCustomer, customers);
    CollectIff(OrderById(t.users), DecodeUser, users);
    AccountsIff(t, OrderById(t.accounts), accounts);
    EntriesIff(OrderById(t.audit), entries);
  }

  /** The rows of the tables are, by ascending key, the records of the state. */
  ghost predicate StoresState(t: Tables, app: App) {
    exists customers, users, accounts, entries ::
      Stores(t, customers, users, accounts, entries) && ListsOf(customers, users, accounts, entries, app)
  }

  lemma StateReadIsStored(h: Hasher, t: Tables, app: App)
    requires ReadState(h, t) == Ok(Some(app))
    ensures t != NO_ROWS && Loaded(app, h) && StoresState(t, app)
  {
    var customers, users, accounts, entries := ReadIsStored(h, t);
    StoredIsRead(h, t, customers, users, accounts, entries);
    AssembleIff(h, customers, users, accounts, entries, app);
  }

  lemma StoredStateIsRead(h: Hasher, t: Tables, app: App)
    requires t != NO_ROWS && Loaded(app, h) && StoresState(t, app)
    ensures ReadState(h, t) == Ok(Some(app))
  {
    var customers, users, accounts, entries :|
      Stores(t, customers, users, accounts, entries) && ListsOf(customers, users, accounts, entries, app);
    AssembleIff(h, customers, users, accounts, entries, app);
    StoredIsRead(h, t, customers, users, accounts, entries);
  }

  lemma NoRowsNoState(h: Hasher, t: Tables)
    ensures ReadState(h, t) == Ok(None) <==> t == NO_ROWS
  {
  }

  /**
   * Any tables are read as a state iff they hold something, their rows are, by ascending key, the records of
   * that state, and the state is valid: consistent, owned and tightly counted.
   */
  lemma ReadStateIff(h: Hasher, t: Tables, app: App)
    ensures ReadState(h, t) == Ok(Some(app)) <==> t != NO_ROWS && Loaded(app, h) && StoresState(t, app)
    ensures ReadState(h, t) == Ok(None) <==> t == NO_ROWS
  {
    NoRowsNoState(h, t);
    if ReadState(h, t) == Ok(Some(app)) {
      StateReadIsStored(h, t, app);
    }
    if t != NO_ROWS && Loaded(app, h) && StoresState(t, app) {
      StoredStateIsRead(h, t, app);
    }
  }
}
