/** Which records can be written at all: the tables never break their constraints, and refuse nothing else. */
module SqliteConstraints {
  import opened Wrappers
  import opened Rows
  import opened Domain
  import opened Imports
  import opened Identity
  import opened Audit
  import opened Sqlite
  import opened SqliteWriting

  ghost function Ids<T(!new)>(rows: seq<Row<T>>): set<int> {
    set r | r in rows :: r.id
  }

  // ---- The constraints ------------------------------------------------------------------------

  /** User names are unique and links lead to stored customers. */
  ghost predicate UsersMeet(users: seq<Row<UserCols>>, customers: set<int>) {
    && DistinctKeys(users)
    && (forall i, j :: 0 <= i < j < |users| ==> users[i].cols.username != users[j].cols.username)
    && forall i :: 0 <= i < |users| && users[i].cols.customerId.Some? ==> users[i].cols.customerId.value in customers
  }

  /** Owners are stored customers. */
  ghost predicate AccountsMeet(accounts: seq<Row<AccountCols>>, customers: set<int>) {
    && DistinctKeys(accounts)
    && forall i :: 0 <= i < |accounts| && accounts[i].cols.ownerId.Some? ==> accounts[i].cols.ownerId.value in customers
  }

  /** Transactions are on stored accounts. */
  ghost predicate TransactionsMeet(transactions: seq<Row<TransactionCols>>, accounts: set<int>) {
    && DistinctKeys(transactions)
    && forall i :: 0 <= i < |transactions| ==> transactions[i].cols.accountId in accounts
  }

  /** What the database promises of its tables: primary keys, unique names and references. */
  ghost predicate Constrained(t: Tables) {
    && DistinctKeys(t.customers)
    && UsersMeet(t.users, Ids(t.customers))
    && AccountsMeet(t.accounts, Ids(t.customers))
    && TransactionsMeet(t.transactions, Ids(t.accounts))
    && DistinctKeys(t.audit)
  }

  // ---- One row --------------------------------------------------------------------------------

  lemma TakenIsListed<T(!new)>(rows: seq<Row<T>>, id: int)
    ensures KeyTaken(rows, id) <==> id in Ids(rows)
  {
    if KeyTaken(rows, id) {
      var i :| 0 <= i < |rows| && rows[i].id == id;
      assert rows[i] in rows;
    }
  }

  lemma ReferredIsListed(customers: seq<Row<CustomerCols>>, customerId: Option<int>)
    ensures Refers(customers, customerId) <==> (customerId.Some? ==> customerId.value in Ids(customers))
  {
    if customerId.Some? {
      TakenIsListed(customers, customerId.value);
    }
  }

  lemma IdsAppend<T(!new)>(rows: seq<Row<T>>, row: Row<T>)
    ensures Ids(rows + [row]) == Ids(rows) + {row.id}
    ensures DistinctKeys(rows + [row]) <==> DistinctKeys(rows) && !KeyTaken(rows, row.id)
  {
    var more := rows + [row];
    assert more[|rows|] == row;
    assert forall i :: 0 <= i < |rows| ==> more[i] == rows[i];
    forall id
      ensures id in Ids(more) <==> id in Ids(rows) || id == row.id
    {
      TakenAppend(rows, row, id);
      TakenIsListed(more, id);
      TakenIsListed(rows, id);
    }
  }

  lemma CustomerInserted(t: Tables, c: CustomerRecord)
    requires Constrained(t) && InsertCustomer(t, c).Ok?
    ensures Constrained(InsertCustomer(t, c).value)
  {
    IdsAppend(t.customers, CustomerRow(c));
  }

  lemma UserInserted(t: Tables, u: User)
    requires Constrained(t) && InsertUser(t, u).Ok?
    ensures Constrained(InsertUser(t, u).value)
  {
    IdsAppend(t.users, UserRow(u));
    ReferredIsListed(t.customers, OptionalInt(u.customerId));
    var more := t.users + [UserRow(u)];
    forall i, j | 0 <= i < j < |more|
      ensures more[i].cols.username != more[j].cols.username
    {
      assert i < |t.users| ==> more[i] == t.users[i];
    }
  }

  lemma AccountInserted(t: Tables, a: Account)
    requires Constrained(t) && InsertAccountRow(t, a).Ok?
    ensures Constrained(InsertAccountRow(t, a).value)
  {
    IdsAppend(t.accounts, AccountRow(a));
    ReferredIsListed(t.customers, OptionalInt(a.ownerId));
  }

  lemma TransactionInserted(t: Tables, account: AccountId, x: Transaction)
    requires Constrained(t) && InsertTransaction(t, account, x).Ok?
    ensures Constrained(InsertTransaction(t, account, x).value)
  {
    IdsAppend(t.transactions, TransactionRow(account, x));
    TakenIsListed(t.accounts, account);
  }

  lemma EntryInserted(t: Tables, e: AuditEntry)
    requires Constrained(t) && InsertEntry(t, e).Ok?
    ensures Constrained(InsertEntry(t, e).value)
  {
    IdsAppend(t.audit, AuditRow(e));
  }

  // ---- Lists of records -----------------------------------------------------------------------

  lemma {:induction false} CustomersInserted(t: Tables, list: seq<CustomerRecord>)
    requires Constrained(t) && InsertCustomers(t, list).Ok?
    ensures Constrained(InsertCustomers(t, list).value)
    ensures InsertCustomers(t, list).value == t.(customers := t.customers + CustomerRows(list))
    decreases |list|
  {
    if list == [] {
      assert t.customers + CustomerRows(list) == t.customers;
    } else {
      var t' := InsertCustomer(t, list[0]).value;
      CustomerInserted(t, list[0]);
      CustomersInserted(t', list[1..]);
      assert t.customers + CustomerRows(list) == t'.customers + CustomerRows(list[1..]);
    }
  }

  lemma {:induction false} UsersInserted(t: Tables, list: seq<User>)
    requires Constrained(t) && InsertUsers(t, list).Ok?
    ensures Constrained(InsertUsers(t, list).value)
    ensures InsertUsers(t, list).value == t.(users := t.users + UserRows(list))
    decreases |list|
  {
    if list == [] {
      assert t.users + UserRows(list) == t.users;
    } else {
      var t' := InsertUser(t, list[0]).value;
      UserInserted(t, list[0]);
      UsersInserted(t', list[1..]);
      assert t.users + UserRows(list) == t'.users + UserRows(list[1..]);
    }
  }

  lemma {:induction false} TransactionsInserted(t: Tables, account: AccountId, list: seq<Transaction>)
    requires Constrained(t) && InsertTransactions(t, account, list).Ok?
    ensures Constrained(InsertTransactions(t, account, list).value)
    ensures InsertTransactions(t, account, list).value ==
            t.(transactions := t.transactions + TransactionRows(account, list))
    decreases |list|
  {
    if list == [] {
      assert t.transactions + TransactionRows(account, list) == t.transactions;
    } else {
      var t' := InsertTransaction(t, account, list[0]).value;
      TransactionInserted(t, account, list[0]);
      TransactionsInserted(t', account, list[1..]);
      assert t.transactions + TransactionRows(account, list) ==
             t'.transactions + TransactionRows(account, list[1..]);
    }
  }

  lemma {:induction false} AccountsInserted(t: Tables, list: seq<Account>)
    requires Constrained(t) && InsertAccounts(t, list).Ok?
    ensures Constrained(InsertAccounts(t, list).value)
    ensures InsertAccounts(t, list).value ==
            t.(accounts := t.accounts + AccountRows(list), transactions := t.transactions + JournalRows(list))
    decreases |list|
  {
    if list == [] {
      assert t.accounts + AccountRows(list) == t.accounts;
      assert t.transactions + JournalRows(list) == t.transactions;
    } else {
      var t1 := InsertAccountRow(t, list[0]).value;
      AccountInserted(t, list[0]);
      TransactionsInserted(t1, list[0].id, list[0].transactions);
      AccountsInserted(AccountWritten(t, list[0]), list[1..]);
      AccountRowsFirst(t, list);
    }
  }

  lemma {:induction false} EntriesInserted(t: Tables, list: seq<AuditEntry>)
    requires Constrained(t) && InsertEntries(t, list).Ok?
    ensures Constrained(InsertEntries(t, list).value)
    ensures InsertEntries(t, list).value == t.(audit := t.audit + AuditRows(list))
    decreases |list|
  {
    if list == [] {
      assert t.audit + AuditRows(list) == t.audit;
    } else {
      var t' := InsertEntry(t, list[0]).value;
      EntryInserted(t, list[0]);
      EntriesInserted(t', list[1..]);
      assert t.audit + AuditRows(list) == t'.audit + AuditRows(list[1..]);
    }
  }

  lemma {:induction false} JournalFitsWhenWritten(t: Tables, list: seq<Account>)
    requires InsertAccounts(t, list).Ok?
    ensures FitsTransactions(Journal(list))
    decreases |list|
  {
    if list != [] {
      var t1 := InsertAccountRow(t, list[0]).value;
      TransactionsFitWhenWritten(t1, list[0].id, list[0].transactions);
      JournalFitsWhenWritten(InsertTransactions(t1, list[0].id, list[0].transactions).value, list[1..]);
    }
  }

  // ---- What can be written --------------------------------------------------------------------

  /** The rows of the records when customers, users and accounts have been inserted. */
  ghost function Written(customers: seq<CustomerRecord>, users: seq<User>, accounts: seq<Account>): Tables {
    Tables(CustomerRows(customers), UserRows(users), AccountRows(accounts), JournalRows(accounts), [])
  }

  lemma WrittenIsConstrained(customers: seq<CustomerRecord>, users: seq<User>, accounts: seq<Account>,
                             entries: seq<AuditEntry>)
    requires WriteRecords(customers, users, accounts, entries).Ok?
    ensures WriteRecords(customers, users, accounts, entries) == Ok(RowsOf(customers, users, accounts, entries))
    ensures Constrained(RowsOf(customers, users, accounts, entries))
    ensures FitsTransactions(Journal(accounts)) && FitsEntries(entries)
  {
    var t1 := InsertCustomers(NO_ROWS, customers).value;
    CustomersInserted(NO_ROWS, customers);
    assert [] + CustomerRows(customers) == CustomerRows(customers);
    var t2 := InsertUsers(t1, users).value;
    UsersInserted(t1, users);
    assert [] + UserRows(users) == UserRows(users);
    var t3 := InsertAccounts(t2, accounts).value;
    AccountsInserted(t2, accounts);
    JournalFitsWhenWritten(t2, accounts);
    assert [] + AccountRows(accounts) == AccountRows(accounts) && [] + JournalRows(accounts) == JournalRows(accounts);
    EntriesInserted(t3, entries);
    EntriesFitWhenWritten(t3, entries);
    assert [] + AuditRows(entries) == AuditRows(entries);
  }

  lemma {:induction false} JournalRowsAre(list: seq<Account>)
    ensures |JournalRows(list)| == |Journal(list)|
    ensures forall i :: 0 <= i < |Journal(list)| ==> JournalRows(list)[i].id == Journal(list)[i].id
  {
    if list != [] {
      JournalRowsAre(list[1..]);
    }
  }

  lemma ConstrainedUsers(customers: seq<CustomerRecord>, users: seq<User>)
    requires UsersMeet(UserRows(users), Ids(CustomerRows(customers)))
    ensures InsertUsers(NO_ROWS.(customers := CustomerRows(customers)), users) ==
            Ok(NO_ROWS.(customers := CustomerRows(customers), users := UserRows(users)))
  {
    var t, rows := NO_ROWS.(customers := CustomerRows(customers)), UserRows(users);
    forall i | 0 <= i < |users|
      ensures UserInsertable(t, users[i])
    {
      assert rows[i] == UserRow(users[i]);
      ReferredIsListed(t.customers, OptionalInt(users[i].customerId));
    }
    forall i, j | 0 <= i < j < |users|
      ensures users[i].id != users[j].id && users[i].username != users[j].username
    {
      assert rows[i].id != rows[j].id && rows[i].cols.username != rows[j].cols.username;
    }
    UsersWritten(t, users);
    assert [] + UserRows(users) == UserRows(users);
  }

  lemma ConstrainedAccounts(t: Tables, accounts: seq<Account>)
    requires t.accounts == [] && t.transactions == [] && FitsTransactions(Journal(accounts))
    requires AccountsMeet(AccountRows(accounts), Ids(t.customers)) && DistinctKeys(JournalRows(accounts))
    ensures InsertAccounts(t, accounts) ==
            Ok(t.(accounts := AccountRows(accounts), transactions := JournalRows(accounts)))
  {
    var rows := AccountRows(accounts);
    JournalRowsAre(accounts);
    forall i | 0 <= i < |accounts|
      ensures Refers(t.customers, OptionalInt(accounts[i].ownerId))
    {
      assert rows[i] == AccountRow(accounts[i]);
      ReferredIsListed(t.customers, OptionalInt(accounts[i].ownerId));
    }
    forall i, j | 0 <= i < j < |accounts|
      ensures accounts[i].id != accounts[j].id
    {
      assert rows[i].id != rows[j].id;
    }
    AccountsWritten(t, accounts);
    assert [] + AccountRows(accounts) == AccountRows(accounts) && [] + JournalRows(accounts) == JournalRows(accounts);
  }

  lemma ConstrainedIsWritten(customers: seq<CustomerRecord>, users: seq<User>, accounts: seq<Account>,
                             entries: seq<AuditEntry>)
    requires Constrained(RowsOf(customers, users, accounts, entries))
    requires FitsTransactions(Journal(accounts)) && FitsEntries(entries)
    ensures WriteRecords(customers, users, accounts, entries) == Ok(RowsOf(customers, users, accounts, entries))
  {
    var (c, e) := (CustomerRows(customers), AuditRows(entries));
    assert forall i :: 0 <= i < |customers| ==> c[i].id == customers[i].id;
    assert forall i :: 0 <= i < |entries| ==> e[i].id == entries[i].id;
    CustomersWritten(NO_ROWS, customers);
    assert [] + c == c;
    ConstrainedUsers(customers, users);
    ConstrainedAccounts(NO_ROWS.(customers := c, users := UserRows(users)), accounts);
    EntriesWritten(Written(customers, users, accounts), entries);
    assert [] + e == e;
  }

  /**
   * Records are written iff their ids and times fit their columns and their rows meet the constraints; then the
   * tables hold exactly those rows.
   */
  lemma WriteRecordsIff(customers: seq<CustomerRecord>, users: seq<User>, accounts: seq<Account>,
                        entries: seq<AuditEntry>)
    ensures var rows := RowsOf(customers, users, accounts, entries);
            var written := WriteRecords(customers, users, accounts, entries);
            && (written.Ok? <==> FitsTransactions(Journal(accounts)) && FitsEntries(entries) && Constrained(rows))
            && (written.Ok? ==> written == Ok(rows))
  {
    var rows := RowsOf(customers, users, accounts, entries);
    if WriteRecords(customers, users, accounts, entries).Ok? {
      WrittenIsConstrained(customers, users, accounts, entries);
    }
    if FitsTransactions(Journal(accounts)) && FitsEntries(entries) && Constrained(rows) {
      ConstrainedIsWritten(customers, users, accounts, entries);
    }
  }
}
