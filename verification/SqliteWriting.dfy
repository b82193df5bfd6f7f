/** When writing a state succeeds, and which rows it leaves. */
module SqliteWriting {
  import opened Wrappers
  import opened Numbers
  import opened Rows
  import opened Domain
  import opened Ledgers
  import opened Imports
  import opened Identity
  import opened Audit
  import opened Api
  import opened Storage
  import opened Sqlite

  function CustomerRows(list: seq<CustomerRecord>): seq<Row<CustomerCols>> {
    seq(|list|, i requires 0 <= i < |list| => CustomerRow(list[i]))
  }

  function UserRows(list: seq<User>): seq<Row<UserCols>> {
    seq(|list|, i requires 0 <= i < |list| => UserRow(list[i]))
  }

  function AccountRows(list: seq<Account>): seq<Row<AccountCols>> {
    seq(|list|, i requires 0 <= i < |list| => AccountRow(list[i]))
  }

  function TransactionRows(account: AccountId, list: seq<Transaction>): seq<Row<TransactionCols>> {
    seq(|list|, i requires 0 <= i < |list| => TransactionRow(account, list[i]))
  }

  function AuditRows(list: seq<AuditEntry>): seq<Row<AuditCols>> {
    seq(|list|, i requires 0 <= i < |list| => AuditRow(list[i]))
  }

  /** The transaction rows of a list of accounts, account by account. */
  function JournalRows(list: seq<Account>): seq<Row<TransactionCols>> {
    if list == [] then [] else TransactionRows(list[0].id, list[0].transactions) + JournalRows(list[1..])
  }

  /** The rows of a state whose records are listed in this order. */
  function RowsOf(customers: seq<CustomerRecord>, users: seq<User>, accounts: seq<Account>,
                  entries: seq<AuditEntry>): Tables
  {
    Tables(CustomerRows(customers), UserRows(users), AccountRows(accounts), JournalRows(accounts), AuditRows(entries))
  }

  // ---- What fits into 64-bit integer columns --------------------------------------------------

  predicate FitsTransaction(t: Transaction) {
    t.id <= I64_MAX && t.occurredAt <= I64_MAX
  }

  predicate FitsEntry(e: AuditEntry) {
    e.id <= I64_MAX && e.occurredAt <= I64_MAX
  }

  ghost predicate FitsTransactions(list: seq<Transaction>) {
    forall i :: 0 <= i < |list| ==> FitsTransaction(list[i])
  }

  ghost predicate FitsEntries(list: seq<AuditEntry>) {
    forall i :: 0 <= i < |list| ==> FitsEntry(list[i])
  }

  ghost predicate FitsAccounts(accounts: map<AccountId, Account>) {
    forall id :: id in accounts ==> FitsTransactions(accounts[id].transactions)
  }

  /** Every id and timestamp fits a column. */
  ghost predicate Fits(app: App) {
    FitsAccounts(app.ledger.accounts) && FitsEntries(app.log.entries)
  }

  // ---- Customers and users --------------------------------------------------------------------

  lemma TakenAppend<T(!new)>(rows: seq<Row<T>>, row: Row<T>, id: int)
    ensures KeyTaken(rows + [row], id) <==> KeyTaken(rows, id) || row.id == id
  {
    var more := rows + [row];
    if i :| 0 <= i < |rows| && rows[i].id == id {
      assert more[i].id == id;
    }
    if row.id == id {
      assert more[|rows|].id == id;
    }
  }

  lemma {:induction false} CustomersWritten(t: Tables, list: seq<CustomerRecord>)
    requires forall i, j :: 0 <= i < j < |list| ==> list[i].id != list[j].id
    requires forall i :: 0 <= i < |list| ==> !KeyTaken(t.customers, list[i].id)
    ensures InsertCustomers(t, list) == Ok(t.(customers := t.customers + CustomerRows(list)))
    decreases |list|
  {
    if list == [] {
      assert t.customers + CustomerRows(list) == t.customers;
    } else {
      var rest, t' := list[1..], t.(customers := t.customers + [CustomerRow(list[0])]);
      forall i | 0 <= i < |rest|
        ensures !KeyTaken(t'.customers, rest[i].id)
      {
        TakenAppend(t.customers, CustomerRow(list[0]), rest[i].id);
      }
      CustomersWritten(t', rest);
      assert t.customers + CustomerRows(list) == t'.customers + CustomerRows(rest);
    }
  }

  lemma UsernameAppend(rows: seq<Row<UserCols>>, row: Row<UserCols>, username: string)
    ensures UsernameTaken(rows + [row], username) <==> UsernameTaken(rows, username) || row.cols.username == username
  {
    var more := rows + [row];
    if i :| 0 <= i < |rows| && rows[i].cols.username == username {
      assert more[i].cols.username == username;
    }
    if row.cols.username == username {
      assert more[|rows|].cols.username == username;
    }
  }

  ghost predicate UserInsertable(t: Tables, u: User) {
    !KeyTaken(t.users, u.id) && !UsernameTaken(t.users, u.username) && Refers(t.customers, OptionalInt(u.customerId))
  }

  lemma {:induction false} UsersWritten(t: Tables, list: seq<User>)
    requires forall i, j :: 0 <= i < j < |list| ==> list[i].id != list[j].id && list[i].username != list[j].username
    requires forall i :: 0 <= i < |list| ==> UserInsertable(t, list[i])
    ensures InsertUsers(t, list) == Ok(t.(users := t.users + UserRows(list)))
    decreases |list|
  {
    if list == [] {
      assert t.users + UserRows(list) == t.users;
    } else {
      var rest, t' := list[1..], t.(users := t.users + [UserRow(list[0])]);
      forall i | 0 <= i < |rest|
        ensures UserInsertable(t', rest[i])
      {
        assert rest[i] == list[i + 1];
        TakenAppend(t.users, UserRow(list[0]), rest[i].id);
        UsernameAppend(t.users, UserRow(list[0]), rest[i].username);
      }
      UsersWritten(t', rest);
      assert t.users + UserRows(list) == t'.users + UserRows(rest);
    }
  }

  // ---- Transactions and accounts --------------------------------------------------------------

  ghost predicate IdsFree(rows: seq<Row<TransactionCols>>, list: seq<Transaction>) {
    forall i :: 0 <= i < |list| ==> !KeyTaken(rows, list[i].id)
  }

  lemma {:induction false} TransactionsWritten(t: Tables, account: AccountId, list: seq<Transaction>)
    requires KeyTaken(t.accounts, account) && DistinctIds(list) && IdsFree(t.transactions, list)
    requires FitsTransactions(list)
    ensures InsertTransactions(t, account, list) ==
            Ok(t.(transactions := t.transactions + TransactionRows(account, list)))
    decreases |list|
  {
    if list == [] {
      assert t.transactions + TransactionRows(account, list) == t.transactions;
    } else {
      var rest, row := list[1..], TransactionRow(account, list[0]);
      var t' := t.(transactions := t.transactions + [row]);
      forall i | 0 <= i < |rest|
        ensures !KeyTaken(t'.transactions, rest[i].id) && FitsTransaction(rest[i])
      {
        assert rest[i] == list[i + 1];
        TakenAppend(t.transactions, row, rest[i].id);
      }
      TransactionsWritten(t', account, rest);
      assert t.transactions + TransactionRows(account, list) == t'.transactions + TransactionRows(account, rest);
    }
  }

  lemma TakenConcat<T(!new)>(a: seq<Row<T>>, b: seq<Row<T>>, id: int)
    ensures KeyTaken(a + b, id) <==> KeyTaken(a, id) || KeyTaken(b, id)
  {
    var c := a + b;
    if i :| 0 <= i < |a| && a[i].id == id {
      assert c[i].id == id;
    }
    if i :| 0 <= i < |b| && b[i].id == id {
      assert c[|a| + i].id == id;
    }
    if i :| 0 <= i < |c| && c[i].id == id {
      assert i < |a| ==> a[i].id == id;
      assert i >= |a| ==> b[i - |a|].id == id;
    }
  }

  /** The accounts of a list can be inserted into the tables one after the other. */
  ghost predicate AccountsInsertable(t: Tables, list: seq<Account>) {
    && DistinctAccounts(list) && DistinctIds(Journal(list))
    && (forall i :: 0 <= i < |list| ==>
          !KeyTaken(t.accounts, list[i].id) && Refers(t.customers, OptionalInt(list[i].ownerId)))
    && IdsFree(t.transactions, Journal(list))
    && FitsTransactions(Journal(list))
  }

  function AccountWritten(t: Tables, a: Account): Tables {
    t.(accounts := t.accounts + [AccountRow(a)], transactions := t.transactions + TransactionRows(a.id, a.transactions))
  }

  lemma ConcatSplit(own: seq<Transaction>, rest: seq<Transaction>)
    requires DistinctIds(own + rest) && FitsTransactions(own + rest)
    ensures DistinctIds(own) && FitsTransactions(own)
    ensures DistinctIds(rest) && FitsTransactions(rest)
  {
    var whole := own + rest;
    assert forall i :: 0 <= i < |own| ==> own[i] == whole[i];
    forall i, j | 0 <= i < j < |rest|
      ensures rest[i].id != rest[j].id
    {
      assert whole[|own| + i].id != whole[|own| + j].id;
    }
    forall i | 0 <= i < |rest|
      ensures FitsTransaction(rest[i])
    {
      assert FitsTransaction(whole[|own| + i]);
    }
  }

  lemma ConcatApart(own: seq<Transaction>, rest: seq<Transaction>, i: nat, j: nat)
    requires DistinctIds(own + rest) && i < |own| && j < |rest|
    ensures own[i].id != rest[j].id
  {
    assert (own + rest)[i].id != (own + rest)[|own| + j].id;
  }

  lemma JournalSplit(list: seq<Account>)
    requires list != [] && DistinctIds(Journal(list)) && FitsTransactions(Journal(list))
    ensures var (own, rest) := (list[0].transactions, Journal(list[1..]));
            && DistinctIds(own) && DistinctIds(rest) && FitsTransactions(own) && FitsTransactions(rest)
            && forall i, j :: 0 <= i < |own| && 0 <= j < |rest| ==> own[i].id != rest[j].id
  {
    var own, rest := list[0].transactions, Journal(list[1..]);
    ConcatSplit(own, rest);
    forall i, j | 0 <= i < |own| && 0 <= j < |rest|
      ensures own[i].id != rest[j].id
    {
      ConcatApart(own, rest, i, j);
    }
  }

  lemma FirstAccountWritten(t: Tables, list: seq<Account>)
    requires list != [] && AccountsInsertable(t, list)
    ensures InsertAccounts(t, list) == InsertAccounts(AccountWritten(t, list[0]), list[1..])
  {
    var a := list[0];
    var t1 := t.(accounts := t.accounts + [AccountRow(a)]);
    JournalSplit(list);
    TakenAppend(t.accounts, AccountRow(a), a.id);
    forall i | 0 <= i < |a.transactions|
      ensures !KeyTaken(t.transactions, a.transactions[i].id)
    {
      assert Journal(list)[i] == a.transactions[i];
    }
    TransactionsWritten(t1, a.id, a.transactions);
  }

  lemma RestInsertable(t: Tables, list: seq<Account>)
    requires list != [] && AccountsInsertable(t, list)
    ensures AccountsInsertable(AccountWritten(t, list[0]), list[1..])
  {
    var a, rest, t' := list[0], list[1..], AccountWritten(t, list[0]);
    JournalSplit(list);
    forall i | 0 <= i < |rest|
      ensures !KeyTaken(t'.accounts, rest[i].id) && Refers(t'.customers, OptionalInt(rest[i].ownerId))
    {
      assert rest[i] == list[i + 1];
      TakenAppend(t.accounts, AccountRow(a), rest[i].id);
    }
    var own := TransactionRows(a.id, a.transactions);
    forall j | 0 <= j < |Journal(rest)|
      ensures !KeyTaken(t'.transactions, Journal(rest)[j].id)
    {
      assert Journal(list)[|a.transactions| + j] == Journal(rest)[j];
      TakenConcat(t.transactions, own, Journal(rest)[j].id);
      assert forall i :: 0 <= i < |own| ==> own[i].id == a.transactions[i].id;
    }
  }

  lemma AccountRowsFirst(t: Tables, list: seq<Account>)
    requires list != []
    ensures t.accounts + AccountRows(list) == AccountWritten(t, list[0]).accounts + AccountRows(list[1..])
    ensures t.transactions + JournalRows(list) == AccountWritten(t, list[0]).transactions + JournalRows(list[1..])
  {
    var a, rest := list[0], list[1..];
    assert AccountRows(list) == [AccountRow(a)] + AccountRows(rest);
    ConcatAssociates(t.accounts, [AccountRow(a)], AccountRows(rest));
    ConcatAssociates(t.transactions, TransactionRows(a.id, a.transactions), JournalRows(rest));
  }

  lemma {:induction false} AccountsWritten(t: Tables, list: seq<Account>)
    requires AccountsInsertable(t, list)
    ensures InsertAccounts(t, list) ==
            Ok(t.(accounts := t.accounts + AccountRows(list), transactions := t.transactions + JournalRows(list)))
    decreases |list|
  {
    if list == [] {
      assert t.accounts + AccountRows(list) == t.accounts;
      assert t.transactions + JournalRows(list) == t.transactions;
    } else {
      var t', rest := AccountWritten(t, list[0]), list[1..];
      FirstAccountWritten(t, list);
      RestInsertable(t, list);
      AccountsWritten(t', rest);
      AccountRowsFirst(t, list);
    }
  }

  // ---- Audit entries --------------------------------------------------------------------------

  lemma {:induction false} EntriesWritten(t: Tables, list: seq<AuditEntry>)
    requires DistinctEntries(list) && FitsEntries(list)
    requires forall i :: 0 <= i < |list| ==> !KeyTaken(t.audit, list[i].id)
    ensures InsertEntries(t, list) == Ok(t.(audit := t.audit + AuditRows(list)))
    decreases |list|
  {
    if list == [] {
      assert t.audit + AuditRows(list) == t.audit;
    } else {
      var rest, t' := list[1..], t.(audit := t.audit + [AuditRow(list[0])]);
      forall i | 0 <= i < |rest|
        ensures !KeyTaken(t'.audit, rest[i].id) && FitsEntry(rest[i])
      {
        assert rest[i] == list[i + 1];
        TakenAppend(t.audit, AuditRow(list[0]), rest[i].id);
      }
      EntriesWritten(t', rest);
      assert t.audit + AuditRows(list) == t'.audit + AuditRows(rest);
    }
  }

  // ---- Failure --------------------------------------------------------------------------------

  lemma {:induction false} TransactionsFitWhenWritten(t: Tables, account: AccountId, list: seq<Transaction>)
    requires InsertTransactions(t, account, list).Ok?
    ensures FitsTransactions(list) && InsertTransactions(t, account, list).value.customers == t.customers
    decreases |list|
  {
    if list != [] {
      TransactionsFitWhenWritten(InsertTransaction(t, account, list[0]).value, account, list[1..]);
      assert forall i :: 1 <= i < |list| ==> list[i] == list[1..][i - 1];
    }
  }

  lemma {:induction false} AccountsFitWhenWritten(t: Tables, list: seq<Account>)
    requires InsertAccounts(t, list).Ok?
    ensures InsertAccounts(t, list).value.customers == t.customers
    ensures forall i :: 0 <= i < |list| ==>
              FitsTransactions(list[i].transactions) && Refers(t.customers, OptionalInt(list[i].ownerId))
    decreases |list|
  {
    if list != [] {
      var t1 := InsertAccountRow(t, list[0]).value;
      TransactionsFitWhenWritten(t1, list[0].id, list[0].transactions);
      AccountsFitWhenWritten(InsertTransactions(t1, list[0].id, list[0].transactions).value, list[1..]);
      assert forall i :: 1 <= i < |list| ==> list[i] == list[1..][i - 1];
    }
  }

  lemma {:induction false} EntriesFitWhenWritten(t: Tables, list: seq<AuditEntry>)
    requires InsertEntries(t, list).Ok?
    ensures FitsEntries(list)
    decreases |list|
  {
    if list != [] {
      EntriesFitWhenWritten(InsertEntry(t, list[0]).value, list[1..]);
      assert forall i :: 1 <= i < |list| ==> list[i] == list[1..][i - 1];
    }
  }

  // ---- The whole state ------------------------------------------------------------------------

  lemma CustomerTaken(list: seq<CustomerRecord>, m: map<CustomerId, CustomerRecord>, id: CustomerId)
    requires EnumeratesCustomers(list, m)
    ensures KeyTaken(CustomerRows(list), id) <==> id in m
  {
    var rows := CustomerRows(list);
    assert forall i :: 0 <= i < |rows| ==> rows[i].id == list[i].id;
    if id in m {
      var i :| 0 <= i < |list| && list[i] == m[id];
      assert rows[i].id == id;
    }
  }

  /** Users whose normalised names differ have different names. */
  lemma UsernamesDiffer(s: Identities, p: UserId, q: UserId)
    requires Consistent(s) && p in s.users && q in s.users && s.users[p].username == s.users[q].username
    ensures p == q
  {
    assert p in Names(s.users) && q in Names(s.users);
  }

  lemma UsersInsertable(s: Identities, customers: seq<CustomerRecord>, users: seq<User>, t: Tables)
    requires Consistent(s) && EnumeratesCustomers(customers, s.customers) && EnumeratesUsers(users, s.users)
    requires t == NO_ROWS.(customers := CustomerRows(customers))
    ensures forall i :: 0 <= i < |users| ==> UserInsertable(t, users[i])
    ensures forall i, j :: 0 <= i < j < |users| ==> users[i].id != users[j].id && users[i].username != users[j].username
  {
    forall i, j | 0 <= i < j < |users|
      ensures users[i].username != users[j].username
    {
      if users[i].username == users[j].username {
        UsernamesDiffer(s, users[i].id, users[j].id);
      }
    }
    forall i | 0 <= i < |users|
      ensures UserInsertable(t, users[i])
    {
      var u := users[i];
      assert LinkFault(s.customers, u.role, u.customerId).None?;
      if u.customerId.Some? {
        CustomerTaken(customers, s.customers, u.customerId.value);
      }
    }
  }

  lemma CustomersStored(s: Identities, customers: seq<CustomerRecord>)
    requires EnumeratesCustomers(customers, s.customers)
    ensures InsertCustomers(NO_ROWS, customers) == Ok(NO_ROWS.(customers := CustomerRows(customers)))
  {
    CustomersWritten(NO_ROWS, customers);
    assert [] + CustomerRows(customers) == CustomerRows(customers);
  }

  lemma UsersStored(s: Identities, customers: seq<CustomerRecord>, users: seq<User>)
    requires Consistent(s) && EnumeratesCustomers(customers, s.customers) && EnumeratesUsers(users, s.users)
    ensures InsertUsers(NO_ROWS.(customers := CustomerRows(customers)), users) ==
            Ok(NO_ROWS.(customers := CustomerRows(customers), users := UserRows(users)))
  {
    var t := NO_ROWS.(customers := CustomerRows(customers));
    UsersInsertable(s, customers, users, t);
    UsersWritten(t, users);
    assert [] + UserRows(users) == UserRows(users);
  }

  lemma JournalOfLoadable(l: Ledger, list: seq<Account>)
    requires Loadable(l) && Enumerates(list, l.accounts)
    ensures DistinctIds(Journal(list))
  {
    LoadableIsImported(list, l);
    ImportIsScan(list, map[], NOTHING_SEEN);
    ScanExact(Journal(list), NOTHING_SEEN);
  }

  lemma JournalFits(accounts: map<AccountId, Account>, list: seq<Account>)
    requires Enumerates(list, accounts) && FitsAccounts(accounts)
    ensures FitsTransactions(Journal(list))
  {
    forall k | 0 <= k < |Journal(list)|
      ensures FitsTransaction(Journal(list)[k])
    {
      var i, j := JournalFrom(list, k);
      assert FitsTransactions(accounts[list[i].id].transactions);
    }
  }

  lemma LedgerInsertable(l: Ledger, owners: map<CustomerId, CustomerRecord>, customers: seq<CustomerRecord>,
                         list: seq<Account>, t: Tables)
    requires Loadable(l) && Enumerates(list, l.accounts) && FitsAccounts(l.accounts)
    requires Owned(l.accounts, owners) && EnumeratesCustomers(customers, owners)
    requires t.customers == CustomerRows(customers) && t.accounts == [] && t.transactions == []
    ensures AccountsInsertable(t, list)
  {
    JournalOfLoadable(l, list);
    JournalFits(l.accounts, list);
    forall i | 0 <= i < |list|
      ensures Refers(t.customers, OptionalInt(list[i].ownerId))
    {
      if list[i].ownerId.Some? {
        CustomerTaken(customers, owners, list[i].ownerId.value);
      }
    }
  }

  lemma AccountsFromNothing(t: Tables, list: seq<Account>)
    requires AccountsInsertable(t, list) && t.accounts == [] && t.transactions == []
    ensures InsertAccounts(t, list) == Ok(t.(accounts := AccountRows(list), transactions := JournalRows(list)))
  {
    AccountsWritten(t, list);
    assert [] + AccountRows(list) == AccountRows(list) && [] + JournalRows(list) == JournalRows(list);
  }

  lemma LedgerWritten(l: Ledger, owners: map<CustomerId, CustomerRecord>, customers: seq<CustomerRecord>,
                      list: seq<Account>, t: Tables)
    requires Loadable(l) && Enumerates(list, l.accounts) && FitsAccounts(l.accounts)
    requires Owned(l.accounts, owners) && EnumeratesCustomers(customers, owners)
    requires t.customers == CustomerRows(customers) && t.accounts == [] && t.transactions == []
    ensures InsertAccounts(t, list) == Ok(t.(accounts := AccountRows(list), transactions := JournalRows(list)))
  {
    LedgerInsertable(l, owners, customers, list, t);
    AccountsFromNothing(t, list);
  }

  lemma LedgerFitsWhenWritten(l: Ledger, owners: map<CustomerId, CustomerRecord>, customers: seq<CustomerRecord>,
                              list: seq<Account>, t: Tables)
    requires Enumerates(list, l.accounts) && EnumeratesCustomers(customers, owners)
    requires t.customers == CustomerRows(customers) && InsertAccounts(t, list).Ok?
    ensures FitsAccounts(l.accounts) && Owned(l.accounts, owners)
  {
    AccountsFitWhenWritten(t, list);
    forall id | id in l.accounts
      ensures FitsTransactions(l.accounts[id].transactions)
      ensures l.accounts[id].ownerId.Some? ==> l.accounts[id].ownerId.value in owners
    {
      var i :| 0 <= i < |list| && list[i] == l.accounts[id];
      if list[i].ownerId.Some? {
        CustomerTaken(customers, owners, list[i].ownerId.value);
      }
    }
  }

  lemma LogWritten(log: Log, t: Tables)
    requires LoadableLog(log) && FitsEntries(log.entries) && t.audit == []
    ensures InsertEntries(t, log.entries) == Ok(t.(audit := AuditRows(log.entries)))
  {
    EntriesWritten(t, log.entries);
    assert [] + AuditRows(log.entries) == AuditRows(log.entries);
  }

  /**
   * The records of a saveable state, in any order, can be written iff every id and timestamp fits 64
   * signed bits and every owner exists; the tables then hold exactly their rows.
   */
  lemma WriteExact(app: App, h: Hasher, customers: seq<CustomerRecord>, users: seq<User>, accounts: seq<Account>)
    requires Saveable(app, h)
    requires EnumeratesCustomers(customers, app.identities.customers) && EnumeratesUsers(users, app.identities.users)
    requires Enumerates(accounts, app.ledger.accounts)
    ensures var r := WriteRecords(customers, users, accounts, app.log.entries);
            && (r.Ok? <==> Fits(app) && Owned(app.ledger.accounts, app.identities.customers))
            && (r.Ok? ==> r.value == RowsOf(customers, users, accounts, app.log.entries))
  {
    CustomersStored(app.identities, customers);
    UsersStored(app.identities, customers, users);
    var t2 := NO_ROWS.(customers := CustomerRows(customers), users := UserRows(users));
    if InsertAccounts(t2, accounts).Ok? {
      LedgerFitsWhenWritten(app.ledger, app.identities.customers, customers, accounts, t2);
      LedgerWritten(app.ledger, app.identities.customers, customers, accounts, t2);
      var t3 := t2.(accounts := AccountRows(accounts), transactions := JournalRows(accounts));
      if InsertEntries(t3, app.log.entries).Ok? {
        EntriesFitWhenWritten(t3, app.log.entries);
      }
      if FitsEntries(app.log.entries) {
        LogWritten(app.log, t3);
      }
    } else if FitsAccounts(app.ledger.accounts) && Owned(app.ledger.accounts, app.identities.customers) {
      LedgerWritten(app.ledger, app.identities.customers, customers, accounts, t2);
    }
  }
}
