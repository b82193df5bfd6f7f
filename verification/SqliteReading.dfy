/** What is read back from the rows of a state: the same state, with transactions and entries in id order. */
module SqliteReading {
  import opened Wrappers
  import opened Numbers
  import opened Rows
  import opened Domain
  import opened Ledgers
  import opened LedgerRuns
  import opened Imports
  import opened Identity
  import opened Audit
  import opened Api
  import opened Storage
  import opened Sqlite
  import opened SqliteWriting

  // ---- Lists in id order ----------------------------------------------------------------------

  function Keyed(ts: seq<Transaction>): seq<Row<Transaction>> {
    seq(|ts|, i requires 0 <= i < |ts| => Row(ts[i].id, ts[i]))
  }

  function Contents<T>(rows: seq<Row<T>>): seq<T> {
    seq(|rows|, i requires 0 <= i < |rows| => rows[i].cols)
  }

  /** The transactions of an account by ascending id. */
  function SortedTransactions(ts: seq<Transaction>): seq<Transaction> {
    Contents(OrderById(Keyed(ts)))
  }

  function KeyedEntries(es: seq<AuditEntry>): seq<Row<AuditEntry>> {
    seq(|es|, i requires 0 <= i < |es| => Row(es[i].id, es[i]))
  }

  function SortedEntries(es: seq<AuditEntry>): seq<AuditEntry> {
    Contents(OrderById(KeyedEntries(es)))
  }

  /** Sorting keeps the transactions and puts their ids in ascending order. */
  lemma SortedTransactionsKeep(ts: seq<Transaction>)
    requires DistinctIds(ts)
    ensures AscendingIds(SortedTransactions(ts)) && |SortedTransactions(ts)| == |ts|
    ensures forall t :: t in SortedTransactions(ts) <==> t in ts
  {
    var keyed := Keyed(ts);
    OrderKeeps(keyed);
    var ordered := OrderById(keyed);
    forall t
      ensures t in SortedTransactions(ts) <==> t in ts
    {
      InKeyed(ts, t);
      InContents(ordered, t, ts);
    }
    KeyedIds(ts, ordered);
  }

  lemma InKeyed(ts: seq<Transaction>, t: Transaction)
    ensures t in ts <==> Row(t.id, t) in Keyed(ts)
  {
    if t in ts {
      var i :| 0 <= i < |ts| && ts[i] == t;
      assert Keyed(ts)[i] == Row(t.id, t);
    }
  }

  lemma KeyedIds(ts: seq<Transaction>, rows: seq<Row<Transaction>>)
    requires forall r :: r in rows ==> r in Keyed(ts)
    ensures forall i :: 0 <= i < |rows| ==> rows[i].id == rows[i].cols.id
  {
    forall i | 0 <= i < |rows|
      ensures rows[i].id == rows[i].cols.id
    {
      var r := rows[i];
      assert r in rows;
      assert r in Keyed(ts);
    }
  }

  lemma InContents(rows: seq<Row<Transaction>>, t: Transaction, ts: seq<Transaction>)
    requires forall r :: r in rows ==> r in Keyed(ts)
    ensures t in Contents(rows) <==> Row(t.id, t) in rows
  {
    KeyedIds(ts, rows);
    if t in Contents(rows) {
      var i :| 0 <= i < |rows| && rows[i].cols == t;
      assert rows[i] == Row(t.id, t);
    }
    if Row(t.id, t) in rows {
      var i :| 0 <= i < |rows| && rows[i] == Row(t.id, t);
      assert Contents(rows)[i] == t;
    }
  }

  /** Transactions already in id order stay as they are. */
  lemma SortedTransactionsStable(ts: seq<Transaction>)
    requires AscendingIds(ts)
    ensures SortedTransactions(ts) == ts
  {
    OrderAscending(Keyed(ts));
  }

  lemma SortedEntriesStable(es: seq<AuditEntry>)
    requires forall i, j :: 0 <= i < j < |es| ==> es[i].id < es[j].id
    ensures SortedEntries(es) == es
  {
    OrderAscending(KeyedEntries(es));
  }

  lemma SortedEntriesKeep(es: seq<AuditEntry>)
    requires DistinctEntries(es)
    ensures forall i, j :: 0 <= i < j < |SortedEntries(es)| ==> SortedEntries(es)[i].id < SortedEntries(es)[j].id
    ensures |SortedEntries(es)| == |es|
    ensures forall e :: e in SortedEntries(es) <==> e in es
  {
    var keyed := KeyedEntries(es);
    OrderKeeps(keyed);
    var ordered := OrderById(keyed);
    forall i | 0 <= i < |ordered|
      ensures ordered[i].id == ordered[i].cols.id && ordered[i].cols in es
    {
      var r := ordered[i];
      assert r in ordered;
      assert r in keyed;
    }
    forall e | e in es
      ensures e in SortedEntries(es)
    {
      var i :| 0 <= i < |es| && es[i] == e;
      var r := Row(e.id, e);
      assert keyed[i] == r;
      assert r in ordered;
      var j :| 0 <= j < |ordered| && ordered[j] == r;
      assert SortedEntries(es)[j] == e;
    }
  }

  // ---- Transactions of one account ------------------------------------------------------------

  lemma {:induction false} OfAccountConcat(a: seq<Row<TransactionCols>>, b: seq<Row<TransactionCols>>, account: int)
    ensures OfAccount(a + b, account) == OfAccount(a, account) + OfAccount(b, account)
  {
    if a == [] {
      assert a + b == b;
    } else {
      assert (a + b)[1..] == a[1..] + b;
      OfAccountConcat(a[1..], b, account);
    }
  }

  lemma {:induction false} OfAccountUniform(rows: seq<Row<TransactionCols>>, owner: int, account: int)
    requires forall i :: 0 <= i < |rows| ==> rows[i].cols.accountId == owner
    ensures OfAccount(rows, account) == if owner == account then rows else []
  {
    if rows != [] {
      OfAccountUniform(rows[1..], owner, account);
      assert rows == [rows[0]] + rows[1..];
    }
  }

  /** The selection from a list that starts with the rows of one account. */
  lemma SelectedSplit(list: seq<Account>, account: AccountId)
    requires list != []
    ensures OfAccount(JournalRows(list), account) ==
            (if list[0].id == account then TransactionRows(list[0].id, list[0].transactions) else [])
            + OfAccount(JournalRows(list[1..]), account)
  {
    var own, rest := TransactionRows(list[0].id, list[0].transactions), JournalRows(list[1..]);
    OfAccountConcat(own, rest, account);
    OfAccountUniform(own, list[0].id, account);
  }

  /** Selecting by account picks out exactly the rows of that account, whatever was written around them. */
  lemma {:induction false} SelectedRows(list: seq<Account>, k: nat)
    requires DistinctAccounts(list) && k < |list|
    ensures OfAccount(JournalRows(list), list[k].id) == TransactionRows(list[k].id, list[k].transactions)
  {
    SelectedSplit(list, list[k].id);
    if k == 0 {
      NoneSelected(list[1..], list[0].id);
    } else {
      SelectedRows(list[1..], k - 1);
    }
  }

  lemma {:induction false} NoneSelected(list: seq<Account>, account: AccountId)
    requires forall i :: 0 <= i < |list| ==> list[i].id != account
    ensures OfAccount(JournalRows(list), account) == []
  {
    if list != [] {
      SelectedSplit(list, account);
      NoneSelected(list[1..], account);
    }
  }

  lemma OrderedTransactionRows(account: AccountId, ts: seq<Transaction>)
    requires DistinctIds(ts)
    ensures OrderById(TransactionRows(account, ts)) == TransactionRows(account, SortedTransactions(ts))
  {
    var f := (t: Transaction) => TransactionRow(account, t).cols;
    var keyed := Keyed(ts);
    assert TransactionRows(account, ts) == MapCols(keyed, f);
    OrderMapped(keyed, f);
    OrderKeeps(keyed);
    KeyedIds(ts, OrderById(keyed));
    assert MapCols(OrderById(keyed), f) == TransactionRows(account, SortedTransactions(ts));
  }

  lemma TransactionsRead(t: Tables, list: seq<Account>, k: nat)
    requires DistinctAccounts(list) && k < |list| && t.transactions == JournalRows(list)
    requires DistinctIds(list[k].transactions)
    ensures ReadTransactions(t, list[k].id) == Ok(SortedTransactions(list[k].transactions))
  {
    var a := list[k];
    SelectedRows(list, k);
    OrderedTransactionRows(a.id, a.transactions);
    var sorted := SortedTransactions(a.transactions);
    forall i | 0 <= i < |sorted|
      ensures DecodeTransaction(TransactionRows(a.id, sorted)[i]) == Ok(sorted[i])
    {
      TransactionRowDecodes(a.id, sorted[i]);
    }
    CollectAll(TransactionRows(a.id, sorted), DecodeTransaction, sorted);
  }

  // ---- Accounts -------------------------------------------------------------------------------

  function SortedAccount(a: Account): Account {
    a.(transactions := SortedTransactions(a.transactions))
  }

  function SortedAccounts(list: seq<Account>): seq<Account> {
    seq(|list|, i requires 0 <= i < |list| => SortedAccount(list[i]))
  }

  lemma RowRead(t: Tables, a: Account, transactions: seq<Transaction>)
    requires ReadTransactions(t, a.id) == Ok(transactions)
    ensures ReadAccount(t, AccountRow(a)) == Ok(a.(transactions := transactions))
  {
    StatusDecodes(a.status);
  }

  lemma StatusDecodes(status: AccountStatus)
    ensures StatusFrom("accounts.status", StatusText(status)) == Ok(status)
  {
    EnumsRoundTrip(Admin, status, Success, "accounts.status");
  }

  lemma AccountRead(t: Tables, list: seq<Account>, k: nat)
    requires DistinctAccounts(list) && k < |list| && t.transactions == JournalRows(list)
    requires DistinctIds(list[k].transactions)
    ensures ReadAccount(t, AccountRow(list[k])) == Ok(SortedAccount(list[k]))
  {
    TransactionsRead(t, list, k);
    RowRead(t, list[k], SortedTransactions(list[k].transactions));
  }

  lemma RowsFrom(list: seq<Account>, k: nat)
    requires k < |list|
    ensures AccountRows(list)[k..] == [AccountRow(list[k])] + AccountRows(list)[k + 1..]
    ensures SortedAccounts(list[..k + 1]) == SortedAccounts(list[..k]) + [SortedAccount(list[k])]
  {
  }

  lemma {:induction false} AccountsRead(t: Tables, list: seq<Account>, k: nat, done: seq<Account>)
    requires DistinctAccounts(list) && k <= |list| && t.transactions == JournalRows(list)
    requires forall i :: 0 <= i < |list| ==> DistinctIds(list[i].transactions)
    requires done == SortedAccounts(list[..k])
    ensures ReadAccounts(t, AccountRows(list)[k..], done) == Ok(SortedAccounts(list))
    decreases |list| - k
  {
    if k == |list| {
      assert list[..k] == list;
    } else {
      AccountRead(t, list, k);
      RowsFrom(list, k);
      AccountsRead(t, list, k + 1, done + [SortedAccount(list[k])]);
      ReadFirst(t, AccountRow(list[k]), AccountRows(list)[k + 1..], done);
    }
  }

  lemma ReadFirst(t: Tables, row: Row<AccountCols>, rest: seq<Row<AccountCols>>, done: seq<Account>)
    requires ReadAccount(t, row).Ok?
    ensures ReadAccounts(t, [row] + rest, done) == ReadAccounts(t, rest, done + [ReadAccount(t, row).value])
  {
    assert ([row] + rest)[1..] == rest;
  }

  // ---- Audit entries --------------------------------------------------------------------------

  lemma OrderedAuditRows(es: seq<AuditEntry>)
    requires DistinctEntries(es)
    ensures OrderById(AuditRows(es)) == AuditRows(SortedEntries(es))
  {
    var f := (e: AuditEntry) => AuditRow(e).cols;
    var keyed := KeyedEntries(es);
    assert AuditRows(es) == MapCols(keyed, f);
    OrderMapped(keyed, f);
    OrderKeeps(keyed);
    var ordered := OrderById(keyed);
    forall i | 0 <= i < |ordered|
      ensures ordered[i].id == ordered[i].cols.id
    {
      var r := ordered[i];
      assert r in ordered;
      assert r in keyed;
    }
    assert MapCols(ordered, f) == AuditRows(SortedEntries(es));
  }

  lemma {:induction false} EntriesRead(es: seq<AuditEntry>, k: nat, done: seq<AuditEntry>)
    requires k <= |es| && done == es[..k]
    ensures ReadEntries(AuditRows(es)[k..], done) == Ok(es)
    decreases |es| - k
  {
    if k == |es| {
      assert es[..k] == es;
    } else {
      var rows := AuditRows(es)[k..];
      AuditRowDecodes(es[k]);
      assert rows[0] == AuditRow(es[k]) && rows[1..] == AuditRows(es)[k + 1..];
      EntriesRead(es, k + 1, done + [es[k]]);
    }
  }

  // ---- The whole state ------------------------------------------------------------------------

  function SortedMap(accounts: map<AccountId, Account>): map<AccountId, Account> {
    map id | id in accounts :: SortedAccount(accounts[id])
  }

  /** The same state with transactions and entries in id order and the transaction counter pulled tight. */
  ghost predicate SortedReload(app: App, app': App) {
    && app'.identities == app.identities
    && app'.ledger.accounts == SortedMap(app.ledger.accounts) && TightCounter(app'.ledger)
    && app'.log == Log(SortedEntries(app.log.entries), app.log.nextId)
  }

  lemma SortedAccountLoadable(a: Account)
    requires LoadableAccount(a)
    ensures LoadableAccount(SortedAccount(a))
  {
    SortedTransactionsKeep(a.transactions);
    var sorted := SortedTransactions(a.transactions);
    forall i | 0 <= i < |sorted|
      ensures 1 <= sorted[i].id < U64_MAX
    {
      var t := sorted[i];
      assert t in sorted;
      var j :| 0 <= j < |a.transactions| && a.transactions[j] == t;
    }
  }

  lemma SortedApart(a: Account, b: Account)
    requires DistinctIds(a.transactions) && DistinctIds(b.transactions) && IdsApart(a, b)
    ensures IdsApart(SortedAccount(a), SortedAccount(b))
  {
    SortedTransactionsKeep(a.transactions);
    SortedTransactionsKeep(b.transactions);
    var p, q := SortedTransactions(a.transactions), SortedTransactions(b.transactions);
    forall i, j | 0 <= i < |p| && 0 <= j < |q|
      ensures p[i].id != q[j].id
    {
      var x, y := p[i], q[j];
      assert x in p && y in q;
      var k :| 0 <= k < |a.transactions| && a.transactions[k] == x;
      var n :| 0 <= n < |b.transactions| && b.transactions[n] == y;
    }
  }

  lemma SortedLoadable(l: Ledger, m: Ledger)
    requires Loadable(l) && m.accounts == SortedMap(l.accounts)
    ensures Loadable(m)
  {
    forall id | id in m.accounts
      ensures LoadableAccount(m.accounts[id])
    {
      SortedAccountLoadable(l.accounts[id]);
    }
    forall p, q | p in m.accounts && q in m.accounts && p != q
      ensures IdsApart(m.accounts[p], m.accounts[q])
    {
      assert LoadableAccount(l.accounts[p]) && LoadableAccount(l.accounts[q]);
      SortedApart(l.accounts[p], l.accounts[q]);
    }
  }

  lemma SortedEnumerates(list: seq<Account>, accounts: map<AccountId, Account>)
    requires Enumerates(list, accounts)
    ensures Enumerates(SortedAccounts(list), SortedMap(accounts))
  {
    var sorted, m := SortedAccounts(list), SortedMap(accounts);
    forall id | id in m
      ensures m[id] in sorted
    {
      var i :| 0 <= i < |list| && list[i] == accounts[id];
      assert sorted[i] == m[id];
    }
  }

  /** A sorted listing imports as the sorted ledger. */
  lemma SortedImported(l: Ledger, list: seq<Account>)
    requires Loadable(l) && Enumerates(list, l.accounts)
    ensures FromAccounts(SortedAccounts(list)).Ok?
    ensures var l' := FromAccounts(SortedAccounts(list)).value;
            l'.accounts == SortedMap(l.accounts) && TightCounter(l')
  {
    var m := Ledger(SortedMap(l.accounts), 1);
    SortedLoadable(l, m);
    SortedEnumerates(list, l.accounts);
    LoadableIsImported(SortedAccounts(list), m);
    ImportedIsLoadable(SortedAccounts(list));
  }

  lemma SortedLogImported(log: Log)
    requires LoadableLog(log)
    ensures ImportEntries(SortedEntries(log.entries)) == Ok(Log(SortedEntries(log.entries), log.nextId))
  {
    SortedEntriesKeep(log.entries);
    var sorted := SortedEntries(log.entries);
    forall i | 0 <= i < |sorted|
      ensures 1 <= sorted[i].id < log.nextId
    {
      var e := sorted[i];
      assert e in sorted;
      var j :| 0 <= j < |log.entries| && log.entries[j] == e;
    }
    if log.nextId > 1 {
      var i :| 0 <= i < |log.entries| && log.entries[i].id == log.nextId - 1;
      var e := log.entries[i];
      assert e in log.entries;
      assert e in sorted;
      var j :| 0 <= j < |sorted| && sorted[j] == e;
    }
    ImportLogExact(sorted, Log(sorted, log.nextId));
  }

  /** Records listed by ascending id, as ordered maps list them. */
  ghost predicate InIdOrder(customers: seq<CustomerRecord>, users: seq<User>, accounts: seq<Account>) {
    && (forall i, j :: 0 <= i < j < |customers| ==> customers[i].id < customers[j].id)
    && (forall i, j :: 0 <= i < j < |users| ==> users[i].id < users[j].id)
    && forall i, j :: 0 <= i < j < |accounts| ==> accounts[i].id < accounts[j].id
  }

  lemma CustomersDecoded(customers: seq<CustomerRecord>)
    requires forall i, j :: 0 <= i < j < |customers| ==> customers[i].id < customers[j].id
    ensures Collect(OrderById(CustomerRows(customers)), DecodeCustomer) == Ok(customers)
  {
    OrderAscending(CustomerRows(customers));
    forall i | 0 <= i < |customers|
      ensures DecodeCustomer(CustomerRows(customers)[i]) == Ok(customers[i])
    {
      CustomerRowDecodes(customers[i]);
    }
    CollectAll(CustomerRows(customers), DecodeCustomer, customers);
  }

  lemma UsersDecoded(users: seq<User>)
    requires forall i, j :: 0 <= i < j < |users| ==> users[i].id < users[j].id
    ensures Collect(OrderById(UserRows(users)), DecodeUser) == Ok(users)
  {
    OrderAscending(UserRows(users));
    forall i | 0 <= i < |users|
      ensures DecodeUser(UserRows(users)[i]) == Ok(users[i])
    {
      UserRowDecodes(users[i]);
    }
    CollectAll(UserRows(users), DecodeUser, users);
  }

  lemma LedgerDecoded(l: Ledger, t: Tables, list: seq<Account>)
    requires Loadable(l) && Enumerates(list, l.accounts)
    requires forall i, j :: 0 <= i < j < |list| ==> list[i].id < list[j].id
    requires t.accounts == AccountRows(list) && t.transactions == JournalRows(list)
    ensures ReadAccounts(t, OrderById(t.accounts), []) == Ok(SortedAccounts(list))
  {
    OrderAscending(AccountRows(list));
    forall i | 0 <= i < |list|
      ensures DistinctIds(list[i].transactions)
    {
      assert LoadableAccount(l.accounts[list[i].id]);
    }
    assert AccountRows(list)[0..] == AccountRows(list);
    assert [] == SortedAccounts(list[..0]);
    AccountsRead(t, list, 0, []);
  }

  lemma LogDecoded(es: seq<AuditEntry>)
    requires DistinctEntries(es)
    ensures ReadEntries(OrderById(AuditRows(es)), []) == Ok(SortedEntries(es))
  {
    var sorted := SortedEntries(es);
    OrderedAuditRows(es);
    assert AuditRows(sorted)[0..] == AuditRows(sorted);
    EntriesRead(sorted, 0, []);
  }

  /** Tables whose rows all decode are read as what the records assemble to. */
  lemma ReadAssembles(h: Hasher, t: Tables, customers: seq<CustomerRecord>, users: seq<User>, accounts: seq<Account>,
                      entries: seq<AuditEntry>)
    requires HasRows(t)
    requires Collect(OrderById(t.customers), DecodeCustomer) == Ok(customers)
    requires Collect(OrderById(t.users), DecodeUser) == Ok(users)
    requires ReadAccounts(t, OrderById(t.accounts), []) == Ok(accounts)
    requires ReadEntries(OrderById(t.audit), []) == Ok(entries)
    ensures ReadState(h, t) ==
            match Assemble(h, customers, users, accounts, entries)
            case Err(error) => Err(Invalid(error))
            case Ok(app) => Ok(Some(app))
  {
  }

  lemma SortedAssembles(app: App, h: Hasher, customers: seq<CustomerRecord>, users: seq<User>, accounts: seq<Account>)
    requires Saveable(app, h) && Owned(app.ledger.accounts, app.identities.customers)
    requires EnumeratesCustomers(customers, app.identities.customers) && EnumeratesUsers(users, app.identities.users)
    requires Enumerates(accounts, app.ledger.accounts)
    ensures var r := Assemble(h, customers, users, SortedAccounts(accounts), SortedEntries(app.log.entries));
            r.Ok? && SortedReload(app, r.value)
  {
    ReloadIdentities(app.identities, h, customers, users);
    SortedImported(app.ledger, accounts);
    SortedLogImported(app.log);
    OwnersChecked(FromAccounts(SortedAccounts(accounts)).value.accounts, app.identities.customers);
  }

  /** The rows of an owned, saveable state are read back as that state, sorted. */
  lemma ReadExact(app: App, h: Hasher, customers: seq<CustomerRecord>, users: seq<User>, accounts: seq<Account>)
    requires Saveable(app, h) && Owned(app.ledger.accounts, app.identities.customers)
    requires EnumeratesCustomers(customers, app.identities.customers) && EnumeratesUsers(users, app.identities.users)
    requires Enumerates(accounts, app.ledger.accounts) && InIdOrder(customers, users, accounts)
    requires HasRows(RowsOf(customers, users, accounts, app.log.entries))
    ensures var r := ReadState(h, RowsOf(customers, users, accounts, app.log.entries));
            r.Ok? && r.value.Some? && SortedReload(app, r.value.value)
  {
    var t := RowsOf(customers, users, accounts, app.log.entries);
    CustomersDecoded(customers);
    UsersDecoded(users);
    LedgerDecoded(app.ledger, t, accounts);
    LogDecoded(app.log.entries);
    ReadAssembles(h, t, customers, users, SortedAccounts(accounts), SortedEntries(app.log.entries));
    SortedAssembles(app, h, customers, users, accounts);
  }
}
