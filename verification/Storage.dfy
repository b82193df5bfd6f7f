/** Snapshots of the whole application and their validation when loaded. */
module Storage {
  import opened Wrappers
  import opened Numbers
  import opened Ordered
  import opened Domain
  import opened Ledgers
  import opened Imports
  import opened Identity
  import opened IdentityLaws
  import opened Audit
  import opened Api

  datatype StorageError =
    | UnsupportedVersion(version: nat)
    | InvalidBankState(bank: BankError)
    | InvalidIdentityState(identity: IdentityError)
    | InvalidAuditState(audit: AuditError)
    | InvalidAccountOwner(accountId: AccountId, customerId: CustomerId)

  datatype AppSnapshot = AppSnapshot(
    version: nat,
    accounts: seq<Account>,
    customers: seq<CustomerRecord>,
    users: seq<User>,
    auditEntries: seq<AuditEntry>)

  const MIN_VERSION: nat := 2
  const CURRENT_VERSION: nat := 3

  /** The values of an ordered map in iteration order. */
  function Values<V>(m: map<u32, V>): seq<V> {
    var ids := Keys(m.Keys);
    seq(|ids|, i requires 0 <= i < |ids| => m[ids[i]])
  }

  /** The values are listed once each, by ascending key. */
  ghost predicate ListsValues<V>(values: seq<V>, ids: seq<u32>, m: map<u32, V>) {
    && |values| == |ids| && Lists(ids, m.Keys)
    && forall i :: 0 <= i < |ids| ==> ids[i] in m && values[i] == m[ids[i]]
  }

  lemma ValuesListed<V>(m: map<u32, V>) returns (ids: seq<u32>)
    ensures ListsValues(Values(m), ids, m)
  {
    ids := Keys(m.Keys);
  }

  lemma ListedIsIn<V>(values: seq<V>, ids: seq<u32>, m: map<u32, V>, id: u32)
    requires ListsValues(values, ids, m) && id in m
    ensures m[id] in values
  {
    assert id in ids;
    var i :| 0 <= i < |ids| && ids[i] == id;
    assert values[i] == m[id];
  }

  function SnapshotOf(app: App): AppSnapshot {
    AppSnapshot(CURRENT_VERSION, Values(app.ledger.accounts), Values(app.identities.customers),
                Values(app.identities.users), app.log.entries)
  }

  /** The first account, in id order, whose owner does not exist. */
  function OwnerFault(accounts: seq<Account>, customers: map<CustomerId, CustomerRecord>): Option<StorageError> {
    if accounts == [] then None
    else if accounts[0].ownerId.Some? && accounts[0].ownerId.value !in customers
    then Some(InvalidAccountOwner(accounts[0].id, accounts[0].ownerId.value))
    else OwnerFault(accounts[1..], customers)
  }

  /** Rebuild every part from its records and check that the account owners exist. */
  function Assemble(h: Hasher, customers: seq<CustomerRecord>, users: seq<User>, accounts: seq<Account>,
                    entries: seq<AuditEntry>)
    : Result<App, StorageError>
  {
    match Identity.FromRecords(h, customers, users)
    case Err(error) => Err(InvalidIdentityState(error))
    case Ok(identities) =>
      match Imports.FromAccounts(accounts)
      case Err(error) => Err(InvalidBankState(error))
      case Ok(ledger) =>
        match ImportEntries(entries)
        case Err(error) => Err(InvalidAuditState(error))
        case Ok(log) =>
          match OwnerFault(Values(ledger.accounts), identities.customers)
          case Some(error) => Err(error)
          case None => Ok(App(ledger, identities, log))
  }

  function FromSnapshot(h: Hasher, s: AppSnapshot): Result<App, StorageError> {
    if !(MIN_VERSION <= s.version <= CURRENT_VERSION) then Err(UnsupportedVersion(s.version))
    else Assemble(h, s.customers, s.users, s.accounts, s.auditEntries)
  }

  // ---- Which states can be loaded -------------------------------------------------------------

  /** The states that can be taken apart and put together again, owners and counter aside. */
  ghost predicate Saveable(app: App, h: Hasher) {
    && Consistent(app.identities) && HashesFormed(app.identities.users, h)
    && Loadable(app.ledger)
    && LoadableLog(app.log)
  }

  /** The states that loading can produce. */
  ghost predicate Loaded(app: App, h: Hasher) {
    Saveable(app, h) && TightCounter(app.ledger) && Owned(app.ledger.accounts, app.identities.customers)
  }

  /** The same state, except that the transaction counter is one more than the highest id in use. */
  ghost predicate ReloadOf(app: App, app': App) {
    && app'.ledger.accounts == app.ledger.accounts && TightCounter(app'.ledger)
    && app'.identities == app.identities
    && app'.log == app.log
  }

  lemma {:induction false} OwnerFaultExact(accounts: seq<Account>, customers: map<CustomerId, CustomerRecord>)
    ensures OwnerFault(accounts, customers).None? <==>
            forall i :: 0 <= i < |accounts| && accounts[i].ownerId.Some? ==> accounts[i].ownerId.value in customers
  {
    if accounts != [] {
      var rest := accounts[1..];
      OwnerFaultExact(rest, customers);
      assert forall i :: 0 <= i < |rest| ==> rest[i] == accounts[i + 1];
      assert forall i :: 1 <= i < |accounts| ==> accounts[i] == rest[i - 1];
    }
  }

  lemma OwnersListed(values: seq<Account>, ids: seq<u32>, accounts: map<AccountId, Account>,
                     customers: map<CustomerId, CustomerRecord>)
    requires ListsValues(values, ids, accounts)
    ensures OwnerFault(values, customers).None? <==> Owned(accounts, customers)
  {
    OwnerFaultExact(values, customers);
    if OwnerFault(values, customers).None? {
      forall id | id in accounts && accounts[id].ownerId.Some?
        ensures accounts[id].ownerId.value in customers
      {
        ListedIsIn(values, ids, accounts, id);
        var i :| 0 <= i < |values| && values[i] == accounts[id];
      }
    }
  }

  lemma OwnersChecked(accounts: map<AccountId, Account>, customers: map<CustomerId, CustomerRecord>)
    ensures OwnerFault(Values(accounts), customers).None? <==> Owned(accounts, customers)
  {
    var ids := ValuesListed(accounts);
    OwnersListed(Values(accounts), ids, accounts, customers);
  }

  /** Whatever is loaded is consistent, tightly counted and owned. */
  lemma AssembledIsLoaded(h: Hasher, customers: seq<CustomerRecord>, users: seq<User>, accounts: seq<Account>,
                          entries: seq<AuditEntry>)
    requires Assemble(h, customers, users, accounts, entries).Ok?
    ensures Loaded(Assemble(h, customers, users, accounts, entries).value, h)
  {
    var app := Assemble(h, customers, users, accounts, entries).value;
    ImportConsistent(h, customers, users);
    ImportedIsLoadable(accounts);
    ImportLogExact(entries, app.log);
    OwnersChecked(app.ledger.accounts, app.identities.customers);
  }

  /** The records of a saveable state, listed in any order, assemble to that state iff all its owners exist. */
  lemma SaveableAssembles(h: Hasher, app: App, customers: seq<CustomerRecord>, users: seq<User>, accounts: seq<Account>)
    requires Saveable(app, h)
    requires EnumeratesCustomers(customers, app.identities.customers) && EnumeratesUsers(users, app.identities.users)
    requires Enumerates(accounts, app.ledger.accounts)
    ensures var r := Assemble(h, customers, users, accounts, app.log.entries);
            && (r.Ok? <==> Owned(app.ledger.accounts, app.identities.customers))
            && (r.Ok? ==> ReloadOf(app, r.value))
  {
    ReloadIdentities(app.identities, h, customers, users);
    LoadableIsImported(accounts, app.ledger);
    ImportedIsLoadable(accounts);
    ImportLogExact(app.log.entries, app.log);
    OwnersChecked(app.ledger.accounts, app.identities.customers);
  }

  lemma ListedAccounts(values: seq<Account>, ids: seq<u32>, m: map<AccountId, Account>)
    requires ListsValues(values, ids, m) && forall id :: id in m ==> m[id].id == id
    ensures Enumerates(values, m)
  {
    assert forall i :: 0 <= i < |ids| ==> values[i].id == ids[i];
    forall id | id in m
      ensures m[id] in values
    {
      ListedIsIn(values, ids, m, id);
    }
  }

  lemma AccountsListed(m: map<AccountId, Account>)
    requires forall id :: id in m ==> m[id].id == id
    ensures Enumerates(Values(m), m)
  {
    var ids := ValuesListed(m);
    ListedAccounts(Values(m), ids, m);
  }

  lemma ListedCustomers(values: seq<CustomerRecord>, ids: seq<u32>, m: map<CustomerId, CustomerRecord>)
    requires ListsValues(values, ids, m) && forall id :: id in m ==> m[id].id == id
    ensures EnumeratesCustomers(values, m)
  {
    assert forall i :: 0 <= i < |ids| ==> values[i].id == ids[i];
    forall id | id in m
      ensures m[id] in values
    {
      ListedIsIn(values, ids, m, id);
    }
  }

  lemma CustomersListed(m: map<CustomerId, CustomerRecord>)
    requires forall id :: id in m ==> m[id].id == id
    ensures EnumeratesCustomers(Values(m), m)
  {
    var ids := ValuesListed(m);
    ListedCustomers(Values(m), ids, m);
  }

  lemma ListedUsers(values: seq<User>, ids: seq<u32>, m: map<UserId, User>)
    requires ListsValues(values, ids, m) && forall id :: id in m ==> m[id].id == id
    ensures EnumeratesUsers(values, m)
  {
    assert forall i :: 0 <= i < |ids| ==> values[i].id == ids[i];
    forall id | id in m
      ensures m[id] in values
    {
      ListedIsIn(values, ids, m, id);
    }
  }

  lemma UsersListed(m: map<UserId, User>)
    requires forall id :: id in m ==> m[id].id == id
    ensures EnumeratesUsers(Values(m), m)
  {
    var ids := ValuesListed(m);
    ListedUsers(Values(m), ids, m);
  }

  /** A snapshot loads, as the state it was taken from with a tight counter, iff every account owner exists. */
  lemma SnapshotRoundTrip(h: Hasher, app: App)
    requires Saveable(app, h)
    ensures var r := FromSnapshot(h, SnapshotOf(app));
            && (r.Ok? <==> Owned(app.ledger.accounts, app.identities.customers))
            && (r.Ok? ==> ReloadOf(app, r.value))
  {
    CustomersListed(app.identities.customers);
    UsersListed(app.identities.users);
    AccountsListed(app.ledger.accounts);
    SaveableAssembles(h, app, Values(app.identities.customers), Values(app.identities.users),
                      Values(app.ledger.accounts));
  }

  /** The lists are the records of the state, once each. */
  ghost predicate ListsOf(customers: seq<CustomerRecord>, users: seq<User>, accounts: seq<Account>,
                          entries: seq<AuditEntry>, app: App)
  {
    && EnumeratesCustomers(customers, app.identities.customers) && EnumeratesUsers(users, app.identities.users)
    && Enumerates(accounts, app.ledger.accounts) && entries == app.log.entries
  }

  lemma AssembledLists(h: Hasher, customers: seq<CustomerRecord>, users: seq<User>, accounts: seq<Account>,
                       entries: seq<AuditEntry>)
    requires Assemble(h, customers, users, accounts, entries).Ok?
    ensures ListsOf(customers, users, accounts, entries, Assemble(h, customers, users, accounts, entries).value)
  {
    ImportEnumerates(h, customers, users);
    ImportedIsLoadable(accounts);
    ImportLogExact(entries, Assemble(h, customers, users, accounts, entries).value.log);
  }

  lemma ListsAssemble(h: Hasher, customers: seq<CustomerRecord>, users: seq<User>, accounts: seq<Account>, app: App)
    requires Loaded(app, h) && ListsOf(customers, users, accounts, app.log.entries, app)
    ensures Assemble(h, customers, users, accounts, app.log.entries) == Ok(app)
  {
    SaveableAssembles(h, app, customers, users, accounts);
    TightCounterUnique(app.ledger, Assemble(h, customers, users, accounts, app.log.entries).value.ledger);
  }

  /**
   * Records assemble to a state iff the state is consistent, owned and tightly counted and the lists are its records.
   */
  lemma AssembleIff(h: Hasher, customers: seq<CustomerRecord>, users: seq<User>, accounts: seq<Account>,
                    entries: seq<AuditEntry>, app: App)
    ensures Assemble(h, customers, users, accounts, entries) == Ok(app) <==>
            Loaded(app, h) && ListsOf(customers, users, accounts, entries, app)
  {
    if Assemble(h, customers, users, accounts, entries) == Ok(app) {
      AssembledIsLoaded(h, customers, users, accounts, entries);
      AssembledLists(h, customers, users, accounts, entries);
    }
    if Loaded(app, h) && ListsOf(customers, users, accounts, entries, app) {
      ListsAssemble(h, customers, users, accounts, app);
    }
  }

  lemma AssembleKnowsNoVersion(h: Hasher, customers: seq<CustomerRecord>, users: seq<User>, accounts: seq<Account>,
                               entries: seq<AuditEntry>)
    ensures var r := Assemble(h, customers, users, accounts, entries); r.Err? ==> !r.error.UnsupportedVersion?
  {
    OwnerFaultNames(if FromAccounts(accounts).Ok? then Values(FromAccounts(accounts).value.accounts) else [],
                    if Identity.FromRecords(h, customers, users).Ok?
                    then Identity.FromRecords(h, customers, users).value.customers else map[]);
  }

  /** A reported owner fault names the first account of the list whose owner does not exist. */
  lemma {:induction false} OwnerFaultNames(accounts: seq<Account>, customers: map<CustomerId, CustomerRecord>)
    ensures OwnerFault(accounts, customers).Some? ==>
              exists k :: 0 <= k < |accounts| && accounts[k].ownerId.Some? && accounts[k].ownerId.value !in customers
                && (forall j :: 0 <= j < k && accounts[j].ownerId.Some? ==> accounts[j].ownerId.value in customers)
                && OwnerFault(accounts, customers) ==
                   Some(InvalidAccountOwner(accounts[k].id, accounts[k].ownerId.value))
  {
    if accounts != [] && OwnerFault(accounts[1..], customers).Some?
       && !(accounts[0].ownerId.Some? && accounts[0].ownerId.value !in customers) {
      var rest := accounts[1..];
      OwnerFaultNames(rest, customers);
      var k :| 0 <= k < |rest| && rest[k].ownerId.Some? && rest[k].ownerId.value !in customers
        && (forall j :: 0 <= j < k && rest[j].ownerId.Some? ==> rest[j].ownerId.value in customers)
        && OwnerFault(rest, customers) == Some(InvalidAccountOwner(rest[k].id, rest[k].ownerId.value));
      assert accounts[k + 1] == rest[k];
      assert forall j :: 1 <= j < k + 1 ==> accounts[j] == rest[j - 1];
    }
  }

  /**
   * A snapshot of version 2 or 3, and no other, loads as a state iff its lists are the records of that
   * state, once each, all of them are valid, owners exist and the transaction counter is tight.
   */
  lemma SnapshotIff(h: Hasher, s: AppSnapshot, app: App)
    ensures FromSnapshot(h, s) == Ok(app) <==>
            && (s.version == 2 || s.version == 3)
            && Loaded(app, h) && ListsOf(s.customers, s.users, s.accounts, s.auditEntries, app)
    ensures FromSnapshot(h, s) == Err(UnsupportedVersion(s.version)) <==> s.version != 2 && s.version != 3
  {
    AssembleIff(h, s.customers, s.users, s.accounts, s.auditEntries, app);
    AssembleKnowsNoVersion(h, s.customers, s.users, s.accounts, s.auditEntries);
  }
}
