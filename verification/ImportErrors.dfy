/** Where an import stops and what it reports: the first record that cannot follow the ones before it. */
module ImportErrors {
  import opened Wrappers
  import opened Numbers
  import opened Text
  import opened Domain
  import opened Ledgers
  import opened Imports
  import opened Identity
  import opened IdentityLaws
  import opened Audit

  // ---- Customers and users --------------------------------------------------------------------

  /** Why a customer record cannot be added. */
  ghost function CustomerRefusal(s: Identities, c: CustomerRecord): Option<IdentityError> {
    if !NotBlank(c.fullName) then Some(IdentityError.InvalidProfileField("name"))
    else if !IsAddress(NameKey(c.email)) then Some(IdentityError.InvalidProfileField("email"))
    else if c.id in s.customers then Some(CustomerAlreadyExists(c.id))
    else None
  }

  /** Why a user record cannot be added. */
  ghost function UserRefusal(s: Identities, h: Hasher, u: User): Option<IdentityError> {
    if !IsUsername(NameKey(u.username)) then Some(IdentityError.InvalidProfileField("username"))
    else if u.role == Role.Customer && u.customerId == None then Some(RoleRequiresCustomer)
    else if u.role == Role.Customer && u.customerId.value !in s.customers
    then Some(CustomerNotFound(u.customerId.value))
    else if u.role != Role.Customer && u.customerId != None then Some(RoleCannotHaveCustomer)
    else if !h.wellFormed(u.passwordHash) then Some(PasswordHash)
    else if u.id in s.users then Some(UserAlreadyExists(u.id))
    else if UsersNamed(s, NameKey(u.username)) != {} then Some(UsernameAlreadyExists(NameKey(u.username)))
    else None
  }

  lemma UserRefused(s: Identities, h: Hasher, u: User)
    requires Consistent(s)
    ensures UserFault(s, h, u) == UserRefusal(s, h, u)
  {
    UsernameAccepted(u.username);
    LinkMeans(s.customers, u.role, u.customerId);
    LookupIsScan(s, NameKey(u.username));
  }

  lemma {:induction false} CustomersStop(s: Identities, list: seq<CustomerRecord>) returns (k: nat)
    requires AddCustomers(s, list).Err?
    ensures k < |list| && AddCustomers(s, list[..k]).Ok?
    ensures CustomerRefusal(AddCustomers(s, list[..k]).value, list[k]) == Some(AddCustomers(s, list).error)
    decreases |list|
  {
    var c := list[0];
    NameAccepted(c.fullName);
    EmailAccepted(c.email);
    if CustomerRefusal(s, c).Some? {
      k := 0;
    } else {
      var before := CustomersStop(s.(customers := s.customers[c.id := c]), list[1..]);
      k := before + 1;
      assert list[..k][0] == c && list[..k][1..] == list[1..][..before];
    }
  }

  lemma {:induction false} UsersStop(s: Identities, h: Hasher, list: seq<User>) returns (k: nat)
    requires Consistent(s) && HashesFormed(s.users, h) && AddUsers(s, h, list).Err?
    ensures k < |list| && AddUsers(s, h, list[..k]).Ok?
    ensures UserRefusal(AddUsers(s, h, list[..k]).value, h, list[k]) == Some(AddUsers(s, h, list).error)
    decreases |list|
  {
    var u := list[0];
    UserRefused(s, h, u);
    if UserRefusal(s, h, u).Some? {
      k := 0;
    } else {
      AddUserKeeps(s, h, u);
      var before := UsersStop(AddUser(s, u), h, list[1..]);
      k := before + 1;
      assert list[..k][0] == u && list[..k][1..] == list[1..][..before];
    }
  }

  /**
   * A refused identity import reports why the first record that cannot be added, customers before users, cannot be
   * added to the store of those before it.
   */
  lemma IdentityImportStops(h: Hasher, customers: seq<CustomerRecord>, users: seq<User>) returns (k: nat)
    requires FromRecords(h, customers, users).Err?
    ensures var error := FromRecords(h, customers, users).error;
            if FromRecords(h, customers, []).Err? then
              && k < |customers| && FromRecords(h, customers[..k], []).Ok?
              && CustomerRefusal(FromRecords(h, customers[..k], []).value, customers[k]) == Some(error)
            else
              && k < |users| && FromRecords(h, customers, users[..k]).Ok?
              && UserRefusal(FromRecords(h, customers, users[..k]).value, h, users[k]) == Some(error)
  {
    if FromRecords(h, customers, []).Err? {
      k := CustomersStop(NOBODY, customers);
    } else {
      ImportConsistent(h, customers, []);
      k := UsersStop(AddCustomers(NOBODY, customers).value, h, users);
    }
  }

  // ---- Audit entries --------------------------------------------------------------------------

  ghost function EntryIds(entries: seq<AuditEntry>): set<u64> {
    set e | e in entries :: e.id
  }

  lemma {:induction false} CheckStops(entries: seq<AuditEntry>, seen: set<u64>, highest: u64) returns (k: nat)
    requires CheckIds(entries, seen, highest).Err?
    ensures k < |entries| && CheckIds(entries[..k], seen, highest).Ok?
    ensures CheckIds(entries, seen, highest) ==
            Err(if entries[k].id == 0 then InvalidAuditId(0) else DuplicateAuditId(entries[k].id))
    ensures entries[k].id == 0 || entries[k].id in seen + EntryIds(entries[..k])
  {
    var id := entries[0].id;
    if id == 0 || id in seen {
      k := 0;
    } else {
      var before := CheckStops(entries[1..], seen + {id}, if id > highest then id else highest);
      k := before + 1;
      assert entries[..k][0].id == id && entries[..k][1..] == entries[1..][..before];
      assert entries[..k] == [entries[0]] + entries[1..][..before];
    }
  }

  /** A refused audit import reports the first id that is zero or was there before, or else that the last id is used. */
  lemma AuditImportStops(entries: seq<AuditEntry>) returns (k: nat)
    requires ImportEntries(entries).Err?
    ensures k <= |entries| && CheckIds(entries[..k], {}, 0).Ok?
    ensures k < |entries| ==>
              && (entries[k].id == 0 || entries[k].id in EntryIds(entries[..k]))
              && ImportEntries(entries) ==
                 Err(if entries[k].id == 0 then InvalidAuditId(0) else DuplicateAuditId(entries[k].id))
    ensures k == |entries| ==> ImportEntries(entries) == Err(AuditError.ArithmeticOverflow)
                               && U64_MAX in EntryIds(entries)
  {
    if CheckIds(entries, {}, 0).Err? {
      k := CheckStops(entries, {}, 0);
    } else {
      k := |entries|;
      assert entries[..k] == entries;
      CheckExact(entries, {}, 0);
      HighestIdBounds(entries, 0);
    }
  }

  // ---- Accounts -------------------------------------------------------------------------------

  /** Transaction k is the first with an id that is zero or in use. */
  ghost predicate BadEntry(ts: seq<Transaction>, used: set<u64>, k: nat, error: BankError) {
    && k < |ts|
    && (forall i :: 0 <= i < k ==> ts[i].id != 0 && ts[i].id !in used && ts[i].id !in IdSet(ts[..i]))
    && (ts[k].id == 0 || ts[k].id in used + IdSet(ts[..k]))
    && error == if ts[k].id == 0 then InvalidTransactionId(0) else DuplicateTransactionId(ts[k].id)
  }

  /** Why an account is refused after others with these ids, whose transactions have those ids. */
  ghost predicate AccountRefused(a: Account, taken: set<AccountId>, used: set<u64>, error: BankError) {
    if !NotBlank(a.name) then error == BankError.InvalidProfileField("name")
    else if !IsAddress(NameKey(a.email)) then error == BankError.InvalidProfileField("email")
    else if a.balance < 0 || a.loanBalance < 0 then error == InvalidAmount
    else
      || (exists k :: BadEntry(a.transactions, used, k, error))
      || (&& DistinctIds(a.transactions) && (forall t :: t in a.transactions ==> t.id != 0 && t.id !in used)
          && a.id in taken && error == AccountAlreadyExists(a.id))
  }

  ghost function AccountIds(accounts: seq<Account>): set<AccountId> {
    set a | a in accounts :: a.id
  }

  lemma {:induction false} ScanStops(ts: seq<Transaction>, seen: Seen) returns (k: nat)
    requires Scan(ts, seen).Err?
    ensures BadEntry(ts, seen.ids, k, Scan(ts, seen).error)
  {
    var id := ts[0].id;
    if id == 0 || id in seen.ids {
      k := 0;
    } else {
      var before := ScanStops(ts[1..], Imports.Note(seen, id));
      k := before + 1;
      forall i | 1 <= i <= k
        ensures IdSet(ts[..i]) == {id} + IdSet(ts[1..][..i - 1]) && ts[i] == ts[1..][i - 1]
      {
        assert ts[..i][1..] == ts[1..][..i - 1];
      }
    }
  }

  lemma AccountStops(a: Account, taken: set<AccountId>, seen: Seen)
    ensures AccountFault(a).Some? ==> AccountRefused(a, taken, seen.ids, AccountFault(a).value)
    ensures AccountFault(a).None? && Scan(a.transactions, seen).Err? ==>
              AccountRefused(a, taken, seen.ids, Scan(a.transactions, seen).error)
    ensures AccountFault(a).None? && Scan(a.transactions, seen).Ok? && a.id in taken ==>
              AccountRefused(a, taken, seen.ids, AccountAlreadyExists(a.id))
  {
    NameAccepted(a.name);
    EmailAccepted(a.email);
    ScanExact(a.transactions, seen);
    if Scan(a.transactions, seen).Err? {
      var k := ScanStops(a.transactions, seen);
    }
  }

  lemma JournalFirst(accounts: seq<Account>, k: nat)
    requires k < |accounts|
    ensures Journal(accounts[..k + 1]) == accounts[0].transactions + Journal(accounts[1..][..k])
    ensures AccountIds(accounts[..k + 1]) == {accounts[0].id} + AccountIds(accounts[1..][..k])
  {
    assert accounts[..k + 1][1..] == accounts[1..][..k];
    assert accounts[..k + 1] == [accounts[0]] + accounts[1..][..k];
  }

  lemma {:induction false} RestStops(accounts: seq<Account>, done: map<AccountId, Account>, seen: Seen)
    returns (k: nat)
    requires ImportRest(accounts, done, seen).Err?
    ensures k <= |accounts| && Scan(Journal(accounts[..k]), seen).Ok?
    ensures ImportRest(accounts[..k], done, seen).Ok? || Scan(Journal(accounts[..k]), seen).value.highest == U64_MAX
    ensures k < |accounts| ==>
              AccountRefused(accounts[k], done.Keys + AccountIds(accounts[..k]),
                             Scan(Journal(accounts[..k]), seen).value.ids, ImportRest(accounts, done, seen).error)
    ensures k == |accounts| ==>
              ImportRest(accounts, done, seen).error == BankError.ArithmeticOverflow
              && Scan(Journal(accounts[..k]), seen).value.highest == U64_MAX
    decreases |accounts|
  {
    if accounts == [] {
      k := 0;
    } else {
      var a := accounts[0];
      AccountStops(a, done.Keys, seen);
      if AccountFault(a).Some? || Scan(a.transactions, seen).Err? || a.id in done {
        k := 0;
        assert AccountIds(accounts[..0]) == {} && done.Keys + {} == done.Keys;
      } else {
        var rest, seen' := accounts[1..], Scan(a.transactions, seen).value;
        var before := RestStops(rest, done[a.id := a], seen');
        k := before + 1;
        JournalFirst(accounts, before);
        assert accounts[..k][0] == a && accounts[..k][1..] == rest[..before];
        ScanConcat(a.transactions, Journal(rest[..before]), seen);
        assert (done[a.id := a]).Keys + AccountIds(rest[..before]) == done.Keys + AccountIds(accounts[..k]);
      }
    }
  }

  /**
   * A refused ledger import reports why the first account that cannot follow the ones before it is refused, or
   * else that the last transaction id is used.
   */
  lemma LedgerImportStops(accounts: seq<Account>) returns (k: nat)
    requires FromAccounts(accounts).Err?
    ensures k <= |accounts| && (FromAccounts(accounts[..k]).Ok? || U64_MAX in IdSet(Journal(accounts[..k])))
    ensures k < |accounts| ==>
              AccountRefused(accounts[k], AccountIds(accounts[..k]), IdSet(Journal(accounts[..k])),
                             FromAccounts(accounts).error)
    ensures k == |accounts| ==> FromAccounts(accounts).error == BankError.ArithmeticOverflow
                                && U64_MAX in IdSet(Journal(accounts))
  {
    k := RestStops(accounts, map[], NOTHING_SEEN);
    var journal := Journal(accounts[..k]);
    ScanExact(journal, NOTHING_SEEN);
    HighestBounds(journal, 0);
    assert accounts[..|accounts|] == accounts;
    assert {} + IdSet(journal) == IdSet(journal);
    var none: map<AccountId, Account> := map[];
    assert none.Keys + AccountIds(accounts[..k]) == AccountIds(accounts[..k]);
  }
}
