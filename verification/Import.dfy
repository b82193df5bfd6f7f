/** Rebuilding a ledger from a list of accounts. */
module Imports {
  import opened Wrappers
  import opened Numbers
  import opened Text
  import opened Domain
  import opened Ledgers
  import opened LedgerRuns

  /** Why a single account is refused, before its transactions are looked at. */
  function AccountFault(a: Account): Option<BankError> {
    if CleanName(a.name).None? then Some(InvalidProfileField("name"))
    else if CleanEmail(a.email).None? then Some(InvalidProfileField("email"))
    else if a.balance < 0 || a.loanBalance < 0 then Some(InvalidAmount)
    else None
  }

  datatype Seen = Seen(ids: set<u64>, highest: u64)

  function Scan(ts: seq<Transaction>, seen: Seen): Result<Seen, BankError> {
    if ts == [] then Ok(seen)
    else if ts[0].id == 0 then Err(InvalidTransactionId(0))
    else if ts[0].id in seen.ids then Err(DuplicateTransactionId(ts[0].id))
    else Scan(ts[1..], Note(seen, ts[0].id))
  }

  function Note(seen: Seen, id: u64): Seen {
    Seen(seen.ids + {id}, if id > seen.highest then id else seen.highest)
  }

  function ImportRest(accounts: seq<Account>, done: map<AccountId, Account>, seen: Seen): Result<Ledger, BankError> {
    if accounts == [] then
      if seen.highest == U64_MAX then Err(ArithmeticOverflow) else Ok(Ledger(done, seen.highest + 1))
    else
      var a := accounts[0];
      if AccountFault(a).Some? then Err(AccountFault(a).value)
      else
        match Scan(a.transactions, seen)
        case Err(error) => Err(error)
        case Ok(seen') =>
          if a.id in done then Err(AccountAlreadyExists(a.id))
          else ImportRest(accounts[1..], done[a.id := a], seen')
  }

  const NOTHING_SEEN := Seen({}, 0)

  function FromAccounts(accounts: seq<Account>): Result<Ledger, BankError> {
    ImportRest(accounts, map[], NOTHING_SEEN)
  }

  // ---- Which lists are accepted ---------------------------------------------------------------

  function IdSet(ts: seq<Transaction>): set<u64> {
    if ts == [] then {} else {ts[0].id} + IdSet(ts[1..])
  }

  lemma {:induction false} IdSetHas(ts: seq<Transaction>, i: nat)
    requires i < |ts|
    ensures ts[i].id in IdSet(ts)
  {
    if i > 0 {
      IdSetHas(ts[1..], i - 1);
    }
  }

  lemma {:induction false} IdSetFrom(ts: seq<Transaction>, id: u64) returns (i: nat)
    requires id in IdSet(ts)
    ensures i < |ts| && ts[i].id == id
  {
    if ts[0].id == id {
      i := 0;
    } else {
      var j := IdSetFrom(ts[1..], id);
      i := j + 1;
    }
  }

  ghost predicate DistinctIds(ts: seq<Transaction>) {
    forall i, j :: 0 <= i < j < |ts| ==> ts[i].id != ts[j].id
  }

  /** The highest id of a list, or the given one when that is higher. */
  function Highest(ts: seq<Transaction>, from: u64): u64 {
    if ts == [] then from else Highest(ts[1..], if ts[0].id > from then ts[0].id else from)
  }

  /** A scan succeeds exactly on positive, distinct, unseen ids, and then remembers all of them. */
  lemma {:induction false} ScanExact(ts: seq<Transaction>, seen: Seen)
    ensures Scan(ts, seen).Ok? <==>
            DistinctIds(ts) && forall i :: 0 <= i < |ts| ==> ts[i].id != 0 && ts[i].id !in seen.ids
    ensures Scan(ts, seen).Ok? ==> Scan(ts, seen).value == Seen(seen.ids + IdSet(ts), Highest(ts, seen.highest))
  {
    if ts == [] {
      assert seen.ids + IdSet(ts) == seen.ids;
    } else {
      var rest, noted := ts[1..], Note(seen, ts[0].id);
      ScanExact(rest, noted);
      assert forall i :: 0 <= i < |rest| ==> rest[i] == ts[i + 1];
      assert forall i :: 1 <= i < |ts| ==> ts[i] == rest[i - 1];
      assert noted.ids + IdSet(rest) == seen.ids + IdSet(ts);
      if ts[0].id != 0 && ts[0].id !in seen.ids {
        assert Scan(ts, seen) == Scan(rest, noted);
        if Scan(rest, noted).Ok? {
          forall i, j | 0 <= i < j < |ts|
            ensures ts[i].id != ts[j].id
          {
            assert ts[j] == rest[j - 1];
            if i > 0 {
              assert ts[i] == rest[i - 1];
            }
          }
        }
      }
    }
  }

  lemma {:induction false} HighestBounds(ts: seq<Transaction>, from: u64)
    ensures Highest(ts, from) >= from
    ensures forall i :: 0 <= i < |ts| ==> ts[i].id <= Highest(ts, from)
    ensures Highest(ts, from) == from || Highest(ts, from) in IdSet(ts)
  {
    if ts != [] {
      HighestBounds(ts[1..], if ts[0].id > from then ts[0].id else from);
      forall i | 0 <= i < |ts|
        ensures ts[i].id <= Highest(ts, from)
      {
        if i > 0 {
          assert ts[i] == ts[1..][i - 1];
        }
      }
    }
  }

  /** All transactions of a list of accounts, account by account. */
  function Journal(accounts: seq<Account>): seq<Transaction> {
    if accounts == [] then [] else accounts[0].transactions + Journal(accounts[1..])
  }

  /** The accounts of a list added to a map, later ones over earlier ones. */
  function Merge(done: map<AccountId, Account>, accounts: seq<Account>): map<AccountId, Account>
    decreases accounts
  {
    if accounts == [] then done else Merge(done[accounts[0].id := accounts[0]], accounts[1..])
  }

  ghost predicate DistinctAccounts(accounts: seq<Account>) {
    forall i, j :: 0 <= i < j < |accounts| ==> accounts[i].id != accounts[j].id
  }

  ghost predicate Faultless(accounts: seq<Account>) {
    forall i :: 0 <= i < |accounts| ==> AccountFault(accounts[i]).None?
  }

  ghost predicate NewTo(accounts: seq<Account>, done: map<AccountId, Account>) {
    forall i :: 0 <= i < |accounts| ==> accounts[i].id !in done
  }

  lemma {:induction false} ScanConcat(a: seq<Transaction>, b: seq<Transaction>, seen: Seen)
    ensures Scan(a + b, seen) == match Scan(a, seen) case Err(error) => Err(error) case Ok(seen') => Scan(b, seen')
  {
    if a == [] {
      assert a + b == b;
    } else {
      assert (a + b)[1..] == a[1..] + b;
      ScanConcat(a[1..], b, Note(seen, a[0].id));
    }
  }

  /** Importing account by account is one scan of the whole journal, plus the checks on the accounts. */
  lemma {:induction false} ImportIsScan(accounts: seq<Account>, done: map<AccountId, Account>, seen: Seen)
    ensures ImportRest(accounts, done, seen).Ok? <==>
            && Faultless(accounts) && DistinctAccounts(accounts) && NewTo(accounts, done)
            && Scan(Journal(accounts), seen).Ok? && Scan(Journal(accounts), seen).value.highest < U64_MAX
    ensures ImportRest(accounts, done, seen).Ok? ==>
              ImportRest(accounts, done, seen).value ==
              Ledger(Merge(done, accounts), Scan(Journal(accounts), seen).value.highest + 1)
  {
    if accounts != [] {
      var a, rest := accounts[0], accounts[1..];
      ScanConcat(a.transactions, Journal(rest), seen);
      var scan := Scan(a.transactions, seen);
      assert forall i :: 0 <= i < |rest| ==> rest[i] == accounts[i + 1];
      assert forall i :: 1 <= i < |accounts| ==> accounts[i] == rest[i - 1];
      if scan.Ok? {
        ImportIsScan(rest, done[a.id := a], scan.value);
        SplitFirst(accounts, done);
      }
    }
  }

  lemma SplitFirst(accounts: seq<Account>, done: map<AccountId, Account>)
    requires accounts != []
    ensures var (a, rest) := (accounts[0], accounts[1..]);
            Faultless(accounts) && DistinctAccounts(accounts) && NewTo(accounts, done) <==>
            && AccountFault(a).None? && a.id !in done
            && Faultless(rest) && DistinctAccounts(rest) && NewTo(rest, done[a.id := a])
  {
    var a, rest := accounts[0], accounts[1..];
    assert forall i :: 0 <= i < |rest| ==> rest[i] == accounts[i + 1];
    if a.id !in done && AccountFault(a).None? && Faultless(rest) && DistinctAccounts(rest)
        && NewTo(rest, done[a.id := a]) {
      forall i, j | 0 <= i < j < |accounts|
        ensures accounts[i].id != accounts[j].id
      {
        assert accounts[j] == rest[j - 1];
        if i > 0 {
          assert accounts[i] == rest[i - 1];
        }
      }
      forall i | 0 <= i < |accounts|
        ensures AccountFault(accounts[i]).None? && accounts[i].id !in done
      {
        if i > 0 {
          assert accounts[i] == rest[i - 1];
        }
      }
    }
  }

  // ---- What an imported ledger looks like -----------------------------------------------------

  /** The ledgers an import can produce, apart from the counter. */
  ghost predicate Loadable(l: Ledger) {
    && Valid(l)
    && (forall id :: id in l.accounts ==> LoadableAccount(l.accounts[id]))
    && AllApart(l)
  }

  ghost predicate LoadableAccount(a: Account) {
    && AccountFault(a).None? && DistinctIds(a.transactions)
    && forall i :: 0 <= i < |a.transactions| ==> 1 <= a.transactions[i].id < U64_MAX
  }

  /** The counter is one more than the highest id in use, or 1 when there is none. */
  ghost predicate TightCounter(l: Ledger) {
    && l.next >= 1
    && (forall id, i :: id in l.accounts && 0 <= i < |l.accounts[id].transactions| ==>
        l.accounts[id].transactions[i].id < l.next)
    && (l.next > 1 ==> exists id, i :: id in l.accounts && 0 <= i < |l.accounts[id].transactions|
                                       && l.accounts[id].transactions[i].id == l.next - 1)
  }

  /** A list that holds every account of a map once. */
  ghost predicate Enumerates(accounts: seq<Account>, m: map<AccountId, Account>) {
    && DistinctAccounts(accounts)
    && (forall i :: 0 <= i < |accounts| ==> accounts[i].id in m && m[accounts[i].id] == accounts[i])
    && forall id :: id in m ==> m[id].id == id && m[id] in accounts
  }

  ghost predicate HasId(accounts: seq<Account>, id: AccountId) {
    exists i :: 0 <= i < |accounts| && accounts[i].id == id
  }

  lemma HasIdFirst(accounts: seq<Account>, id: AccountId)
    requires accounts != []
    ensures HasId(accounts, id) <==> id == accounts[0].id || HasId(accounts[1..], id)
  {
    var rest := accounts[1..];
    if id == accounts[0].id {
      assert HasId(accounts, id);
    }
    if i :| 0 <= i < |rest| && rest[i].id == id {
      assert accounts[i + 1].id == id;
    }
    if i :| 1 <= i < |accounts| && accounts[i].id == id {
      assert rest[i - 1].id == id;
    }
  }

  lemma {:induction false} MergeKeys(accounts: seq<Account>, done: map<AccountId, Account>)
    ensures forall id :: id in Merge(done, accounts) <==> id in done || HasId(accounts, id)
  {
    if accounts != [] {
      var a, rest := accounts[0], accounts[1..];
      MergeKeys(rest, done[a.id := a]);
      forall id
        ensures HasId(accounts, id) <==> id == a.id || HasId(rest, id)
      {
        HasIdFirst(accounts, id);
      }
    }
  }

  lemma {:induction false} MergeKeepsDone(accounts: seq<Account>, done: map<AccountId, Account>, id: AccountId)
    requires NewTo(accounts, done) && DistinctAccounts(accounts) && id in done
    ensures id in Merge(done, accounts) && Merge(done, accounts)[id] == done[id]
  {
    if accounts != [] {
      var a, rest := accounts[0], accounts[1..];
      assert forall i :: 0 <= i < |rest| ==> rest[i] == accounts[i + 1];
      MergeKeepsDone(rest, done[a.id := a], id);
    }
  }

  lemma {:induction false} MergeHolds(accounts: seq<Account>, done: map<AccountId, Account>, k: nat)
    requires NewTo(accounts, done) && DistinctAccounts(accounts) && k < |accounts|
    ensures accounts[k].id in Merge(done, accounts) && Merge(done, accounts)[accounts[k].id] == accounts[k]
  {
    var a, rest := accounts[0], accounts[1..];
    assert forall i :: 0 <= i < |rest| ==> rest[i] == accounts[i + 1];
    if k == 0 {
      MergeKeepsDone(rest, done[a.id := a], a.id);
    } else {
      MergeHolds(rest, done[a.id := a], k - 1);
    }
  }

  lemma MergeEnumerates(accounts: seq<Account>, done: map<AccountId, Account>)
    requires DistinctAccounts(accounts) && NewTo(accounts, done)
    ensures forall id :: id in Merge(done, accounts) <==> id in done || HasId(accounts, id)
    ensures forall i :: 0 <= i < |accounts| ==>
              accounts[i].id in Merge(done, accounts) && Merge(done, accounts)[accounts[i].id] == accounts[i]
  {
    MergeKeys(accounts, done);
    forall i | 0 <= i < |accounts|
      ensures accounts[i].id in Merge(done, accounts) && Merge(done, accounts)[accounts[i].id] == accounts[i]
    {
      MergeHolds(accounts, done, i);
    }
  }

  lemma {:induction false} JournalFrom(accounts: seq<Account>, k: nat) returns (i: nat, j: nat)
    requires k < |Journal(accounts)|
    ensures i < |accounts| && j < |accounts[i].transactions| && accounts[i].transactions[j] == Journal(accounts)[k]
  {
    var n := |accounts[0].transactions|;
    if k < n {
      i, j := 0, k;
    } else {
      var p, q := JournalFrom(accounts[1..], k - n);
      i, j := p + 1, q;
    }
  }

  lemma {:induction false} JournalHas(accounts: seq<Account>, i: nat, j: nat) returns (k: nat)
    requires i < |accounts| && j < |accounts[i].transactions|
    ensures k < |Journal(accounts)| && Journal(accounts)[k] == accounts[i].transactions[j]
  {
    if i == 0 {
      k := j;
    } else {
      var p := JournalHas(accounts[1..], i - 1, j);
      k := |accounts[0].transactions| + p;
    }
  }

  ghost predicate ListApart(accounts: seq<Account>) {
    && (forall i :: 0 <= i < |accounts| ==> DistinctIds(accounts[i].transactions))
    && forall i, j :: 0 <= i < j < |accounts| ==> IdsApart(accounts[i], accounts[j])
  }

  /** The ids of a journal are distinct iff they are within each account and between any two. */
  lemma {:induction false} JournalDistinct(accounts: seq<Account>)
    ensures DistinctIds(Journal(accounts)) <==> ListApart(accounts)
  {
    if accounts != [] {
      var a, rest := accounts[0], accounts[1..];
      JournalDistinct(rest);
      if ListApart(accounts) {
        ApartGivesDistinct(accounts);
      }
      if DistinctIds(Journal(accounts)) {
        DistinctGivesApart(accounts);
      }
    }
  }

  lemma ApartGivesDistinct(accounts: seq<Account>)
    requires accounts != [] && ListApart(accounts)
    requires ListApart(accounts[1..]) ==> DistinctIds(Journal(accounts[1..]))
    ensures DistinctIds(Journal(accounts))
  {
    var a, rest := accounts[0], accounts[1..];
    assert ListApart(rest);
    var n := |a.transactions|;
    forall i, j | 0 <= i < j < |Journal(accounts)|
      ensures Journal(accounts)[i].id != Journal(accounts)[j].id
    {
      if i < n <= j {
        var p, q := JournalFrom(rest, j - n);
        assert IdsApart(accounts[0], accounts[p + 1]);
      } else if i >= n {
        assert Journal(rest)[i - n].id != Journal(rest)[j - n].id;
      }
    }
  }

  lemma JournalParts(accounts: seq<Account>)
    requires accounts != [] && DistinctIds(Journal(accounts))
    ensures DistinctIds(accounts[0].transactions) && DistinctIds(Journal(accounts[1..]))
  {
    var n, whole := |accounts[0].transactions|, Journal(accounts);
    assert forall i :: 0 <= i < n ==> whole[i] == accounts[0].transactions[i];
    assert forall i :: 0 <= i < |Journal(accounts[1..])| ==> whole[n + i] == Journal(accounts[1..])[i];
  }

  /** The first account shares no id with a later one. */
  lemma {:induction false} FirstApart(accounts: seq<Account>, j: nat)
    requires accounts != [] && DistinctIds(Journal(accounts)) && 0 < j < |accounts|
    ensures IdsApart(accounts[0], accounts[j])
  {
    var own, other, whole := accounts[0].transactions, accounts[j].transactions, Journal(accounts);
    forall p, q | 0 <= p < |own| && 0 <= q < |other|
      ensures own[p].id != other[q].id
    {
      var k := JournalHas(accounts[1..], j - 1, q);
      assert whole[p] == own[p] && whole[|own| + k] == other[q];
      assert whole[p].id != whole[|own| + k].id;
    }
  }

  lemma ApartWithFirst(accounts: seq<Account>)
    requires accounts != [] && ListApart(accounts[1..]) && DistinctIds(accounts[0].transactions)
    requires forall j :: 0 < j < |accounts| ==> IdsApart(accounts[0], accounts[j])
    ensures ListApart(accounts)
  {
    var rest := accounts[1..];
    assert forall i :: 1 <= i < |accounts| ==> accounts[i] == rest[i - 1];
    forall i, j | 0 <= i < j < |accounts|
      ensures IdsApart(accounts[i], accounts[j])
    {
      if i > 0 {
        assert IdsApart(rest[i - 1], rest[j - 1]);
      }
    }
  }

  lemma DistinctGivesApart(accounts: seq<Account>)
    requires accounts != [] && DistinctIds(Journal(accounts))
    requires DistinctIds(Journal(accounts[1..])) ==> ListApart(accounts[1..])
    ensures ListApart(accounts)
  {
    JournalParts(accounts);
    forall j | 0 < j < |accounts|
      ensures IdsApart(accounts[0], accounts[j])
    {
      FirstApart(accounts, j);
    }
    ApartWithFirst(accounts);
  }

  // ---- The two directions ---------------------------------------------------------------------

  /** What acceptance means for the list, and what ledger it gives. */
  lemma AcceptedMeans(accounts: seq<Account>)
    requires FromAccounts(accounts).Ok?
    ensures var journal := Journal(accounts);
            && Faultless(accounts) && DistinctAccounts(accounts) && DistinctIds(journal)
            && (forall k :: 0 <= k < |journal| ==> journal[k].id != 0)
            && Highest(journal, 0) < U64_MAX
            && FromAccounts(accounts).value == Ledger(Merge(map[], accounts), Highest(journal, 0) + 1)
  {
    ImportIsScan(accounts, map[], NOTHING_SEEN);
    ScanExact(Journal(accounts), NOTHING_SEEN);
  }

  lemma MergedEnumerates(accounts: seq<Account>)
    requires DistinctAccounts(accounts)
    ensures Enumerates(accounts, Merge(map[], accounts))
  {
    MergeEnumerates(accounts, map[]);
  }

  /** Whatever list is accepted, the ledger holds exactly its accounts, is loadable and counts tightly. */
  lemma ImportedIsLoadable(accounts: seq<Account>)
    requires FromAccounts(accounts).Ok?
    ensures var l := FromAccounts(accounts).value;
            Enumerates(accounts, l.accounts) && Loadable(l) && TightCounter(l)
  {
    var l := FromAccounts(accounts).value;
    AcceptedMeans(accounts);
    MergedEnumerates(accounts);
    JournalDistinct(accounts);
    HighestBounds(Journal(accounts), 0);
    ListLedger(accounts, l);
    ListCounter(accounts, l);
  }

  lemma EntryOfList(accounts: seq<Account>, l: Ledger, q: AccountId, i: nat) returns (k: nat)
    requires Enumerates(accounts, l.accounts) && q in l.accounts && i < |l.accounts[q].transactions|
    ensures k < |Journal(accounts)| && Journal(accounts)[k] == l.accounts[q].transactions[i]
  {
    var p :| 0 <= p < |accounts| && accounts[p] == l.accounts[q];
    k := JournalHas(accounts, p, i);
  }

  lemma ListAccount(accounts: seq<Account>, l: Ledger, q: AccountId)
    requires Enumerates(accounts, l.accounts) && Faultless(accounts) && ListApart(accounts) && q in l.accounts
    requires forall k :: 0 <= k < |Journal(accounts)| ==> 1 <= Journal(accounts)[k].id < U64_MAX
    ensures LoadableAccount(l.accounts[q])
  {
    var p :| 0 <= p < |accounts| && accounts[p] == l.accounts[q];
    forall i | 0 <= i < |l.accounts[q].transactions|
      ensures 1 <= l.accounts[q].transactions[i].id < U64_MAX
    {
      var k := JournalHas(accounts, p, i);
    }
  }

  lemma ListPair(accounts: seq<Account>, l: Ledger, p: AccountId, q: AccountId)
    requires Enumerates(accounts, l.accounts) && ListApart(accounts)
    requires p in l.accounts && q in l.accounts && p != q
    ensures IdsApart(l.accounts[p], l.accounts[q])
  {
    var i :| 0 <= i < |accounts| && accounts[i] == l.accounts[p];
    var j :| 0 <= j < |accounts| && accounts[j] == l.accounts[q];
    if i < j {
      assert IdsApart(accounts[i], accounts[j]);
    } else {
      assert IdsApart(accounts[j], accounts[i]);
    }
  }

  lemma ListLedger(accounts: seq<Account>, l: Ledger)
    requires Enumerates(accounts, l.accounts) && Faultless(accounts) && ListApart(accounts)
    requires forall k :: 0 <= k < |Journal(accounts)| ==> 1 <= Journal(accounts)[k].id < U64_MAX
    ensures Loadable(l)
  {
    forall q | q in l.accounts
      ensures LoadableAccount(l.accounts[q])
    {
      ListAccount(accounts, l, q);
    }
    forall p, q | p in l.accounts && q in l.accounts && p != q
      ensures IdsApart(l.accounts[p], l.accounts[q])
    {
      ListPair(accounts, l, p, q);
    }
  }

  lemma ListCounter(accounts: seq<Account>, l: Ledger)
    requires Enumerates(accounts, l.accounts) && l.next == Highest(Journal(accounts), 0) + 1
    ensures TightCounter(l)
  {
    var journal := Journal(accounts);
    HighestBounds(journal, 0);
    forall q, i | q in l.accounts && 0 <= i < |l.accounts[q].transactions|
      ensures l.accounts[q].transactions[i].id < l.next
    {
      var k := EntryOfList(accounts, l, q, i);
    }
    if l.next > 1 {
      var k := IdSetFrom(journal, l.next - 1);
      var i, j := JournalFrom(accounts, k);
      var q := accounts[i].id;
      assert q in l.accounts && l.accounts[q].transactions[j].id == l.next - 1;
    }
  }

  /** Conversely every list of the accounts of a loadable ledger is accepted, whatever its order. */
  lemma LoadableIsImported(accounts: seq<Account>, l: Ledger)
    requires Loadable(l) && Enumerates(accounts, l.accounts)
    ensures FromAccounts(accounts).Ok?
    ensures FromAccounts(accounts).value.accounts == l.accounts
  {
    var journal := Journal(accounts);
    forall i, j | 0 <= i < j < |accounts|
      ensures IdsApart(accounts[i], accounts[j])
    {
      assert IdsApart(l.accounts[accounts[i].id], l.accounts[accounts[j].id]);
    }
    JournalDistinct(accounts);
    forall k | 0 <= k < |journal|
      ensures 1 <= journal[k].id < U64_MAX
    {
      var i, j := JournalFrom(accounts, k);
      assert LoadableAccount(l.accounts[accounts[i].id]);
    }
    ImportIsScan(accounts, map[], NOTHING_SEEN);
    ScanExact(journal, NOTHING_SEEN);
    HighestBounds(journal, 0);
    if Highest(journal, 0) > 0 {
      var k := IdSetFrom(journal, Highest(journal, 0));
    }
    MergeEnumerates(accounts, map[]);
    SameMap(accounts, l.accounts, Merge(map[], accounts));
  }

  lemma SameMap(accounts: seq<Account>, m: map<AccountId, Account>, n: map<AccountId, Account>)
    requires Enumerates(accounts, m)
    requires forall id :: id in n <==> HasId(accounts, id)
    requires forall i :: 0 <= i < |accounts| ==> accounts[i].id in n && n[accounts[i].id] == accounts[i]
    ensures m == n
  {
    forall id | id in m
      ensures id in n && n[id] == m[id]
    {
      var p :| 0 <= p < |accounts| && accounts[p] == m[id];
      assert HasId(accounts, id);
    }
    forall id | id in n
      ensures id in m
    {
      var p :| 0 <= p < |accounts| && accounts[p].id == id;
    }
  }

  lemma TightCounterUnique(l: Ledger, m: Ledger)
    requires l.accounts == m.accounts && TightCounter(l) && TightCounter(m)
    ensures l == m
  {
  }

  /** An import gives a ledger iff the list is its accounts, once each, they are loadable, and it counts tightly. */
  lemma ImportIff(accounts: seq<Account>, l: Ledger)
    ensures FromAccounts(accounts) == Ok(l) <==> Enumerates(accounts, l.accounts) && Loadable(l) && TightCounter(l)
  {
    if FromAccounts(accounts) == Ok(l) {
      ImportedIsLoadable(accounts);
    }
    if Enumerates(accounts, l.accounts) && Loadable(l) && TightCounter(l) {
      LoadableIsImported(accounts, l);
      ImportedIsLoadable(accounts);
      TightCounterUnique(l, FromAccounts(accounts).value);
    }
  }

  /**
   * What is asked of a single account: a name, an address, no negative amount, positive and distinct ids below the
   * last.
   */
  lemma LoadableMeans(a: Account)
    ensures LoadableAccount(a) <==>
            && (exists i :: 0 <= i < |a.name| && !IsSpace(a.name[i])) && IsAddress(NameKey(a.email))
            && a.balance >= 0 && a.loanBalance >= 0
            && (forall i, j :: 0 <= i < j < |a.transactions| ==> a.transactions[i].id != a.transactions[j].id)
            && (forall i :: 0 <= i < |a.transactions| ==> 0 < a.transactions[i].id < U64_MAX)
  {
    NameAccepted(a.name);
    EmailAccepted(a.email);
  }

  lemma SoundAccountLoadable(a: Account, next: u64)
    requires AccountSound(a, next) && a.balance >= 0
    ensures LoadableAccount(a)
  {
    assert a.loanBalance == LoanReplay(a.transactions[..|a.transactions|]) by {
      assert a.transactions[..|a.transactions|] == a.transactions;
    }
  }

  lemma SoundIsLoadable(l: Ledger)
    requires Sound(l)
    ensures Loadable(l)
  {
    forall q | q in l.accounts
      ensures LoadableAccount(l.accounts[q])
    {
      SoundAccountLoadable(l.accounts[q], l.next);
    }
  }

  lemma CounterNotHigher(l: Ledger, l': Ledger)
    requires Sound(l) && l.accounts == l'.accounts && TightCounter(l')
    ensures l'.next <= l.next
  {
    if l'.next > 1 {
      var q, i :| q in l'.accounts && 0 <= i < |l'.accounts[q].transactions|
          && l'.accounts[q].transactions[i].id == l'.next - 1;
      assert AccountSound(l.accounts[q], l.next);
    }
  }

  /** Pulling the counter tight, as a reload does, keeps the invariant of runs. */
  lemma ReloadKeepsSound(l: Ledger, l': Ledger)
    requires Sound(l) && l'.accounts == l.accounts && TightCounter(l')
    ensures Sound(l')
  {
    forall q | q in l'.accounts
      ensures AccountSound(l'.accounts[q], l'.next)
    {
      assert AccountSound(l.accounts[q], l.next);
    }
  }

  /** The id is on an account that has not been deleted. */
  ghost predicate LiveId(l: Ledger, id: u64) {
    exists q, i :: q in l.accounts && 0 <= i < |l.accounts[q].transactions| && l.accounts[q].transactions[i].id == id
  }

  lemma CounterKeptIff(l: Ledger, l': Ledger)
    requires Sound(l) && l.accounts == l'.accounts && TightCounter(l')
    ensures l'.next == l.next <==> l.next == 1 || LiveId(l, l.next - 1)
  {
    CounterNotHigher(l, l');
    if l'.next == l.next && l.next > 1 {
      var q, i :| q in l'.accounts && 0 <= i < |l'.accounts[q].transactions|
          && l'.accounts[q].transactions[i].id == l'.next - 1;
      assert LiveId(l, l.next - 1);
    }
  }

  /**
   * A ledger that started empty reloads with the same accounts and a counter no higher than before. It
   * is lower, so that ids of deleted accounts are issued again, iff the last id is on no account any more.
   */
  lemma ReloadSound(accounts: seq<Account>, l: Ledger)
    requires Sound(l) && Enumerates(accounts, l.accounts)
    ensures FromAccounts(accounts).Ok?
    ensures var l' := FromAccounts(accounts).value;
            && l'.accounts == l.accounts && TightCounter(l') && l'.next <= l.next
            && (l'.next == l.next <==> l.next == 1 || LiveId(l, l.next - 1))
  {
    SoundIsLoadable(l);
    LoadableIsImported(accounts, l);
    ImportedIsLoadable(accounts);
    CounterNotHigher(l, FromAccounts(accounts).value);
    CounterKeptIff(l, FromAccounts(accounts).value);
  }
}
