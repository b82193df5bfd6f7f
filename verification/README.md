# Verified model of the bank

This project models the banking application in `src/` as Dafny classes and state machines and proves
its laws. It covers the ledger, money parsing and printing, identities, the audit log, sessions, the
login throttle, the request handlers, snapshots and the SQLite store.

## How it is built

* **Ledger.** `Ledger.dfy` splits every operation into `Decide` (which checks fail, in which order,
  and what would be done) and `Apply` (one of seven effects on the state). `Bank.dfy` is the bank
  object; each method runs the statements of its operation in order, with checked arithmetic, and is
  proved to leave the state and answer of one `Step`. The laws in `LedgerRuns`, `LedgerLaws`,
  `LedgerOutcomes`, `LedgerTotals`, `Compounding` and `MonthlyFee` are proved per effect or per
  call and then over all runs.
* **Stores.** `Identity`/`IdentityStore`, `Audit`, `Sessions` and `Throttle` pair an object with
  functions on its state in the same way. Session and throttle are compared with their whole event
  history. Logins are interleaved steps, because the throttle is released between check and record.
  `IdentityLaws` says who can be created and who can log in, without the index or the order of checks;
  `ImportErrors` says at which record an import stops.
* **Server.** `Api.dfy` has the critical section of each handler, `ApiServer.dfy` the handlers as
  methods over the shared objects, `ApiRuns.dfy` the runs of all of them. A session handed to a
  handler stays usable for ever, since the handler may take the write lock arbitrarily late; so the
  runs include every interleaving of the lock-protected sections, and requests that are dropped while
  they wait. `ApiOutcomes` decides every handler in the caller's terms: who is entitled, when it
  succeeds, what it leaves, logs and answers; `ServerOutcomes` does so for steps of a running server.
  `ApiHistory` shows that session store and throttle of a run are those of its events, and
  `AuditActors` that its log only names users with the authority for what is logged.
* **Persistence.** `Storage.dfy` has snapshots and their validation, `Sqlite.dfy` rows, constraints
  and conversions, `SqliteWriting`/`SqliteReading` what is written and read, `Database.dfy`
  migration, saving and loading, and `SqliteStore.dfy` the loops and the file object.
  `SqliteConstraints`, `SqliteDecoding` and `MigrationLaws` decide writing, reading, migrating and
  loading for arbitrary records, tables and files.
* **Whole application.** `AppRuns.dfy` has runs of every bank and identity operation and every audit
  note, with snapshot and database files saved and loaded in between; `AppLaws.dfy` and
  `ClosedAccounts.dfy` carry the invariants, the replay, the closing of accounts and the round trip
  over to them.

Accounts are values held in the map of the bank, which owns them; a method that changes a field
writes the map entry. The clock is a parameter of every operation that reads it. A password hasher is
a parameter too, and theorems hold for every hasher whose hashes verify and are well formed.

## What the proofs brought out

* `request_loan` credits the balance before it checks the loan for overflow (src/bank.rs:445-452).
  The failing call keeps the credit and records nothing. It is modelled as it is: `FailureAtomicity`
  gives the exact guard, `ReplayLaw` and `Conservation` carry the leaked amount as a term of their
  own, and `ReplayFailsAfterLoanOverflow` is a run that reaches it.
* A login lock ends with the 900-second window of the *first* failure, not 900 seconds after the
  failure that set it (src/api.rs:1036-1037), although the stored end of the lock is later;
  `LockEndsEarly` is such a history.
* Failing deposits, interest and loan requests can use up a transaction id, and so can the first half
  of a transfer at the end of the id range. `FailureExact` says exactly when, `DepositLosesId` is a
  case. The last id is never issued.
* Reading a database restores transactions and audit entries by id, so it gives back exactly what
  was saved iff they were in that order (`MigrationReorders` is a case where they are not), as they
  are in every state the application can reach.
* The first migration is not a transaction: a file that got the table but not its stamp, for whatever
  reason, can never be migrated again. `UnstampedMigrates` says which files without a stamp can be.
* Loading a file can open a closed account again (`OldFileReopens`). `ClosedForGoodIff` says exactly
  when no sequence of calls, saves and loads can: the account is closed now and after any single load.
* After a deletion a reload can lower the transaction counter, so that ids of deleted accounts are
  issued again; `ReloadSound` says exactly when, `ReloadReissuesIds` is a case.
* A printed interest rate does not parse: its percent sign has to be dropped first.

## Model

| member | source | states |
|---|---|---|
| `Money.PercentageRounds` | src/domain.rs:50-55 | A percentage of a non-negative amount exists iff the 64-bit product does, and is the exact share rounded down to a cent |
| `Money.MoneyOfReading` | src/domain.rs:74-155 | Every text of the amount grammar (padding, sign, digits, at most two decimals) parses to its sign times the number that all its digits write once the decimals are padded to two, or overflows iff that magnitude exceeds the 64-bit range |
| `Money.ReadingOfMoney` | src/domain.rs:74-155 | Conversely whatever parses, or is refused only for its size, is a text of that grammar; what is refused for its decimals is one but for having more than two |
| `Money.MoneyRoundTrip` | src/domain.rs:58-155 | Printing then parsing is the identity, except that the smallest amount prints but parses to an overflow |
| `Money.RateOfReading` | src/domain.rs:212-274 | Every text of the amount grammar with a whole part and no minus sign parses to its basis points, or overflows iff they exceed 32 bits |
| `Money.ReadingOfRate` | src/domain.rs:212-274 | Conversely whatever parses as a rate, or is refused only for its size, is such a text; what is refused for its decimals is one but for having more than two |
| `Money.RateRoundTrip` | src/domain.rs:201-274 | For every 32-bit rate the printed text parses back once its percent sign is dropped, and is an invalid format with it |
| `Text.CleaningStable` | src/bank.rs:564-582 | Cleaned names, cleaned e-mail addresses and normalised user names are fixed points of cleaning, so stored fields pass validation again |
| `LedgerOutcomes.SucceedsIff` | src/bank.rs:155-492 | Each of the fourteen operations succeeds iff its condition holds, with the checks stated without their order |
| `LedgerOutcomes.RecordedOutcome` | src/bank.rs:186-492 | A successful operation on one existing account adds exactly one entry of the right kind, amount, text, id and time, moves exactly that money, sets exactly the named field or status, and changes nothing else |
| `LedgerOutcomes.TransferOutcome` | src/bank.rs:334-382 | A transfer moves the amount between two accounts, writes both halves with consecutive ids, and changes nothing else |
| `LedgerOutcomes.OtherOutcomes` | src/bank.rs:155-180 | Opening adds one cleaned, active account whose only entry is the opening entry with its id, time, amount and text; deleting removes one key, returns the account and issues no id |
| `LedgerOutcomes.PaymentAmount` | src/bank.rs:458-492 | A loan payment is the smaller of the amount offered and the amount owed |
| `LedgerOutcomes.IdsCounted` | src/bank.rs:155-492 | A success advances the counter by two for a transfer, not at all for a deletion, by one otherwise; a failure advances it, by one, iff the operation loses an id, a condition on the arguments and the ledger before the call |
| `LedgerOutcomes.FailureExact` | src/bank.rs:155-492 | The whole ledger after a failing call: one id is gone iff a deposit, interest or loan request overflows after its other checks, or a transfer passes all checks with one id left; a balance is credited iff a loan request overflows only the loan; nothing else changes |
| `LedgerOutcomes.DepositLosesId` | src/bank.rs:301-315 | A concrete run: a deposit on a full account is refused and uses up id 2 |
| `Ledgers.DecisionsSane` | src/bank.rs:155-492 | Every decision taken on a valid ledger is one of the admissible effects; a success is never a mere loss of an id or a leaked credit |
| `Ledgers.ApplyValid` | src/bank.rs:155-492 | Every admissible effect keeps accounts under their own id with balances and loans not negative |
| `Banks.Bank.FromAccounts` | src/bank.rs:108-141 | The import loop builds the ledger of the import function, or returns its first error; the bank built is valid |
| `Banks.Bank.NextTransaction` | src/bank.rs:542-561 | Issues the next id and advances the counter, or fails without advancing when the last id would be reached |
| `Banks.Bank.CreateAccount` | src/bank.rs:155-180 | The statements in their order leave the state and the answer of one ledger step |
| `Banks.Bank.UpdateName` | src/bank.rs:186-197 | The statements in their order leave the state and the answer of one ledger step |
| `Banks.Bank.UpdateEmail` | src/bank.rs:199-213 | The statements in their order leave the state and the answer of one ledger step |
| `Banks.Bank.ActivateAccount` | src/bank.rs:215-230 | The statements in their order leave the state and the answer of one ledger step |
| `Banks.Bank.DeactivateAccount` | src/bank.rs:232-250 | The statements in their order leave the state and the answer of one ledger step |
| `Banks.Bank.CloseAccount` | src/bank.rs:252-277 | The statements in their order leave the state and the answer of one ledger step |
| `Banks.Bank.DeleteAccount` | src/bank.rs:279-299 | The statements in their order leave the state and the answer of one ledger step |
| `Banks.Bank.Deposit` | src/bank.rs:301-315 | The statements in their order leave the state and the answer of one ledger step |
| `Banks.Bank.Withdraw` | src/bank.rs:317-332 | The statements in their order leave the state and the answer of one ledger step |
| `Banks.Bank.Transfer` | src/bank.rs:334-382 | The statements in their order leave the state and the answer of one ledger step, both accounts updated one after the other |
| `Banks.Bank.ApplyFee` | src/bank.rs:384-399 | The statements in their order leave the state and the answer of one ledger step |
| `Banks.Bank.ApplyInterest` | src/bank.rs:410-436 | The statements in their order leave the state and the answer of one ledger step |
| `Banks.Bank.RequestLoan` | src/bank.rs:438-456 | The statements in their order leave the state and the answer of one ledger step, including the credit that stays when only the loan overflows |
| `Banks.Bank.PayLoan` | src/bank.rs:458-492 | The statements in their order leave the state and the answer of one ledger step |
| `Banks.Bank.ApplyMonthlyFee` | src/bank.rs:401-408 | Lists every account once in ascending order, each with its exact answer: Ok exactly for accounts that can pay while ids last, else the error of the first failing check; each payer pays once with ascending fee ids, no other account changes, and the total falls by amount times the number of Oks |
| `Banks.Bank.TotalBalance` | src/bank.rs:494-500 | The checked sum in id order is the exact sum of all balances and fails iff that sum exceeds the 64-bit range |
| `LedgerRuns.EveryRunSound` | src/bank.rs:155-492 | Every run from an empty bank: ids distinct across accounts, ascending in each, all below the counter; loan equals its replay with every prefix in range; status implied by the entries; closed accounts settled with only closing and profile entries after the first closing |
| `LedgerRuns.ApplyKeepsSound` | src/bank.rs:155-492 | Each admissible effect keeps that invariant |
| `LedgerLaws.FailureAtomicity` | src/bank.rs:155-492 | A failing operation leaves the accounts unchanged iff it is not a loan request that overflows only the loan; that one leaves exactly the credited balance; the counter advances by at most one (exactly when is FailureExact) |
| `LedgerLaws.SuccessMoves` | src/bank.rs:155-492 | A success moves on every account exactly the money its arguments and answer name, and touches no account it does not name |
| `LedgerLaws.DriftStep` | src/bank.rs:301-492 | For any valid bank, imported ones included: no operation changes the distance between a loan and its replay, and one changes that of a balance iff it is the overflowing loan request |
| `LedgerLaws.ReplayLaw` | src/bank.rs:155-492 | Over every run from any valid bank a balance is its replay plus what failed loan requests credited since the account was opened |
| `LedgerLaws.ReplayFromEmpty` | src/bank.rs:155-492 | From an empty bank balance and loan equal their replay, and every prefix of the replay is in range, without leaks exactly and otherwise up to the leaked amount |
| `LedgerLaws.SlackOfLeakFree` | src/bank.rs:438-456 | The leaked amount is never negative, and zero when no loan request of the run overflows only the loan |
| `LedgerLaws.ReplayFailsAfterLoanOverflow` | src/bank.rs:445-452 | A concrete run of four calls whose last fails and leaves a balance one cent above its entries |
| `LedgerLaws.ClosedIsTerminal` | src/bank.rs:215-299 | A closed account that no call deletes stays closed and settled and only gains closing and profile entries |
| `LedgerTotals.Conservation` | src/bank.rs:155-492 | Over every run balances minus loans change by openings + deposits + interest - withdrawals - fees (+ leaked credits); transfers, loans, payments, closing and deletion are neutral |
| `LedgerTotals.ListedTotal` | src/bank.rs:494-500 | The partial sum over all keys in ascending order is the sum over the map |
| `Compounding.CompoundInterest` | src/bank.rs:410-436 | After n applications at bp basis points, calls on other accounts interleaved: 10000^n * b_n <= b_0 * (10000+bp)^n, and bp times the gap is at most 10000 * ((10000+bp)^n - 10000^n) |
| `Compounding.InterestGain` | src/domain.rs:50-55 | One successful application multiplies the balance by (10000+bp)/10000, rounded down |
| `MonthlyFees.FeeAttempt` | src/bank.rs:384-408 | Attempt k gives account k the answer it is due, judged before any fee is taken: Ok iff it can pay and enough ids are left after the payers before it; and it extends the state in which exactly the first k have been charged |
| `MonthlyFees.ChargesBounded` | src/bank.rs:401-408 | The number of fees taken is the number of accounts that can pay, cut off where ids run out |
| `Imports.ImportedIsLoadable` | src/bank.rs:108-141 | Whatever list is accepted, the bank holds exactly its accounts, all ids are positive, distinct and issued, and the counter is one past the highest |
| `Imports.LoadableIsImported` | src/bank.rs:108-141 | Every listing, in any order, of accounts with clean fields and positive distinct ids is accepted with those accounts |
| `Imports.ScanExact` | src/bank.rs:117-129 | The id loop succeeds iff ids are positive, distinct and unseen, and then remembers exactly them and the highest |
| `Imports.ReloadSound` | src/bank.rs:108-141 | The accounts of any bank that started empty reload unchanged, with a counter one past the highest live id and no higher than before; it is lower, so that ids are issued again, iff the last issued id is on no account any more |
| `Imports.ReloadKeepsSound` | src/bank.rs:108-141 | The invariant of runs from the empty bank survives a reload, so runs may go on from what was loaded |
| `Identity.IndexAfterAnything` | src/identity.rs:270-427 | After any import and any creations the index leads to a user iff that user has that normalised name; exactly the customer users are linked, and to an existing customer |
| `Identity.LookupIsScan` | src/identity.rs:380-399 | Indexed lookup agrees with looking through all users |
| `Identity.CreateUserAdds` | src/identity.rs:350-378 | A creation adds exactly the one user described, with a verifying hash, or changes nothing |
| `Identity.CreateUserKeeps` | src/identity.rs:350-378 | Creating a user keeps index and user map inverse, links valid, hashes well formed |
| `Identity.CreateCustomerKeeps` | src/identity.rs:327-348 | Creating a customer keeps the store consistent; a success uses an id that was free and stores exactly the cleaned fields |
| `Identity.CreatedUserLogsIn` | src/identity.rs:350-399 | A user just created can log in with the password under any spelling with the same normal form, as that user |
| `Identity.AuthenticatedSpeaks` | src/identity.rs:380-399 | A session made by authentication carries the id, name, role and customer of an existing user |
| `Identity.ImportConsistent` | src/identity.rs:270-303 | Every accepted import is consistent |
| `Identity.ReloadIdentities` | src/identity.rs:270-303 | A consistent store is rebuilt, index included, from any listing of its customers and users |
| `IdentityStores.IdentityStore.FromRecords` | src/identity.rs:270-303 | The two import loops build the store of the import function or return its first error |
| `IdentityStores.IdentityStore.CreateCustomer` | src/identity.rs:327-348 | Leaves the state and answer of the creation that CreateCustomerIff decides |
| `IdentityStores.IdentityStore.CreateUser` | src/identity.rs:350-378 | Leaves both maps and the answer of the creation that CreateUserIff decides |
| `IdentityStores.IdentityStore.Authenticate` | src/identity.rs:380-399 | Gives the answer that LoginIff decides, and changes nothing |
| `Audit.ImportLogExact` | src/audit.rs:218-240 | An import accepts exactly lists of positive distinct ids below the last one, and yields them with the counter one past the highest |
| `Audit.RecordKeepsNumbered` | src/audit.rs:246-274 | Recording keeps entry k at id k + 1 and the counter one past the number of entries |
| `Audit.NumberedReloads` | src/audit.rs:218-274 | A log that was only recorded to reloads as itself, counter included |
| `Audit.AuditLog.Record` | src/audit.rs:246-274 | Appends one numbered entry, or fails without a change when ids have run out |
| `Audit.AuditLog.FromEntries` | src/audit.rs:218-240 | The import loop builds the log of the import function or returns its first error |
| `Sessions.AuthenticateExact` | src/api.rs:913-956 | Whatever the clock does: a token is good for a session iff its latest issue carried it, was not revoked since, and no clock reading since has reached its expiry |
| `Sessions.SweepingIsInvisible` | src/api.rs:913-956 | With a clock that never goes back only the latest issue, its expiry and revocations matter, although expired entries are swept eagerly |
| `Sessions.ApiSessionStore.IssueSession` | src/api.rs:913-929 | Sweeps, stores the session until its expiry under the first drawn token that no live session uses, and disturbs no other live token |
| `Sessions.ApiSessionStore.UnusedToken` | src/api.rs:943-951 | The drawing loop ends with the first draw that is not in use |
| `Sessions.ApiSessionStore.AuthenticateToken` | src/api.rs:931-937 | Sweeps and answers with the live session of the token |
| `Sessions.ApiSessionStore.RevokeToken` | src/api.rs:939-941 | Removes exactly that token |
| `Sessions.ApiSessionStore.RemoveExpired` | src/api.rs:953-956 | Keeps exactly the entries whose expiry lies ahead |
| `Throttle.RefusesExact` | src/api.rs:987-1044 | With a clock that never goes back, a login is refused iff the window opened by the first failure since the last success or expiry holds five failures and has not run out (and the clock is not at its last value) |
| `Throttle.LockEndsWithWindow` | src/api.rs:1028-1044 | While a record promises a lock, a login is refused iff 900 seconds since the first failure of its window have not passed, although the stored end of the lock is never earlier than that |
| `Throttle.LockEndsEarly` | src/api.rs:1007-1044 | A concrete history whose record locks the name until second 1799, while nobody is refused from second 900 on |
| `Throttle.AuthThrottle.EnsureAllowed` | src/api.rs:987-1001 | Expires the record if due and refuses iff it is still locked |
| `Throttle.AuthThrottle.RecordFailure` | src/api.rs:1007-1026 | Expires, opens or extends the record, and locks it from the fifth failure on |
| `Throttle.AuthThrottle.RecordSuccess` | src/api.rs:1003-1005 | Forgets the failures of the name |
| `Throttle.AuthThrottle.ExpireIfNeeded` | src/api.rs:1028-1044 | Drops the record iff its lock or its window is over |
| `LoginRace.FailuresBounded` | src/api.rs:217-256 | With at most C logins of a name between check and recording, its failures never exceed 4 + C, whatever the clock does |
| `LoginRace.RunBounded` | src/api.rs:217-256 | The invariant behind it: from five failures on, failures plus pending logins stay within 4 + C |
| `LoginRace.BoundIsReached` | src/api.rs:217-256 | For every name and every C > 0 a legal run reaches exactly 4 + C |
| `LoginRace.RaceReplays` | src/api.rs:217-256 | However logins overlap, the failures on record are those of the one history of checks and outcomes |
| `ApiRuns.RunsSound` | src/api.rs:149-677 | Over every run of interleaved handlers: ledger, identities and log keep their invariants, owners exist, every stored or granted session names an existing user with that role and customer, and any user at all implies an administrator |
| `ApiRuns.RunsGrow` | src/api.rs:149-677 | Users and customers present at some point of a run are there, unchanged, at every later point |
| `ApiRuns.OneBootstrap` | src/api.rs:149-210 | At most one bootstrap of a run succeeds |
| `ApiHistory.SessionsOfServer` | src/api.rs:149-292 | The session store of a running server is the replay of the issues, look-ups and revocations of its run |
| `ApiHistory.ServerAuthenticates` | src/api.rs:679-686 | On a running server a bearer token is good for a session iff its latest issue carried it, was not revoked since, and no clock reading since has reached its expiry |
| `ApiHistory.ServerSweepingIsInvisible` | src/api.rs:913-956 | With a clock that never goes back only the latest issue, its expiry and revocations decide on a running server |
| `ApiHistory.LoginsOfServer` | src/api.rs:212-268 | The throttle of a running server, with its pending logins, is the state of the race of its logins, dropped ones included |
| `ApiHistory.ServerFailuresBounded` | src/api.rs:212-268 | On a running server with at most C overlapping logins per name no name has more than 4 + C failures |
| `ApiHistory.ServerRefuses` | src/api.rs:212-221 | With a clock that never goes back a running server turns a login away iff the current window of its name is overrun |
| `ApiLaws.LedgerOfServer` | src/api.rs:410-677 | The ledger of a running server is the result of a run of bank calls, so the laws of ledger runs hold for it |
| `ApiLaws.CustomerDebitsOnlyOwn` | src/api.rs:652-756 | No request of a customer session lowers the balance or raises the loan of an account not linked to that customer |
| `ApiLaws.OnlyAdminsManageIdentities` | src/api.rs:294-392 | Identities change only by the bootstrap of an empty store or for an administrator session |
| `AuditAgreement.LogAgreesWithLedger` | src/api.rs:410-677 | Over every run the successful money entries of the log and the ledger transactions correspond one to one, in order, by id (a transfer entry to a pair with consecutive ids); only transactions made after audit ids ran out are undocumented |
| `AuditAgreement.SuccessDocumented` | src/api.rs:410-677 | The note a handler records names the accounts, kinds and pairing of exactly the transactions the operation wrote |
| `AuditAgreement.EffectJournal` | src/bank.rs:155-492 | Every effect, deletion included, keeps a journal of all transactions of the accounts still there, ascending by id and in order per account |
| `AuditAgreement.JournalOfRun` | src/bank.rs:155-492 | Such a journal exists after every run from the empty bank |
| `ApiServers.ApiServer.CreateAccount` | src/api.rs:410-447 | The handler leaves the state and answer that BankSectionExact decides |
| `ApiServers.ApiServer.Deposit` | src/api.rs:498-513 | The handler leaves the state and answer that BankSectionExact decides |
| `ApiServers.ApiServer.Withdraw` | src/api.rs:515-530 | The handler leaves the state and answer that BankSectionExact decides |
| `ApiServers.ApiServer.ApplyFee` | src/api.rs:532-557 | The handler leaves the state and answer that BankSectionExact decides |
| `ApiServers.ApiServer.RequestLoan` | src/api.rs:559-584 | The handler leaves the state and answer that BankSectionExact decides |
| `ApiServers.ApiServer.PayLoan` | src/api.rs:586-611 | The handler leaves the state and answer that BankSectionExact decides |
| `ApiServers.ApiServer.Transfer` | src/api.rs:613-650 | The handler leaves the state and answer that BankSectionExact decides |
| `ApiServers.ApiServer.CreateCustomer` | src/api.rs:294-319 | The handler leaves the state and answer that CustomerSectionExact decides |
| `ApiServers.ApiServer.CreateUser` | src/api.rs:361-392 | The handler leaves the state and answer that UserSectionExact decides |
| `ApiServers.ApiServer.BootstrapAdmin` | src/api.rs:149-210 | Refuses or creates, records and issues a session as BootstrapExact decides |
| `ApiServers.ApiServer.CheckLogin` | src/api.rs:216-221 | The throttle half of a login: refused iff the throttle refuses |
| `ApiServers.ApiServer.FinishLogin` | src/api.rs:223-268 | The locked half of a login, as LoginSectionExact decides it: throttle told, outcome logged, session issued |
| `ApiServers.ApiServer.AuthenticateRequest` | src/api.rs:679-686 | Answers with the live session of the token |
| `ApiServers.ApiServer.BeginLogout` | src/api.rs:274-280 | Looks the token up and revokes it iff it was good |
| `ApiServers.ApiServer.FinishLogout` | src/api.rs:281-289 | Records the logout as LogoutSectionExact says |
| `ApiServers.ApiServer.EnsureMoneyAccess` | src/api.rs:721-756 | Staff may move any money, a customer only that of accounts linked to the same customer |
| `ApiServers.ApiServer.RecordAudit` | src/api.rs:787-799 | Appends the entry or reports that ids have run out |
| `Storage.SnapshotRoundTrip` | src/storage.rs:46-151 | A snapshot of a well-formed state loads iff every account owner exists, and then as the same state with the counter pulled tight |
| `Storage.AssembledIsLoaded` | src/storage.rs:133-151 | Whatever loads is consistent, owned, and tightly counted |
| `Storage.OwnersChecked` | src/storage.rs:235-248 | The owner check passes iff every owner exists |
| `Rows.OrderKeeps` | src/sqlite_store.rs:685-730 | Reading rows ordered by key keeps every row and sorts them |
| `Rows.OrderCanonical` | src/sqlite_store.rs:685-730 | The order of insertion does not show when rows are read back |
| `Sqlite.EnumsRoundTrip` | src/sqlite_store.rs:873-961 | Roles, statuses and outcomes are read back from their own texts |
| `Sqlite.KindRoundTrip` | src/sqlite_store.rs:897-920 | Transaction kinds are read back from their own texts |
| `Sqlite.ActionRoundTrip` | src/sqlite_store.rs:922-950 | Audit actions are read back from their own texts |
| `Sqlite.AuditRowDecodes` | src/sqlite_store.rs:830-871 | An audit row, actor columns included, decodes to its entry |
| `Sqlite.UserRowDecodes` | src/sqlite_store.rs:372-386 | A user row decodes to its user |
| `Sqlite.TransactionRowDecodes` | src/sqlite_store.rs:413-438 | A transaction row decodes to its transaction |
| `SqliteWriting.WriteExact` | src/sqlite_store.rs:343-478 | The records of a well-formed state, in any order, meet all key, uniqueness, reference and integer constraints iff ids and timestamps fit 64 signed bits and every owner exists; the tables then hold exactly their rows |
| `SqliteReading.ReadExact` | src/sqlite_store.rs:480-501 | The rows of such a state are read back as that state with transactions and entries sorted by id |
| `SqliteReading.SelectedRows` | src/sqlite_store.rs:685-713 | Selecting by account yields exactly that account's rows in insertion order |
| `SqliteReading.SortedImported` | src/sqlite_store.rs:628-674 | The sorted accounts are accepted by the bank import |
| `SqliteStores.WriteNormalizedState` | src/sqlite_store.rs:343-478 | The insertion loops leave the specified tables or stop at the specified first error |
| `SqliteStores.InsertAccountWithTransactions` | src/sqlite_store.rs:388-439 | One account row and then its transaction rows, in order |
| `SqliteStores.ReadBank` | src/sqlite_store.rs:628-674 | The account loop builds the specified bank or returns the first error |
| `SqliteStores.ReadAuditLog` | src/sqlite_store.rs:746-813 | The entry loop builds the specified log or returns the first error |
| `SqliteStores.ReadNormalizedState` | src/sqlite_store.rs:480-501 | Reads and validates in the order of the source, nothing when all tables are empty |
| `SqliteStores.Database.Migrate` | src/sqlite_store.rs:148-169 | Runs exactly the missing migrations, each with its own clock reading, stopping at the first failure |
| `SqliteStores.Database.ApplyMigrationOne` | src/sqlite_store.rs:193-216 | Creates the snapshot table, which stays even when the version stamp fails |
| `SqliteStores.Database.ApplyMigrationTwo` | src/sqlite_store.rs:218-293 | Creates and fills the normalized tables from the snapshot, all or nothing |
| `SqliteStores.Database.ApplyMigrationThree` | src/sqlite_store.rs:295-321 | Stamps version 3 |
| `SqliteStores.Database.Save` | src/sqlite_store.rs:103-118 | Migrates, then replaces rows and snapshot together or not at all |
| `SqliteStores.Database.Load` | src/sqlite_store.rs:120-130 | Migrates, then reads the tables or, when they are empty, the snapshot |
| `Databases.SaveThenLoad` | src/sqlite_store.rs:103-130 | Saving a well-formed state to a migratable file succeeds iff ids, timestamps and clock fit and owners exist; a failed save changes nothing but the migration; after a successful one the file loads as that state in id order and stays as it is |
| `Databases.CoherentRoundTrip` | src/sqlite_store.rs:103-130 | Every state that satisfies the invariants of runs is saved to a new file iff ids, timestamps and clock readings fit and owners exist, and loads with equal accounts (same transaction order), customers, users, index, entries and audit counter |
| `Databases.ServerStateRoundTrip` | src/sqlite_store.rs:103-130 | In particular every state a server run can reach, whose owners always exist |
| `Databases.NewFileMigrates` | src/sqlite_store.rs:148-321 | A new file reaches the current schema iff all three clock readings fit, and otherwise stops exactly at the first that does not |
| `Databases.UnstampedMigrates` | src/sqlite_store.rs:148-216 | A file without any stamp is migrated iff it has no table either and the clock readings fit; with the snapshot table, whatever left it there, it refuses every migration for good |
| `Databases.HalfCreatedIsStuck` | src/sqlite_store.rs:148-216 | A second attempt on a file that was new at the first completes it iff the first stamp fitted then and each other stamp fitted at one of the two attempts |
| `Databases.CurrentStays` | src/sqlite_store.rs:148-169 | Migrating a current file changes nothing |
| `Databases.MigrationPreservesMeaning` | src/sqlite_store.rs:148-321 | A version-1 file whose snapshot loads is migrated to version 3 iff its state and both clock readings fit; it then loads as that state sorted by id and migrating again changes nothing; a failed migration leaves the file as it was iff the state or the first reading does not fit, and otherwise the next one completes it iff its reading fits |
| `Databases.MigrationExactIff` | src/sqlite_store.rs:148-293 | The migrated file loads as exactly the old state iff that state was already in id order |
| `Databases.MigrationReorders` | src/sqlite_store.rs:148-293 | A concrete snapshot that loads, fits and migrates, and whose migrated file loads as another state |
| `AppRuns.RunsKeep` | src/sqlite_store.rs:103-130 | What every edit keeps and a reload cannot break holds after every run of all operations with snapshot and database files saved and loaded on the way, for the application and for every state on file |
| `AppLaws.EveryStateCoherent` | src/sqlite_store.rs:103-130 | From the start, over every run of all fourteen bank operations, identity operations, audit notes, saves and loads: ledger, identities and log keep all their invariants |
| `AppLaws.EveryStateRoundTrip` | src/sqlite_store.rs:103-130 | Every state of such a run, the empty one included, is saved to any database file of the run iff the file can be migrated, ids, timestamps and clock fit and owners exist; and then it loads with equal accounts (same transaction order), customers, users, index, entries and audit counter |
| `AppLaws.OwnersExist` | src/cli.rs:142-160 | If accounts are opened only for existing customers, every account owner exists after every such run and in every state on file |
| `AppLaws.ReplayAcrossLoads` | src/bank.rs:155-492 | Over every such run loans equal their replay, balances their replay plus what failed loan requests credited (nothing when none overflowed only the loan), with every prefix in range |
| `AppLaws.ReloadReissuesIds` | src/bank.rs:108-141 | A concrete run: id 1 was used, its account deleted, and after a reload it is the next id again |
| `ClosedAccounts.ClosedForGoodIff` | src/bank.rs:215-299 | In a world whose files the application wrote: no run without a deletion reopens a closed account, or drops any of its given entries, iff it is closed now and after any single load |
| `ClosedAccounts.ClosedForGoodAfterRun` | src/bank.rs:215-299 | That equivalence at every point of every run from the start |
| `ClosedAccounts.ClosedAcrossLoads` | src/bank.rs:215-299 | Under that condition the account stays closed and settled through all calls, saves and loads until it is deleted, and only gains closing and profile entries |
| `ClosedAccounts.OldFileReopens` | src/storage.rs:173-191 | The condition is needed: a concrete run that saves, closes an account and loads ends with the account open |
| `Text.NameAccepted` | src/bank.rs:564-572 | A name is accepted iff it is not blank, and kept without the white space around it |
| `Text.EmailAccepted` | src/bank.rs:574-582 | An address is accepted iff, trimmed and in lower case, it holds an at sign that stands at neither end of it |
| `Text.UsernameAccepted` | src/identity.rs:464-476 | A user name is accepted iff, trimmed and in lower case, it has three characters or more, all letters, digits, underscores or hyphens |
| `Money.MoneyRefusals` | src/domain.rs:74-155 | Which error a text that is no amount gets: empty iff blank, too many decimals iff in the grammar but for these, invalid format iff outside it |
| `Money.RateRefusals` | src/domain.rs:212-274 | The same for rates, where a leading minus sign is told apart first, whatever follows |
| `LedgerOutcomes.ErrorExact` | src/bank.rs:155-492 | An operation whose condition fails answers exactly the error of the first check that fails, for all fourteen operations |
| `LedgerOutcomes.ReplyExact` | src/bank.rs:155-492 | What a success answers: the account opened or deleted, interest rounded down to a cent, the smaller of offer and debt, nothing otherwise |
| `IdentityLaws.LoginIff` | src/identity.rs:380-399 | Login succeeds iff some user has that normalised name and a stored hash that the password verifies against, and is then that user's session; otherwise the credentials are invalid, or the name is |
| `IdentityLaws.MalformedHashIsReported` | src/identity.rs:380-399 | A stored hash that is not well formed is reported, whatever the password |
| `IdentityLaws.CreateUserIff` | src/identity.rs:350-378 | A user is created, exactly as asked for, iff the id is unused, the password has eight characters or more, the name is valid and no user has it, the role fits the link and the customer exists, and hashing works; otherwise nothing changes and the first failing check is named |
| `IdentityLaws.OnlyItsPassword` | src/identity.rs:350-399 | A user just created logs in with a password iff it verifies against the stored hash, and with that of the creation as the user asked for |
| `IdentityLaws.CreateCustomerIff` | src/identity.rs:327-348 | A customer is created, cleaned, iff the id is free, the name is not blank and the address is one; otherwise nothing changes, so no customer is ever overwritten |
| `IdentityLaws.ConsistencyMeans` | src/identity.rs:270-303 | The invariant of the store spelled out: valid customers, valid and rightly linked users each with a name of its own, no stray names in the index |
| `IdentityLaws.ImportIff` | src/identity.rs:270-303 | An import gives a store iff that store is consistent with well-formed hashes and the lists are its records, once each |
| `Imports.ImportIff` | src/bank.rs:108-141 | An import gives a ledger iff the list is its accounts, once each, they are loadable and the counter is tight |
| `Imports.LoadableMeans` | src/bank.rs:597-607 | What is asked of an imported account: a name, an address, no negative amount, positive and distinct ids below the last |
| `ImportErrors.IdentityImportStops` | src/identity.rs:270-303 | A refused identity import names why the first record that cannot follow those before it cannot |
| `ImportErrors.AuditImportStops` | src/audit.rs:218-240 | A refused audit import names the first id that is zero or was there before, or else that the last id is used |
| `ImportErrors.LedgerImportStops` | src/bank.rs:108-141 | A refused ledger import names why the first account that cannot follow those before it is refused, or else that the last id is used |
| `Sessions.SessionLasts` | src/api.rs:913-937 | A session issued at some time is good for 28800 seconds, or until the clock ends |
| `Throttle.ExpiryExact` | src/api.rs:1028-1044 | A record expires with its lock or 900 seconds after its first failure, also when the clock has gone back |
| `ApiOutcomes.BankSectionExact` | src/api.rs:410-677 | A request of a session that is not entitled, or with a wrong amount, changes nothing and is told so; any other makes one step of the ledger, passes the bank's refusal on or logs the success under the session's name |
| `ApiOutcomes.BankSectionSucceedsIff` | src/api.rs:410-677 | A request succeeds iff the session is entitled (staff for opening, fees and loans, with an existing owner if one is named; staff or the owner for the rest), the bank's condition holds and an audit id is left |
| `ApiOutcomes.CustomerSectionExact` | src/api.rs:294-319 | Only an administrator creates customers, and then iff that is possible; the entry that is logged is given in full |
| `ApiOutcomes.UserSectionExact` | src/api.rs:361-392 | Only an administrator creates users, and then iff that is possible; the store left and the entry logged are given in full |
| `ApiOutcomes.LoginSectionExact` | src/api.rs:212-268 | A login gives a session iff name and password are those of a user and an audit id is left; a wrong one gives none and is logged as a failure |
| `ApiOutcomes.LogoutSectionExact` | src/api.rs:270-292 | A logout is logged under the name of its session |
| `ApiOutcomes.BootstrapExact` | src/api.rs:149-210 | A bootstrap is refused once there is a user; before, it makes exactly the administrator asked for, and gives its session, iff that creation is possible; every attempt is logged |
| `ServerOutcomes.LoginFinishExact` | src/api.rs:223-268 | On a running server the right password is a success for the throttle and stores a session of that user, a wrong one is a failure and stores none |
| `ServerOutcomes.IssuedTokenGrants` | src/api.rs:913-956 | A token grants its session from its issue until eight hours later and no longer |
| `ServerOutcomes.GrantedSessionPerforms` | src/api.rs:294-677 | A granted session may make any request, which touches nothing but the application |
| `ServerOutcomes.AdministratorCreatesUser` | src/api.rs:361-392 | A user whom an administrator creates on a running server exists and can log in afterwards iff the creation was possible |
| `ServerOutcomes.LiveTokensStay` | src/api.rs:913-951 | No step puts another session under the token of one that has not expired |
| `ServerOutcomes.LogoutRevokes` | src/api.rs:270-281 | Once a logout has begun its token is good for nothing |
| `AuditActors.LogIsGenuine` | src/api.rs:149-677 | On every run each log entry is a success of an existing user who has the name and role given and the authority for the action, or a failed login or bootstrap that names nobody |
| `Storage.AssembleIff` | src/storage.rs:133-151 | Records assemble to a state iff it is consistent, owned and tightly counted and the lists are its records, once each |
| `Storage.SnapshotIff` | src/storage.rs:133-151 | A snapshot of version 2 or 3, and no other, loads as a state iff its lists are the valid records of that state |
| `Storage.OwnerFaultNames` | src/storage.rs:235-248 | The fault reported is that of the first account whose owner does not exist |
| `Sqlite.EnumsExact` | src/sqlite_store.rs:873-961 | A text is read as a role, status or outcome iff it is stored for it; any other is refused by name |
| `Sqlite.KindExact` | src/sqlite_store.rs:897-920 | The same for transaction kinds |
| `Sqlite.ActionExact` | src/sqlite_store.rs:922-950 | The same for audit actions |
| `Sqlite.AuditRowExact` | src/sqlite_store.rs:746-871 | An audit row decodes to an entry iff every column holds the field of its name |
| `SqliteConstraints.WriteRecordsIff` | src/sqlite_store.rs:224-270 | Any records are written iff their ids and times fit and their rows meet the keys, unique names and references of the schema; the tables then hold exactly those rows |
| `SqliteDecoding.ReadStateIff` | src/sqlite_store.rs:480-501 | Any tables, however they came to be, are read as a state iff they hold something, their rows are by ascending key the records of that state, and it is valid |
| `MigrationLaws.MigratesIff` | src/sqlite_store.rs:148-321 | Any file, whatever its stamps, is migrated iff its schema is not newer and it has what the remaining migrations need; the tables are filled from the snapshot, which stays |
| `MigrationLaws.LoadIff` | src/sqlite_store.rs:120-130 | Any file loads as a state iff it can be migrated and then holds that state, in its tables or, if these are empty, in its snapshot |
| `MigrationLaws.StampsStayDistinct` | src/sqlite_store.rs:171-181 | No migration stamps a version twice |
| `AppLaws.DatabaseStepsRoundTrip` | src/sqlite_store.rs:103-130 | As two steps of a run: what is saved to a database file comes back from it if the save succeeds |
| `AppLaws.SnapshotStepsRoundTrip` | src/storage.rs:173-191 | As two steps of a run: what is saved to a snapshot file comes back iff its owners exist, and otherwise nothing is loaded |
| `AppLaws.CreationsExact` | src/identity.rs:327-378 | In a run of the application a creation adds what was asked for iff it is possible, and changes nothing else |
| `AppLaws.FilesToldApart` | src/storage.rs:183-191 | A snapshot is not loaded for a database, nor a database for a snapshot |

## Left out

- HTTP routing, headers, JSON bodies, request ids, tracing and status codes; of the handlers only the sections under a lock and the permission checks before them.
- Listing and filtering endpoints, statement export, the richest and the empty accounts: read-only and easy.
- The command-line client and the server start-up: they call the same operations.
- The SQLite engine, SQL text, indexes and file input and output: tables are lists of rows with their key, uniqueness and reference constraints, and one transaction is one assignment.
- The JSON grammar: a snapshot is the value that its text stands for.
- Argon2 and random numbers: hashing is an arbitrary function with a salt argument, and a new session token is any token that no live session uses.
- Unicode: texts are ASCII, so trimming and lower-casing are those of ASCII.
- Display texts of identity errors that carry the text of another error (permission denied, hashing failed): they only appear as audit messages.
- The failed-attempt counter is unbounded, not a machine word.
- Sessions.ApiSessionStore.UnusedToken: that random draws end is not modelled; the draws are an argument that contains an unused token.
- ApiRuns.RunsSound: only the operations the handlers offer; interest, status changes, profile updates and deletion are covered by `AppLaws.EveryStateCoherent`.
- ApiRuns.Next: a pending login of a name may finish under any spelling of that name, which only adds runs.
- AppRuns.Next: the command-line client's permission checks and prompts; any operation, note, save or load may come at any time.
