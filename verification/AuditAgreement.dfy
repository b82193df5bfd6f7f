/** The audit log and the ledger tell the same story. */
module AuditAgreement {
  import opened Wrappers
  import opened Numbers
  import opened Domain
  import opened Ledgers
  import opened LedgerRuns
  import opened LedgerLaws
  import opened Identity
  import opened Audit
  import opened Api
  import opened ApiRuns

  /** A transaction together with the account it was recorded on. */
  datatype Posting = Posting(account: AccountId, entry: Transaction)

  /** The entries an effect writes, in id order. */
  function PostingsOf(e: Effect): seq<Posting> {
    match e
    case Open(a) => if |a.transactions| == 1 then [Posting(a.id, a.transactions[0])] else []
    case Post(id, _, t) => [Posting(id, t)]
    case Move(source, target, outgoing, incoming) => [Posting(source, outgoing), Posting(target, incoming)]
    case _ => []
  }

  /** The entries of one account, in order. */
  function OnAccount(journal: seq<Posting>, id: AccountId): seq<Transaction> {
    if journal == [] then []
    else
      var last := journal[|journal| - 1];
      OnAccount(journal[..|journal| - 1], id) + if last.account == id then [last.entry] else []
  }

  /** The journal lists every transaction of the ledger exactly once, by ascending id, and per account in order. */
  ghost predicate JournalOf(journal: seq<Posting>, l: Ledger) {
    && (forall i, j :: 0 <= i < j < |journal| ==> journal[i].entry.id < journal[j].entry.id)
    && (forall i :: 0 <= i < |journal| ==> journal[i].account in l.accounts && journal[i].entry.id < l.next)
    && (forall id :: id in l.accounts ==> OnAccount(journal, id) == l.accounts[id].transactions)
  }

  lemma OnAccountAppend(journal: seq<Posting>, p: Posting, id: AccountId)
    ensures OnAccount(journal + [p], id) == OnAccount(journal, id) + if p.account == id then [p.entry] else []
  {
    assert (journal + [p])[..|journal|] == journal;
  }

  lemma {:induction false} OnAccountNone(journal: seq<Posting>, id: AccountId)
    requires forall i :: 0 <= i < |journal| ==> journal[i].account != id
    ensures OnAccount(journal, id) == []
  {
    if journal != [] {
      OnAccountNone(journal[..|journal| - 1], id);
    }
  }

  lemma PostJournal(journal: seq<Posting>, l: Ledger, id: AccountId, change: Change, t: Transaction)
    requires Valid(l) && JournalOf(journal, l) && Admissible(l, Post(id, change, t))
    ensures JournalOf(journal + [Posting(id, t)], Apply(l, Post(id, change, t)))
  {
    var l' := Apply(l, Post(id, change, t));
    forall q | q in l'.accounts
      ensures OnAccount(journal + [Posting(id, t)], q) == l'.accounts[q].transactions
    {
      OnAccountAppend(journal, Posting(id, t), q);
    }
  }

  lemma OpenJournal(journal: seq<Posting>, l: Ledger, a: Account)
    requires Valid(l) && JournalOf(journal, l) && Admissible(l, Open(a))
    ensures JournalOf(journal + PostingsOf(Open(a)), Apply(l, Open(a)))
  {
    var l', p := Apply(l, Open(a)), Posting(a.id, a.transactions[0]);
    forall q | q in l'.accounts
      ensures OnAccount(journal + [p], q) == l'.accounts[q].transactions
    {
      OnAccountAppend(journal, p, q);
      if q == a.id {
        OnAccountNone(journal, q);
      }
    }
  }

  lemma MoveJournal(journal: seq<Posting>, l: Ledger, source: AccountId, target: AccountId,
                    outgoing: Transaction, incoming: Transaction)
    requires Valid(l) && JournalOf(journal, l) && Admissible(l, Move(source, target, outgoing, incoming))
    ensures var e := Move(source, target, outgoing, incoming);
            JournalOf(journal + PostingsOf(e), Apply(l, e))
  {
    MoveIsTwoPosts(l, source, target, outgoing, incoming);
    ApplyValid(l, Post(source, KeepProfile, outgoing));
    var mid := Apply(l, Post(source, KeepProfile, outgoing));
    PostJournal(journal, l, source, KeepProfile, outgoing);
    PostJournal(journal + [Posting(source, outgoing)], mid, target, KeepProfile, incoming);
    assert journal + [Posting(source, outgoing)] + [Posting(target, incoming)]
        == journal + [Posting(source, outgoing), Posting(target, incoming)];
  }

  lemma UnpostedJournal(journal: seq<Posting>, l: Ledger, e: Effect)
    requires JournalOf(journal, l) && Admissible(l, e) && (e.Nothing? || e.BurnId? || e.Leak?)
    ensures JournalOf(journal + PostingsOf(e), Apply(l, e))
  {
    assert journal + [] == journal;
    QuietJournal(journal, l, Apply(l, e));
  }

  /** The journal of the accounts other than the given one. */
  function Without(journal: seq<Posting>, id: AccountId): seq<Posting> {
    if journal == [] then []
    else
      var last := journal[|journal| - 1];
      Without(journal[..|journal| - 1], id) + if last.account == id then [] else [last]
  }

  lemma {:induction false} WithoutHas(journal: seq<Posting>, id: AccountId)
    ensures forall p :: p in Without(journal, id) ==> p in journal && p.account != id
  {
    if journal != [] {
      WithoutHas(journal[..|journal| - 1], id);
    }
  }

  lemma {:induction false} WithoutAscends(journal: seq<Posting>, id: AccountId)
    requires forall i, j :: 0 <= i < j < |journal| ==> journal[i].entry.id < journal[j].entry.id
    ensures var rest := Without(journal, id);
            forall i, j :: 0 <= i < j < |rest| ==> rest[i].entry.id < rest[j].entry.id
  {
    if journal != [] {
      var init := journal[..|journal| - 1];
      WithoutAscends(init, id);
      WithoutHas(init, id);
      assert forall i :: 0 <= i < |Without(init, id)| ==> Without(init, id)[i] in init;
    }
  }

  lemma {:induction false} OnAccountWithout(journal: seq<Posting>, id: AccountId, q: AccountId)
    requires q != id
    ensures OnAccount(Without(journal, id), q) == OnAccount(journal, q)
  {
    if journal != [] {
      var init, last := journal[..|journal| - 1], journal[|journal| - 1];
      OnAccountWithout(init, id, q);
      if last.account == id {
        assert Without(journal, id) == Without(init, id);
      } else {
        OnAccountAppend(Without(init, id), last, q);
      }
    }
  }

  lemma RemoveJournal(journal: seq<Posting>, l: Ledger, id: AccountId)
    requires JournalOf(journal, l) && Admissible(l, Remove(id))
    ensures JournalOf(Without(journal, id), Apply(l, Remove(id)))
  {
    var rest := Without(journal, id);
    WithoutAscends(journal, id);
    WithoutHas(journal, id);
    forall i | 0 <= i < |rest|
      ensures rest[i].account in l.accounts && rest[i].account != id && rest[i].entry.id < l.next
    {
      assert rest[i] in rest;
    }
    forall q | q in l.accounts && q != id
      ensures OnAccount(rest, q) == l.accounts[q].transactions
    {
      OnAccountWithout(journal, id, q);
    }
  }

  /** The journal of the live accounts after an effect. */
  function JournalAfter(journal: seq<Posting>, e: Effect): seq<Posting> {
    if e.Remove? then Without(journal, e.id) else journal + PostingsOf(e)
  }

  lemma EffectJournal(journal: seq<Posting>, l: Ledger, e: Effect)
    requires Valid(l) && JournalOf(journal, l) && Admissible(l, e)
    ensures JournalOf(JournalAfter(journal, e), Apply(l, e))
  {
    match e {
      case Open(a) => OpenJournal(journal, l, a);
      case Post(id, change, t) => PostJournal(journal, l, id, change, t);
      case Move(source, target, outgoing, incoming) => MoveJournal(journal, l, source, target, outgoing, incoming);
      case Nothing | BurnId | Leak(_, _) => UnpostedJournal(journal, l, e);
      case Remove(id) => RemoveJournal(journal, l, id);
    }
  }

  /** After every run of bank calls, deletions included, there is such a journal of the accounts still there. */
  lemma {:induction false} JournalOfRun(calls: seq<Call>) returns (journal: seq<Posting>)
    ensures JournalOf(journal, LedgerRuns.Run(EMPTY, calls))
  {
    if calls == [] {
      journal := [];
    } else {
      var before, call := LedgerRuns.Run(EMPTY, calls[..|calls| - 1]), calls[|calls| - 1];
      journal := JournalOfRun(calls[..|calls| - 1]);
      DecisionsSane(before, call);
      EffectJournal(journal, before, Decide(before, call).effect);
      journal := JournalAfter(journal, Decide(before, call).effect);
    }
  }

  lemma QuietJournal(journal: seq<Posting>, l: Ledger, l': Ledger)
    requires JournalOf(journal, l) && l.next <= l'.next && l'.accounts.Keys == l.accounts.Keys
    requires forall q :: q in l.accounts ==> l'.accounts[q].transactions == l.accounts[q].transactions
    ensures JournalOf(journal, l')
  {
  }

  // ---- Which entries document which transactions ----------------------------------------------

  predicate IsMoneyAction(action: AuditAction) {
    action in {AuditAction.CreateAccount, AuditAction.Deposit, AuditAction.Withdraw, AuditAction.Fee,
               AuditAction.LoanRequest, AuditAction.LoanPayment, AuditAction.Transfer}
  }

  predicate IsMoneyEntry(e: AuditEntry) {
    e.outcome.Success? && IsMoneyAction(e.action)
  }

  /** The successful money operations of a log, in order. */
  function MoneyEntries(entries: seq<AuditEntry>): seq<AuditEntry> {
    if entries == [] then []
    else
      var last := entries[|entries| - 1];
      MoneyEntries(entries[..|entries| - 1]) + if IsMoneyEntry(last) then [last] else []
  }

  lemma MoneyAppend(entries: seq<AuditEntry>, e: AuditEntry)
    ensures MoneyEntries(entries + [e]) == MoneyEntries(entries) + if IsMoneyEntry(e) then [e] else []
  {
    assert (entries + [e])[..|entries|] == entries;
  }

  predicate DocumentsOne(e: AuditEntry, group: seq<Posting>, kind: TransactionKind) {
    |group| == 1 && group[0].entry.kind == kind && e.target == Some(AccountTarget(group[0].account))
  }

  /** What a transfer entry stands for: an outgoing and an incoming half with consecutive ids and equal amounts. */
  predicate DocumentsTransfer(e: AuditEntry, group: seq<Posting>) {
    && |group| == 2
    && group[0].entry.kind.TransferOut? && group[1].entry.kind.TransferIn?
    && group[1].entry.id == group[0].entry.id + 1
    && group[0].entry.amount == group[1].entry.amount
    && group[0].account != group[1].account
    && e.target == Some(AccountTarget(group[0].account) + "->" + AccountTarget(group[1].account))
  }

  predicate Documents(e: AuditEntry, group: seq<Posting>) {
    match e.action
    case CreateAccount => DocumentsOne(e, group, AccountCreated)
    case Deposit => DocumentsOne(e, group, TransactionKind.Deposit)
    case Withdraw => DocumentsOne(e, group, Withdrawal)
    case Fee => DocumentsOne(e, group, TransactionKind.Fee)
    case LoanRequest => DocumentsOne(e, group, LoanRequested)
    case LoanPayment => DocumentsOne(e, group, TransactionKind.LoanPayment)
    case Transfer => DocumentsTransfer(e, group)
    case _ => false
  }

  function Flatten(groups: seq<seq<Posting>>): seq<Posting> {
    if groups == [] then [] else Flatten(groups[..|groups| - 1]) + groups[|groups| - 1]
  }

  lemma FlattenAppend(groups: seq<seq<Posting>>, group: seq<Posting>)
    ensures Flatten(groups + [group]) == Flatten(groups) + group
  {
    assert (groups + [group])[..|groups|] == groups;
  }

  /** Money entry number k documents group number k. */
  ghost predicate Documented(entries: seq<AuditEntry>, groups: seq<seq<Posting>>) {
    && |groups| == |MoneyEntries(entries)|
    && forall k :: 0 <= k < |groups| ==> Documents(MoneyEntries(entries)[k], groups[k])
  }

  lemma DocumentedAppend(entries: seq<AuditEntry>, groups: seq<seq<Posting>>, e: AuditEntry, group: seq<Posting>)
    requires Documented(entries, groups) && IsMoneyEntry(e) && Documents(e, group)
    ensures Documented(entries + [e], groups + [group])
  {
    MoneyAppend(entries, e);
  }

  /**
   * The money entries of the log document consecutive groups of the journal, in order and leaving
   * nothing out; only entries made after audit ids ran out (`rest`) are undocumented.
   */
  ghost predicate Agree(app: App, groups: seq<seq<Posting>>, rest: seq<Posting>) {
    && JournalOf(Flatten(groups) + rest, app.ledger)
    && Documented(app.log.entries, groups)
    && (rest != [] ==> app.log.nextId == U64_MAX)
  }

  lemma OtherNoteAgrees(app: App, note: Note, now: u64, groups: seq<seq<Posting>>, rest: seq<Posting>)
    requires Agree(app, groups, rest)
    requires !(note.outcome.Success? && IsMoneyAction(note.action))
    ensures Agree(Finish(app, note, now).0, groups, rest)
  {
    if app.log.nextId < U64_MAX {
      MoneyAppend(app.log.entries, EntryOf(note, app.log.nextId, now));
    }
  }

  lemma TransferDocumented(l: Ledger, call: Call, session: Session, id: u64, now: u64)
    requires call.op.Transfer? && Answer(l, call).Ok?
    ensures Documents(EntryOf(NoteOf(session, call.op), id, now), PostingsOf(Decide(l, call).effect))
  {
  }

  lemma OpeningDocumented(l: Ledger, call: Call, session: Session, id: u64, now: u64)
    requires call.op.CreateAccount? && Answer(l, call).Ok?
    ensures Documents(EntryOf(NoteOf(session, call.op), id, now), PostingsOf(Decide(l, call).effect))
  {
  }

  lemma CashDocumented(l: Ledger, call: Call, session: Session, id: u64, now: u64)
    requires call.op.Deposit? || call.op.Withdraw? || call.op.ApplyFee?
    requires Answer(l, call).Ok?
    ensures Documents(EntryOf(NoteOf(session, call.op), id, now), PostingsOf(Decide(l, call).effect))
  {
  }

  lemma LoanDocumented(l: Ledger, call: Call, session: Session, id: u64, now: u64)
    requires call.op.RequestLoan? || call.op.PayLoan?
    requires Answer(l, call).Ok?
    ensures Documents(EntryOf(NoteOf(session, call.op), id, now), PostingsOf(Decide(l, call).effect))
  {
  }

  /** What a successful offered operation writes is what its audit note says. */
  lemma SuccessDocumented(l: Ledger, call: Call, session: Session, id: u64, now: u64)
    requires Offered(call.op) && Answer(l, call).Ok?
    ensures Documents(EntryOf(NoteOf(session, call.op), id, now), PostingsOf(Decide(l, call).effect))
  {
    if call.op.Transfer? {
      TransferDocumented(l, call, session, id, now);
    } else if call.op.CreateAccount? {
      OpeningDocumented(l, call, session, id, now);
    } else if call.op.RequestLoan? || call.op.PayLoan? {
      LoanDocumented(l, call, session, id, now);
    } else {
      CashDocumented(l, call, session, id, now);
    }
  }

  lemma StepJournal(journal: seq<Posting>, l: Ledger, call: Call)
    requires Valid(l) && JournalOf(journal, l) && Offered(call.op)
    ensures JournalOf(journal + PostingsOf(Decide(l, call).effect), Step(l, call))
  {
    DecisionsSane(l, call);
    Shapes(l, call);
    EffectJournal(journal, l, Decide(l, call).effect);
  }

  lemma FinishRecords(app: App, note: Note, now: u64)
    requires app.log.nextId < U64_MAX
    ensures Finish(app, note, now).0 ==
            app.(log := Log(app.log.entries + [EntryOf(note, app.log.nextId, now)], app.log.nextId + 1))
  {
  }

  lemma RegroupedJournal(groups: seq<seq<Posting>>, group: seq<Posting>)
    ensures Flatten(groups) + [] + group == Flatten(groups + [group]) + []
  {
    FlattenAppend(groups, group);
  }

  lemma RecordedAgrees(app: App, l: Ledger, note: Note, now: u64, groups: seq<seq<Posting>>, rest: seq<Posting>,
                       group: seq<Posting>)
    requires Agree(app, groups, rest) && JournalOf(Flatten(groups) + rest + group, l) && app.log.nextId < U64_MAX
    requires note.outcome.Success? && IsMoneyAction(note.action)
    requires Documents(EntryOf(note, app.log.nextId, now), group)
    ensures Agree(Finish(app.(ledger := l), note, now).0, groups + [group], [])
  {
    assert rest == [];
    FinishRecords(app.(ledger := l), note, now);
    DocumentedAppend(app.log.entries, groups, EntryOf(note, app.log.nextId, now), group);
    RegroupedJournal(groups, group);
  }

  lemma UnrecordedAgrees(app: App, l: Ledger, note: Note, now: u64, groups: seq<seq<Posting>>, rest: seq<Posting>,
                         group: seq<Posting>)
    requires Agree(app, groups, rest) && JournalOf(Flatten(groups) + rest + group, l) && app.log.nextId == U64_MAX
    ensures Agree(Finish(app.(ledger := l), note, now).0, groups, rest + group)
  {
    assert Flatten(groups) + rest + group == Flatten(groups) + (rest + group);
  }

  /** Recording a money note for a new group of postings. */
  lemma MoneyNoteAgrees(app: App, l: Ledger, note: Note, now: u64, groups: seq<seq<Posting>>, rest: seq<Posting>,
                        group: seq<Posting>)
    returns (groups': seq<seq<Posting>>, rest': seq<Posting>)
    requires Agree(app, groups, rest) && JournalOf(Flatten(groups) + rest + group, l)
    requires note.outcome.Success? && IsMoneyAction(note.action)
    requires forall id: u64 :: Documents(EntryOf(note, id, now), group)
    ensures Agree(Finish(app.(ledger := l), note, now).0, groups', rest')
  {
    if app.log.nextId < U64_MAX {
      groups', rest' := groups + [group], [];
      RecordedAgrees(app, l, note, now, groups, rest, group);
    } else {
      groups', rest' := groups, rest + group;
      UnrecordedAgrees(app, l, note, now, groups, rest, group);
    }
  }

  lemma FailureAgrees(app: App, l: Ledger, groups: seq<seq<Posting>>, rest: seq<Posting>)
    requires Agree(app, groups, rest) && JournalOf(Flatten(groups) + rest + [], l)
    ensures Agree(app.(ledger := l), groups, rest)
  {
    assert Flatten(groups) + rest + [] == Flatten(groups) + rest;
  }

  lemma FailurePostsNothing(l: Ledger, call: Call)
    requires Answer(l, call).Err?
    ensures PostingsOf(Decide(l, call).effect) == []
  {
    Shapes(l, call);
  }

  lemma BankSectionAgrees(app: App, session: Session, op: Op, times: Times, groups: seq<seq<Posting>>,
                          rest: seq<Posting>)
    returns (groups': seq<seq<Posting>>, rest': seq<Posting>)
    requires Valid(app.ledger) && Offered(op) && Agree(app, groups, rest)
    ensures Agree(BankSection(app, session, op, times).0, groups', rest')
  {
    groups', rest' := groups, rest;
    if Precheck(app, session, op).None? {
      var call := Call(op, times.first, times.second);
      var group := PostingsOf(Decide(app.ledger, call).effect);
      StepJournal(Flatten(groups) + rest, app.ledger, call);
      if Answer(app.ledger, call).Ok? {
        forall id: u64
          ensures Documents(EntryOf(NoteOf(session, op), id, times.audit), group)
        {
          SuccessDocumented(app.ledger, call, session, id, times.audit);
        }
        groups', rest' := MoneyNoteAgrees(app, Step(app.ledger, call), NoteOf(session, op), times.audit, groups, rest,
                                          group);
      } else {
        FailurePostsNothing(app.ledger, call);
        FailureAgrees(app, Step(app.ledger, call), groups, rest);
      }
    }
  }

  lemma IdentitiesDoNotMatter(app: App, identities: Identities, groups: seq<seq<Posting>>, rest: seq<Posting>)
    requires Agree(app, groups, rest)
    ensures Agree(app.(identities := identities), groups, rest)
  {
  }

  lemma CustomerSectionAgrees(app: App, session: Session, id: CustomerId, fullName: string, email: string, now: u64,
                              groups: seq<seq<Posting>>, rest: seq<Posting>)
    requires Agree(app, groups, rest)
    ensures Agree(CustomerSection(app, session, id, fullName, email, now).0, groups, rest)
  {
    var (identities, r) := Identity.CreateCustomer(app.identities, id, fullName, email);
    IdentitiesDoNotMatter(app, identities, groups, rest);
    if r.Ok? {
      OtherNoteAgrees(app.(identities := identities), CustomerNote(session, r.value.id), now, groups, rest);
    }
  }

  lemma UserSectionAgrees(app: App, h: Hasher, session: Session, request: Request, now: u64,
                          groups: seq<seq<Posting>>, rest: seq<Posting>)
    requires request.AddUser? && Agree(app, groups, rest)
    ensures Agree(UserSection(app, h, session, request, now).0, groups, rest)
  {
    var (identities, r) := Identity.CreateUser(app.identities, h, request.salt, request.userId, request.username,
                                               request.role, request.link, request.password);
    UserSectionLeaves(app, h, session, request, now);
    IdentitiesDoNotMatter(app, identities, groups, rest);
    if r.Ok? {
      OtherNoteAgrees(app.(identities := identities), UserNote(session, r.value.id), now, groups, rest);
    }
  }

  lemma HandleAgrees(app: App, h: Hasher, session: Session, request: Request, times: Times,
                     groups: seq<seq<Posting>>, rest: seq<Posting>)
    returns (groups': seq<seq<Posting>>, rest': seq<Posting>)
    requires Valid(app.ledger) && (request.Bank? ==> Offered(request.op)) && Agree(app, groups, rest)
    ensures Agree(Handle(app, h, session, request, times).0, groups', rest')
  {
    groups', rest' := groups, rest;
    match request {
      case Bank(op) => groups', rest' := BankSectionAgrees(app, session, op, times, groups, rest);
      case AddCustomer(id, fullName, email) =>
        CustomerSectionAgrees(app, session, id, fullName, email, times.audit, groups, rest);
      case AddUser(_, _, _, _, _, _) => UserSectionAgrees(app, h, session, request, times.audit, groups, rest);
    }
  }

  lemma BootstrapAgrees(app: App, h: Hasher, salt: string, id: UserId, username: string, password: string, now: u64,
                        groups: seq<seq<Posting>>, rest: seq<Posting>)
    requires Agree(app, groups, rest)
    ensures Agree(BootstrapSection(app, h, salt, id, username, password, now).0, groups, rest)
  {
    if app.identities.users.Keys != {} {
      OtherNoteAgrees(app, REFUSED_BOOTSTRAP, now, groups, rest);
    } else {
      FirstUserAgrees(app, h, salt, id, username, password, now, groups, rest);
    }
  }

  /** What a bootstrap of an empty store leaves: what was created, and at most one more note. */
  lemma FirstUserLeaves(app: App, h: Hasher, salt: string, id: UserId, username: string, password: string, now: u64)
    requires app.identities.users.Keys == {}
    ensures var (identities, r) := Identity.CreateUser(app.identities, h, salt, id, username, Admin, None, password);
            var (grown, after) := (app.(identities := identities),
                                   BootstrapSection(app, h, salt, id, username, password, now).0);
            match r
            case Err(error) => after == Finish(grown, FailedBootstrap(id, error), now).0
            case Ok(_) =>
              match Identity.Authenticate(identities, h, username, password)
              case Err(_) => after == grown
              case Ok(session) => after == Finish(grown, BootstrapNote(session), now).0
  {
  }

  lemma FirstUserAgrees(app: App, h: Hasher, salt: string, id: UserId, username: string, password: string, now: u64,
                        groups: seq<seq<Posting>>, rest: seq<Posting>)
    requires Agree(app, groups, rest) && app.identities.users.Keys == {}
    ensures Agree(BootstrapSection(app, h, salt, id, username, password, now).0, groups, rest)
  {
    var (identities, r) := Identity.CreateUser(app.identities, h, salt, id, username, Admin, None, password);
    var grown := app.(identities := identities);
    IdentitiesDoNotMatter(app, identities, groups, rest);
    FirstUserLeaves(app, h, salt, id, username, password, now);
    if r.Err? {
      OtherNoteAgrees(grown, FailedBootstrap(id, r.error), now, groups, rest);
    } else {
      var authenticated := Identity.Authenticate(identities, h, username, password);
      if authenticated.Ok? {
        OtherNoteAgrees(grown, BootstrapNote(authenticated.value), now, groups, rest);
      }
    }
  }

  lemma LoginAgrees(app: App, h: Hasher, username: string, password: string, now: u64, groups: seq<seq<Posting>>,
                    rest: seq<Posting>)
    requires Agree(app, groups, rest)
    ensures Agree(LoginSection(app, h, username, password, now).0, groups, rest)
  {
    match Identity.Authenticate(app.identities, h, username, password) {
      case Ok(session) =>
        OtherNoteAgrees(app, LoginNote(session), now, groups, rest);
      case Err(error) =>
        OtherNoteAgrees(app, FailedLogin(username, error), now, groups, rest);
    }
  }

  lemma NextAgrees(s: Server, h: Hasher, step: ApiStep, groups: seq<seq<Posting>>, rest: seq<Posting>)
    returns (groups': seq<seq<Posting>>, rest': seq<Posting>)
    requires Valid(s.app.ledger) && Enabled(s, step) && Agree(s.app, groups, rest)
    ensures Agree(Next(s, h, step).app, groups', rest')
  {
    groups', rest' := groups, rest;
    match step {
      case Bootstrap(id, username, password, salt, _, now, _, _) =>
        BootstrapAgrees(s.app, h, salt, id, username, password, now, groups, rest);
      case LoginFinish(username, password, _, _, now, _, _) =>
        LoginAgrees(s.app, h, username, password, now, groups, rest);
      case Perform(session, request, times) =>
        groups', rest' := HandleAgrees(s.app, h, session, request, times, groups, rest);
      case LogoutEnd(session, now) =>
        OtherNoteAgrees(s.app, LogoutNote(session), now, groups, rest);
      case LoginCheck(_, _) | LoginAbandon(_) | Authenticate(_, _) | LogoutBegin(_, _) =>
    }
  }

  /**
   * Over every run of the server the successful money entries of the audit log and the transactions of
   * the ledger correspond one to one and in order, a transfer entry standing for two transactions; the
   * only undocumented transactions are those made once audit ids have run out.
   */
  lemma {:induction false} LogAgreesWithLedger(h: Hasher, steps: seq<ApiStep>)
    returns (groups: seq<seq<Posting>>, rest: seq<Posting>)
    ensures Agree(ApiRuns.Run(h, steps).app, groups, rest)
    ensures ApiRuns.Run(h, steps).app.log.nextId < U64_MAX ==> rest == []
  {
    if steps == [] {
      groups, rest := [], [];
    } else {
      var init := steps[..|steps| - 1];
      groups, rest := LogAgreesWithLedger(h, init);
      if Enabled(ApiRuns.Run(h, init), steps[|steps| - 1]) {
        groups, rest := NextAgrees(ApiRuns.Run(h, init), h, steps[|steps| - 1], groups, rest);
      }
    }
  }
}
