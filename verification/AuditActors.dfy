/** Whom the audit log names: on every run of the server, users who exist and may do what is logged. */
module AuditActors {
  import opened Numbers
  import opened Text
  import opened Domain
  import opened Ledgers
  import opened Identity
  import opened IdentityLaws
  import opened Audit
  import opened Api
  import opened ApiOutcomes
  import opened ApiRuns

  /** Who may do something that the server logs. */
  predicate Authority(role: Role, action: AuditAction) {
    match action
    case BootstrapAdmin | CreateCustomer | CreateUser => role == Role.Admin
    case CreateAccount | Fee | LoanRequest => Staff(role)
    case Login | Logout | Deposit | Withdraw | Transfer | LoanPayment => true
    case _ => false
  }

  /** A success of a user with that name and role who has the authority, or a failed login or bootstrap of nobody. */
  predicate Genuine(e: AuditEntry, users: map<UserId, User>) {
    match e.actor
    case System => e.outcome.Failure? && (e.action.Login? || e.action.BootstrapAdmin?)
    case UserActor(id, username, role) =>
      && e.outcome.Success? && Authority(role, e.action)
      && id in users && users[id].username == username && users[id].role == role
  }

  ghost predicate AllGenuine(entries: seq<AuditEntry>, users: map<UserId, User>) {
    forall i :: 0 <= i < |entries| ==> Genuine(entries[i], users)
  }

  /** At most one entry more, and that one genuine. */
  ghost predicate Extended(a: Log, b: Log, users: map<UserId, User>) {
    b.entries == a.entries || exists e :: b.entries == a.entries + [e] && Genuine(e, users)
  }

  lemma BankLogs(app: App, session: Session, op: Op, times: Times)
    requires Valid(app.ledger) && Offered(op) && SpeaksFor(session, app.identities)
    ensures Extended(app.log, BankSection(app, session, op, times).0.log, app.identities.users)
  {
    BankSectionExact(app, session, op, times);
    var e := SuccessEntry(session, op, app.log.nextId, times.audit);
    assert Entitled(app, session, op) ==> Genuine(e, app.identities.users);
  }

  lemma CustomerLogs(app: App, session: Session, id: CustomerId, fullName: string, email: string, now: u64)
    requires SpeaksFor(session, app.identities)
    ensures Extended(app.log, CustomerSection(app, session, id, fullName, email, now).0.log, app.identities.users)
  {
    CustomerSectionExact(app, session, id, fullName, email, now);
    var e := StaffEntry(session, AuditAction.CreateCustomer, "customer:" + Decimal(id), "customer created",
                        app.log.nextId, now);
    assert session.role == Role.Admin ==> Genuine(e, app.identities.users);
  }

  lemma UserLogs(app: App, h: Hasher, session: Session, request: Request, now: u64)
    requires Consistent(app.identities) && SpeaksFor(session, app.identities) && request.AddUser?
    ensures var after := UserSection(app, h, session, request, now).0;
            Extended(app.log, after.log, after.identities.users)
  {
    UserSectionExact(app, h, session, request, now);
    var e := StaffEntry(session, AuditAction.CreateUser, "user:" + Decimal(request.userId), "user created",
                        app.log.nextId, now);
    var after := UserSection(app, h, session, request, now).0;
    assert session.role == Role.Admin ==> Genuine(e, after.identities.users);
  }

  lemma LoginLogs(app: App, h: Hasher, username: string, password: string, now: u64)
    requires Consistent(app.identities) && HashesFormed(app.identities.users, h)
    ensures Extended(app.log, LoginSection(app, h, username, password, now).0.log, app.identities.users)
  {
    LoginSectionExact(app, h, username, password, now);
    if CanLogIn(app.identities, h, username, password) {
      var id :| Matches(app.identities, h, id, username, password);
      var user := app.identities.users[id];
      var e := LoginEntry(Session(id, user.username, user.role, user.customerId), app.log.nextId, now);
      assert Genuine(e, app.identities.users);
    } else {
      assert Genuine(FailedLoginEntry(username, app.log.nextId, now), app.identities.users);
    }
  }

  lemma LogoutLogs(app: App, session: Session, now: u64)
    requires SpeaksFor(session, app.identities)
    ensures Extended(app.log, LogoutSection(app, session, now).0.log, app.identities.users)
  {
    LogoutSectionExact(app, session, now);
    var e := StaffEntry(session, Logout, "user:" + Decimal(session.userId), "logout succeeded", app.log.nextId, now);
    assert Genuine(e, app.identities.users);
  }

  lemma BootstrapLogs(app: App, h: Hasher, salt: string, id: UserId, username: string, password: string, now: u64)
    requires Consistent(app.identities) && HashesFormed(app.identities.users, h) && SoundHasher(h)
    ensures var after := BootstrapSection(app, h, salt, id, username, password, now).0;
            Extended(app.log, after.log, after.identities.users)
  {
    BootstrapExact(app, h, salt, id, username, password, now);
    var u := FirstAdmin(salt, id, username, password);
    if app.identities.users == map[] && Creatable(app.identities, h, u) {
      var after := BootstrapSection(app, h, salt, id, username, password, now).0;
      assert after.identities.users[id] == UserOf(h, u);
    }
  }

  lemma HandleLogs(app: App, h: Hasher, session: Session, request: Request, times: Times)
    requires Valid(app.ledger) && Consistent(app.identities) && SpeaksFor(session, app.identities)
    requires request.Bank? ==> Offered(request.op)
    ensures var after := Handle(app, h, session, request, times).0;
            Extended(app.log, after.log, after.identities.users)
  {
    match request {
      case AddCustomer(id, fullName, email) =>
        CustomerLogs(app, session, id, fullName, email, times.audit);
        CustomerSectionExact(app, session, id, fullName, email, times.audit);
      case AddUser(_, _, _, _, _, _) => UserLogs(app, h, session, request, times.audit);
      case Bank(op) =>
        BankLogs(app, session, op, times);
        BankSectionExact(app, session, op, times);
    }
  }

  lemma StepLogs(s: Server, h: Hasher, step: ApiStep)
    requires ServerSound(s, h) && SoundHasher(h) && Enabled(s, step)
    ensures Extended(s.app.log, Next(s, h, step).app.log, Next(s, h, step).app.identities.users)
  {
    match step {
      case Bootstrap(id, username, password, salt, _, now, _, _) =>
        BootstrapLogs(s.app, h, salt, id, username, password, now);
      case LoginFinish(username, password, _, _, now, _, _) =>
        LoginLogs(s.app, h, username, password, now);
        LoginKeeps(s.app, h, username, password, now);
      case Perform(session, request, times) => HandleLogs(s.app, h, session, request, times);
      case LogoutEnd(session, now) =>
        LogoutLogs(s.app, session, now);
        FinishKeeps(s.app, LogoutNote(session), now, h);
      case _ =>
    }
  }

  lemma GrownKeepsGenuine(a: Log, b: Log, s: Identities, t: Identities)
    requires AllGenuine(a.entries, s.users) && Grown(s, t) && Extended(a, b, t.users)
    ensures AllGenuine(b.entries, t.users)
  {
    forall i | 0 <= i < |b.entries|
      ensures Genuine(b.entries[i], t.users)
    {
      if i < |a.entries| {
        assert b.entries[i] == a.entries[i];
      }
    }
  }

  /**
   * On every run each entry of the log is a success of a user who exists, had that name and role and had the
   * authority, or a failed login or bootstrap that names nobody.
   */
  lemma {:induction false} LogIsGenuine(h: Hasher, steps: seq<ApiStep>)
    requires SoundHasher(h)
    ensures AllGenuine(Run(h, steps).app.log.entries, Run(h, steps).app.identities.users)
  {
    if steps != [] {
      var s, step := Run(h, steps[..|steps| - 1]), steps[|steps| - 1];
      LogIsGenuine(h, steps[..|steps| - 1]);
      RunsSound(h, steps[..|steps| - 1]);
      if Enabled(s, step) {
        StepLogs(s, h, step);
        NextKeeps(s, h, step);
        GrownKeepsGenuine(s.app.log, Next(s, h, step).app.log, s.app.identities, Next(s, h, step).app.identities);
      }
    }
  }
}
