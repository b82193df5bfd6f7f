/** The request handlers as they run: each critical section updates the shared objects under the write lock. */
module ApiServers {
  import opened Wrappers
  import opened Numbers
  import opened Text
  import opened Domain
  import opened Ledgers
  import opened Banks
  import opened Identity
  import opened IdentityStores
  import opened Audit
  import opened Api
  import Sessions
  import Throttle

  class ApiServer {
    const hasher: Hasher
    const bank: Bank
    const identities: IdentityStore
    const auditLog: AuditLog
    const sessions: Sessions.ApiSessionStore
    const throttle: Throttle.AuthThrottle

    ghost function AppState(): App
      reads bank, identities, auditLog
    {
      App(bank.State(), identities.State(), auditLog.State())
    }

    ghost predicate IsValid()
      reads bank
    {
      bank.IsValid()
    }

    constructor (hasher: Hasher)
      ensures fresh(bank) && fresh(identities) && fresh(auditLog) && fresh(sessions) && fresh(throttle)
      ensures IsValid() && AppState() == NEW_APP
      ensures sessions.sessionsByToken == map[] && throttle.failuresByUsername == map[]
    {
      this.hasher := hasher;
      bank := new Bank();
      identities := new IdentityStore();
      auditLog := new AuditLog();
      sessions := new Sessions.ApiSessionStore();
      throttle := new Throttle.AuthThrottle();
    }

    method RecordAudit(note: Note, now: u64) returns (r: Result<(), ApiError>)
      modifies auditLog
      ensures (AppState(), r) == Finish(old(AppState()), note, now)
    {
      var entry := auditLog.Record(note, now);
      return if entry.Ok? then Ok(()) else Err(AuditFailure);
    }

    method EnsureMoneyAccess(session: Session, id: AccountId) returns (refusal: Option<ApiError>)
      ensures refusal == MoneyAccess(AppState(), session, id)
      ensures refusal.None? <==>
              || !session.role.Customer?
              || (id in bank.accounts && bank.accounts[id].ownerId.Some?
                  && bank.accounts[id].ownerId == session.customerId)
      ensures refusal.Some? ==>
                refusal.value == if id in bank.accounts then Forbidden else BankFailure(AccountNotFound(id))
    {
      if Can(session.role, MoveMoney) {
        return None;
      }
      var refused := Authorize(session, MoveOwnMoney);
      if refused.Some? {
        return refused;
      }
      if id !in bank.accounts {
        return Some(BankFailure(AccountNotFound(id)));
      }
      var owner := bank.accounts[id].ownerId;
      if owner.Some? && owner == session.customerId {
        return None;
      }
      return Some(Forbidden);
    }

    method CreateAccount(session: Session, id: AccountId, ownerId: Option<CustomerId>, name: string, email: string,
                         opening: i64, now: u64, auditNow: u64)
      returns (r: Result<(), ApiError>)
      requires IsValid()
      modifies bank, auditLog
      ensures var op := Op.CreateAccount(id, ownerId, name, email, opening);
              (AppState(), r) == BankSection(old(AppState()), session, op, Times(now, now, auditNow))
    {
      var refused := Authorize(session, ManageAccounts);
      if refused.Some? {
        return Err(refused.value);
      }
      if ownerId.Some? && ownerId.value !in identities.customers {
        return Err(IdentityFailure(CustomerNotFound(ownerId.value)));
      }
      if opening < 0 {
        return Err(BadRequest);
      }
      var created := bank.CreateAccount(id, ownerId, name, email, opening, now);
      if created.Err? {
        return Err(BankFailure(created.error));
      }
      r := RecordAudit(NoteOf(session, Op.CreateAccount(id, ownerId, name, email, opening)), auditNow);
    }

    method Deposit(session: Session, id: AccountId, amount: i64, now: u64, auditNow: u64)
      returns (r: Result<(), ApiError>)
      requires IsValid()
      modifies bank, auditLog
      ensures (AppState(), r) == BankSection(old(AppState()), session, Op.Deposit(id, amount),
                                             Times(now, now, auditNow))
    {
      var refused := EnsureMoneyAccess(session, id);
      if refused.Some? {
        return Err(refused.value);
      }
      if amount <= 0 {
        return Err(BadRequest);
      }
      var done := bank.Deposit(id, amount, now);
      if done.Err? {
        return Err(BankFailure(done.error));
      }
      r := RecordAudit(NoteOf(session, Op.Deposit(id, amount)), auditNow);
    }

    method Withdraw(session: Session, id: AccountId, amount: i64, now: u64, auditNow: u64)
      returns (r: Result<(), ApiError>)
      requires IsValid()
      modifies bank, auditLog
      ensures (AppState(), r) == BankSection(old(AppState()), session, Op.Withdraw(id, amount),
                                             Times(now, now, auditNow))
    {
      var refused := EnsureMoneyAccess(session, id);
      if refused.Some? {
        return Err(refused.value);
      }
      if amount <= 0 {
        return Err(BadRequest);
      }
      var done := bank.Withdraw(id, amount, now);
      if done.Err? {
        return Err(BankFailure(done.error));
      }
      r := RecordAudit(NoteOf(session, Op.Withdraw(id, amount)), auditNow);
    }

    method PayLoan(session: Session, id: AccountId, amount: i64, now: u64, auditNow: u64)
      returns (r: Result<(), ApiError>)
      requires IsValid()
      modifies bank, auditLog
      ensures (AppState(), r) == BankSection(old(AppState()), session, Op.PayLoan(id, amount),
                                             Times(now, now, auditNow))
    {
      var refused := EnsureMoneyAccess(session, id);
      if refused.Some? {
        return Err(refused.value);
      }
      if amount <= 0 {
        return Err(BadRequest);
      }
      var done := bank.PayLoan(id, amount, now);
      if done.Err? {
        return Err(BankFailure(done.error));
      }
      r := RecordAudit(NoteOf(session, Op.PayLoan(id, amount)), auditNow);
    }

    method ApplyFee(session: Session, id: AccountId, amount: i64, now: u64, auditNow: u64)
      returns (r: Result<(), ApiError>)
      requires IsValid()
      modifies bank, auditLog
      ensures (AppState(), r) == BankSection(old(AppState()), session, Op.ApplyFee(id, amount),
                                             Times(now, now, auditNow))
    {
      var refused := Authorize(session, MoveMoney);
      if refused.Some? {
        return Err(refused.value);
      }
      if amount <= 0 {
        return Err(BadRequest);
      }
      var done := bank.ApplyFee(id, amount, now);
      if done.Err? {
        return Err(BankFailure(done.error));
      }
      r := RecordAudit(NoteOf(session, Op.ApplyFee(id, amount)), auditNow);
    }

    method RequestLoan(session: Session, id: AccountId, amount: i64, now: u64, auditNow: u64)
      returns (r: Result<(), ApiError>)
      requires IsValid()
      modifies bank, auditLog
      ensures (AppState(), r) == BankSection(old(AppState()), session, Op.RequestLoan(id, amount),
                                             Times(now, now, auditNow))
    {
      var refused := Authorize(session, MoveMoney);
      if refused.Some? {
        return Err(refused.value);
      }
      if amount <= 0 {
        return Err(BadRequest);
      }
      var done := bank.RequestLoan(id, amount, now);
      if done.Err? {
        return Err(BankFailure(done.error));
      }
      r := RecordAudit(NoteOf(session, Op.RequestLoan(id, amount)), auditNow);
    }

    method Transfer(session: Session, source: AccountId, target: AccountId, amount: i64, now: u64, later: u64,
                    auditNow: u64)
      returns (r: Result<(), ApiError>)
      requires IsValid()
      modifies bank, auditLog
      ensures (AppState(), r) == BankSection(old(AppState()), session, Op.Transfer(source, target, amount),
                                             Times(now, later, auditNow))
    {
      var refused := EnsureMoneyAccess(session, source);
      if refused.Some? {
        return Err(refused.value);
      }
      if amount <= 0 {
        return Err(BadRequest);
      }
      var done := bank.Transfer(source, target, amount, now, later);
      if done.Err? {
        return Err(BankFailure(done.error));
      }
      r := RecordAudit(NoteOf(session, Op.Transfer(source, target, amount)), auditNow);
    }

    method CreateCustomer(session: Session, id: CustomerId, fullName: string, email: string, auditNow: u64)
      returns (r: Result<(), ApiError>)
      modifies identities, auditLog
      ensures (AppState(), r) == CustomerSection(old(AppState()), session, id, fullName, email, auditNow)
    {
      var refused := Authorize(session, ManageIdentity);
      if refused.Some? {
        return Err(refused.value);
      }
      var created := identities.CreateCustomer(id, fullName, email);
      if created.Err? {
        return Err(IdentityFailure(created.error));
      }
      r := RecordAudit(CustomerNote(session, created.value.id), auditNow);
    }

    method CreateUser(session: Session, id: UserId, username: string, role: Role, link: Option<CustomerId>,
                      password: string,
                      salt: string, auditNow: u64)
      returns (r: Result<(), ApiError>)
      modifies identities, auditLog
      ensures (AppState(), r) ==
              UserSection(old(AppState()), hasher, session, AddUser(id, username, role, link, password, salt), auditNow)
    {
      var refused := Authorize(session, ManageIdentity);
      if refused.Some? {
        return Err(refused.value);
      }
      var created := identities.CreateUser(hasher, salt, id, username, role, link, password);
      if created.Err? {
        return Err(IdentityFailure(created.error));
      }
      r := RecordAudit(UserNote(session, created.value.id), auditNow);
    }

    /** Refuse and record once there are users, else create the administrator, record and log in. */
    method BootstrapAdmin(id: UserId, username: string, password: string, salt: string, draws: seq<string>,
                          auditNow: u64, issuedAt: u64)
      returns (r: Result<Session, ApiError>, token: string)
      requires exists t :: t in draws && t !in Sessions.Sweep(sessions.sessionsByToken, issuedAt)
      modifies identities, auditLog, sessions
      ensures (AppState(), r) == BootstrapSection(old(AppState()), hasher, salt, id, username, password, auditNow)
      ensures r.Err? ==> sessions.sessionsByToken == old(sessions.sessionsByToken)
      ensures r.Ok? ==>
                && Sessions.FirstUnused(draws, Sessions.Sweep(old(sessions.sessionsByToken), issuedAt), token)
                && sessions.sessionsByToken == Sessions.Issued(old(sessions.sessionsByToken), token, r.value, issuedAt)
    {
      if identities.users.Keys != {} {
        var refused := RecordAudit(REFUSED_BOOTSTRAP, auditNow);
        return Err(if refused.Ok? then Conflict else AuditFailure), "";
      }
      var created := identities.CreateUser(hasher, salt, id, username, Admin, None, password);
      if created.Err? {
        var failed := RecordAudit(FailedBootstrap(id, created.error), auditNow);
        return Err(if failed.Ok? then IdentityFailure(created.error) else AuditFailure), "";
      }
      var session := identities.Authenticate(hasher, username, password);
      if session.Err? {
        return Err(IdentityFailure(session.error)), "";
      }
      var recorded := RecordAudit(BootstrapNote(session.value), auditNow);
      if recorded.Err? {
        return Err(AuditFailure), "";
      }
      var issued, expiresAt := sessions.IssueSession(session.value, issuedAt, draws);
      return Ok(session.value), issued;
    }

    /** The first half of a login, under the throttle lock alone. */
    method CheckLogin(username: string, now: u64) returns (r: Result<(), ApiError>)
      modifies throttle
      ensures throttle.failuresByUsername ==
              Throttle.After(old(throttle.failuresByUsername), Throttle.Check(username, now))
      ensures r == if Throttle.Refuses(old(throttle.failuresByUsername), NameKey(username), now)
                   then Err(TooManyRequests) else Ok(())
    {
      var allowed := throttle.EnsureAllowed(username, now);
      return if allowed then Ok(()) else Err(TooManyRequests);
    }

    /** The second half, under the write lock: verify, tell the throttle, record, and issue a session. */
    method FinishLogin(username: string, password: string, draws: seq<string>,
                       failedAt: u64, auditNow: u64, issuedAt: u64)
      returns (r: Result<Session, ApiError>, token: string)
      requires exists t :: t in draws && t !in Sessions.Sweep(sessions.sessionsByToken, issuedAt)
      modifies auditLog, throttle, sessions
      ensures (AppState(), r) == LoginSection(old(AppState()), hasher, username, password, auditNow)
      ensures throttle.failuresByUsername ==
              Throttle.After(old(throttle.failuresByUsername),
                             if Identity.Authenticate(old(identities.State()), hasher, username, password).Ok?
                             then Throttle.Success(username)
                             else Throttle.Failure(username, failedAt))
      ensures r.Err? ==> sessions.sessionsByToken == old(sessions.sessionsByToken)
      ensures r.Ok? ==>
                && Sessions.FirstUnused(draws, Sessions.Sweep(old(sessions.sessionsByToken), issuedAt), token)
                && sessions.sessionsByToken == Sessions.Issued(old(sessions.sessionsByToken), token, r.value, issuedAt)
    {
      var session := identities.Authenticate(hasher, username, password);
      if session.Err? {
        throttle.RecordFailure(username, failedAt);
        var failed := RecordAudit(FailedLogin(username, session.error), auditNow);
        return Err(if failed.Ok? then IdentityFailure(session.error) else AuditFailure), "";
      }
      throttle.RecordSuccess(username);
      var recorded := RecordAudit(LoginNote(session.value), auditNow);
      if recorded.Err? {
        return Err(AuditFailure), "";
      }
      var issued, expiresAt := sessions.IssueSession(session.value, issuedAt, draws);
      return Ok(session.value), issued;
    }

    method AuthenticateRequest(token: string, now: u64) returns (r: Result<Session, ApiError>)
      modifies sessions
      ensures sessions.sessionsByToken == Sessions.Sweep(old(sessions.sessionsByToken), now)
      ensures r == match Sessions.Lookup(old(sessions.sessionsByToken), token, now)
                   case None => Err(Unauthorized)
                   case Some(session) => Ok(session)
    {
      var found := sessions.AuthenticateToken(token, now);
      return if found.Some? then Ok(found.value) else Err(Unauthorized);
    }

    /** The first half of a logout, under the session lock: the token is looked up and revoked. */
    method BeginLogout(token: string, now: u64) returns (r: Result<Session, ApiError>)
      modifies sessions
      ensures r == match Sessions.Lookup(old(sessions.sessionsByToken), token, now)
                   case None => Err(Unauthorized)
                   case Some(session) => Ok(session)
      ensures sessions.sessionsByToken ==
              Sessions.Sweep(old(sessions.sessionsByToken), now) - (if r.Ok? then {token} else {})
    {
      r := AuthenticateRequest(token, now);
      if r.Ok? {
        sessions.RevokeToken(token);
      }
    }

    method FinishLogout(session: Session, auditNow: u64) returns (r: Result<(), ApiError>)
      modifies auditLog
      ensures (AppState(), r) == LogoutSection(old(AppState()), session, auditNow)
    {
      r := RecordAudit(LogoutNote(session), auditNow);
    }
  }
}
