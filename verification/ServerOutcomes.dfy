/** What a client gets from the running server: logins, sessions and the requests made with them. */
module ServerOutcomes {
  import opened Numbers
  import opened Text
  import opened Ledgers
  import opened Identity
  import opened IdentityLaws
  import opened Audit
  import opened Api
  import opened ApiRuns
  import ApiOutcomes
  import Sessions
  import Throttle
  import LoginRace

  ghost predicate RightPassword(s: Server, h: Hasher, step: ApiStep)
    requires step.LoginFinish?
  {
    CanLogIn(s.app.identities, h, step.username, step.password)
  }

  /**
   * A finished login with the right password tells the throttle of a success and, unless it is dropped or
   * audit ids have run out, stores a session of that user; with a wrong one it tells the throttle of a
   * failure and stores none. Nobody is granted anything yet.
   */
  lemma LoginFinishExact(s: Server, h: Hasher, step: ApiStep)
    requires ServerSound(s, h) && step.LoginFinish? && Enabled(s, step)
    ensures var t := Next(s, h, step);
            && t.granted == s.granted
            && t.logins == LoginRace.Next(s.logins, if RightPassword(s, h, step) then LoginRace.Succeed(step.username)
                                                    else LoginRace.Fail(step.username, step.failedAt))
            && (!RightPassword(s, h, step) || step.dropped || s.app.log.nextId == U64_MAX ==> t.sessions == s.sessions)
    ensures forall id :: Matches(s.app.identities, h, id, step.username, step.password)
                         && !step.dropped && s.app.log.nextId < U64_MAX ==>
              Next(s, h, step).sessions ==
              Sessions.Issued(s.sessions, step.token, SessionOf(s.app.identities.users[id]), step.issuedAt)
  {
    LoginIff(s.app.identities, h, step.username, step.password);
    ApiOutcomes.LoginSectionExact(s.app, h, step.username, step.password, step.now);
    forall id | Matches(s.app.identities, h, id, step.username, step.password)
      ensures SessionOf(s.app.identities.users[id]) ==
              Session(id, s.app.identities.users[id].username, s.app.identities.users[id].role,
                      s.app.identities.users[id].customerId)
    {
      assert LinkFault(s.app.identities.customers, s.app.identities.users[id].role,
                       s.app.identities.users[id].customerId).None?;
    }
  }

  /** A login that the throttle lets through can be finished with any unused token. */
  lemma CheckedLoginMayFinish(s: Server, h: Hasher, username: string, at: u64, step: ApiStep)
    requires Valid(s.app.ledger) && !Throttle.Refuses(s.logins.failures, NameKey(username), at)
    requires step.LoginFinish? && step.username == username && step.token !in s.sessions
    ensures Enabled(Next(s, h, LoginCheck(username, at)), step)
  {
  }

  /** A login that the throttle refuses leaves nothing to finish that was not there before. */
  lemma RefusedLoginStops(s: Server, h: Hasher, username: string, at: u64)
    requires Valid(s.app.ledger) && Throttle.Refuses(s.logins.failures, NameKey(username), at)
    ensures var t := Next(s, h, LoginCheck(username, at));
            t.logins.inFlight == s.logins.inFlight && t.app == s.app && t.sessions == s.sessions
  {
  }

  /** A token is good for its session from its issue until eight hours later, and grants it. */
  lemma IssuedTokenGrants(s: Server, h: Hasher, token: string, session: Session, at: u64, now: u64)
    requires Valid(s.app.ledger) && token in s.sessions
    requires s.sessions[token] == Sessions.StoredSession(session, SaturatingAdd(at, 28_800))
    ensures session in Next(s, h, Authenticate(token, now)).granted <==>
            now < SaturatingAdd(at, 28_800) || session in s.granted
  {
  }

  /** A granted session may make any request; that runs its critical section and touches only the application. */
  lemma GrantedSessionPerforms(s: Server, h: Hasher, session: Session, request: Request, times: Times)
    requires Valid(s.app.ledger) && session in s.granted && (request.Bank? ==> Offered(request.op))
    ensures Enabled(s, Perform(session, request, times))
    ensures var app := match request
              case AddCustomer(id, fullName, email) =>
                CustomerSection(s.app, session, id, fullName, email, times.audit).0
              case AddUser(_, _, _, _, _, _) => UserSection(s.app, h, session, request, times.audit).0
              case Bank(op) => BankSection(s.app, session, op, times).0;
            Next(s, h, Perform(session, request, times)) == s.(app := app)
  {
  }

  /** A user whom a granted administrator creates exists afterwards, and can log in, iff the creation is possible. */
  lemma AdministratorCreatesUser(s: Server, h: Hasher, session: Session, request: Request, times: Times)
    requires ServerSound(s, h) && SoundHasher(h) && session in s.granted && session.role == Role.Admin
    requires request.AddUser? && request.userId !in s.app.identities.users
    ensures var t := Next(s, h, Perform(session, request, times));
            var u := ApiOutcomes.AsOp(request);
            && t.app.ledger == s.app.ledger
            && (request.userId in t.app.identities.users <==> Creatable(s.app.identities, h, u))
            && (Creatable(s.app.identities, h, u) ==>
                  && t.app.identities == WithUser(s.app.identities, h, u)
                  && CanLogIn(t.app.identities, h, request.username, request.password))
  {
    var u := ApiOutcomes.AsOp(request);
    GrantedSessionPerforms(s, h, session, request, times);
    ApiOutcomes.UserSectionExact(s.app, h, session, request, times.audit);
    if Creatable(s.app.identities, h, u) {
      CreateUserIff(s.app.identities, h, u);
      OnlyItsPassword(s.app.identities, h, u, request.username, request.password);
      CreatedKeeps(s.app.identities, h, u);
      LoginIff(WithUser(s.app.identities, h, u), h, request.username, request.password);
    }
  }

  /** The second half of a logout logs it, if there is an audit id left, and does nothing else. */
  lemma LogoutIsLogged(s: Server, h: Hasher, session: Session, now: u64)
    requires Valid(s.app.ledger) && session in s.granted
    ensures Enabled(s, LogoutEnd(session, now))
    ensures var t := Next(s, h, LogoutEnd(session, now));
            var entry := ApiOutcomes.StaffEntry(session, Logout, "user:" + Decimal(session.userId), "logout succeeded",
                                                s.app.log.nextId, now);
            t == s.(app := s.app.(log := if s.app.log.nextId < U64_MAX
                                         then Log(s.app.log.entries + [entry], s.app.log.nextId + 1)
                                         else s.app.log))
  {
    ApiOutcomes.LogoutSectionExact(s.app, session, now);
  }

  /** No step puts another session under the token of one that has not expired at the time of the issue. */
  lemma LiveTokensStay(s: Server, h: Hasher, step: ApiStep, token: string)
    requires Valid(s.app.ledger) && Enabled(s, step)
    requires token in s.sessions && token in Next(s, h, step).sessions
    ensures Next(s, h, step).sessions[token] == s.sessions[token]
            || ((step.Bootstrap? || step.LoginFinish?) && s.sessions[token].expiresAt <= step.issuedAt)
  {
  }

  /** A logout with a good token revokes it, whatever follows. */
  lemma LogoutRevokes(s: Server, h: Hasher, token: string, now: u64)
    requires Valid(s.app.ledger)
    ensures token !in Next(s, h, LogoutBegin(token, now)).sessions
  {
  }
}
