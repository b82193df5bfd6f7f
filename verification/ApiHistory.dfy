/** The session store and the throttle of a running server are those of their own event histories. */
module ApiHistory {
  import opened Wrappers
  import opened Numbers
  import opened Text
  import opened Ledgers
  import opened Identity
  import opened Api
  import opened ApiRuns
  import Sessions
  import Throttle
  import LoginRace

  // ---- Sessions -------------------------------------------------------------------------------

  function IssueEvents(r: Result<Session, ApiError>, token: string, issuedAt: u64, dropped: bool): seq<Sessions.Event> {
    if r.Ok? && !dropped then [Sessions.Issue(token, r.value, issuedAt)] else []
  }

  /** What one step of the server does to the session store. */
  function SessionEvents(s: Server, h: Hasher, step: ApiStep): seq<Sessions.Event> {
    match step
    case Bootstrap(id, username, password, salt, token, now, issuedAt, dropped) =>
      IssueEvents(BootstrapSection(s.app, h, salt, id, username, password, now).1, token, issuedAt, dropped)
    case LoginFinish(username, password, token, _, now, issuedAt, dropped) =>
      IssueEvents(LoginSection(s.app, h, username, password, now).1, token, issuedAt, dropped)
    case Authenticate(token, now) => [Sessions.Authenticate(token, now)]
    case LogoutBegin(token, now) =>
      [Sessions.Authenticate(token, now)] +
      if Sessions.Lookup(s.sessions, token, now).Some? then [Sessions.Revoke(token)] else []
    case _ => []
  }

  /** The session events of a whole run. */
  function SessionHistory(h: Hasher, steps: seq<ApiStep>): seq<Sessions.Event> {
    if steps == [] then []
    else
      var before := Run(h, steps[..|steps| - 1]);
      SessionHistory(h, steps[..|steps| - 1]) +
      if Enabled(before, steps[|steps| - 1]) then SessionEvents(before, h, steps[|steps| - 1]) else []
  }

  function AfterAll(s: Sessions.Store, events: seq<Sessions.Event>): Sessions.Store {
    if events == [] then s else Sessions.After(AfterAll(s, events[..|events| - 1]), events[|events| - 1])
  }

  lemma {:induction false} ReplayConcat(a: seq<Sessions.Event>, b: seq<Sessions.Event>)
    ensures Sessions.Replay(a + b) == AfterAll(Sessions.Replay(a), b)
  {
    if b == [] {
      assert a + b == a;
    } else {
      assert (a + b)[..|a + b| - 1] == a + b[..|b| - 1];
      ReplayConcat(a, b[..|b| - 1]);
    }
  }

  lemma AfterFew(s: Sessions.Store, first: Sessions.Event, second: Sessions.Event)
    ensures AfterAll(s, [first]) == Sessions.After(s, first)
    ensures AfterAll(s, [first, second]) == Sessions.After(Sessions.After(s, first), second)
  {
    assert [first, second][..1] == [first] && [first][..0] == [];
  }

  lemma StepSessions(s: Server, h: Hasher, step: ApiStep)
    requires Valid(s.app.ledger) && Enabled(s, step)
    ensures Next(s, h, step).sessions == AfterAll(s.sessions, SessionEvents(s, h, step))
  {
    var events := SessionEvents(s, h, step);
    if events != [] {
      AfterFew(s.sessions, events[0], events[|events| - 1]);
    }
  }

  /** The session store of a running server is the replay of its issues, look-ups and revocations. */
  lemma {:induction false} SessionsOfServer(h: Hasher, steps: seq<ApiStep>)
    ensures Run(h, steps).sessions == Sessions.Replay(SessionHistory(h, steps))
  {
    if steps != [] {
      var init, step := steps[..|steps| - 1], steps[|steps| - 1];
      var before := Run(h, init);
      SessionsOfServer(h, init);
      if Enabled(before, step) {
        StepSessions(before, h, step);
        ReplayConcat(SessionHistory(h, init), SessionEvents(before, h, step));
      } else {
        assert SessionHistory(h, steps) == SessionHistory(h, init) + [];
        assert SessionHistory(h, init) + [] == SessionHistory(h, init);
      }
    }
  }

  /**
   * So a bearer token is good on the server iff its latest issue was not revoked and no clock reading since reached
   * its expiry.
   */
  lemma ServerAuthenticates(h: Hasher, steps: seq<ApiStep>, token: string, now: u64, session: Session)
    ensures Sessions.Lookup(Run(h, steps).sessions, token, now) == Some(session) <==>
            exists i: nat, at: u64 :: Sessions.Holds(SessionHistory(h, steps), i, token, session, at)
                                      && now < SaturatingAdd(at, Sessions.SESSION_TTL)
  {
    SessionsOfServer(h, steps);
    Sessions.AuthenticateExact(SessionHistory(h, steps), token, now, session);
  }

  /** With a clock that never goes back, only the latest issue, its expiry and revocations matter on the server. */
  lemma ServerSweepingIsInvisible(h: Hasher, steps: seq<ApiStep>, token: string, now: u64, session: Session)
    requires Sessions.Monotone(SessionHistory(h, steps), now)
    ensures Sessions.Lookup(Run(h, steps).sessions, token, now) == Some(session) <==>
            exists i: nat, at: u64 :: Sessions.LatestIssue(SessionHistory(h, steps), i, token, session, at)
                                      && now < SaturatingAdd(at, Sessions.SESSION_TTL)
  {
    SessionsOfServer(h, steps);
    Sessions.SweepingIsInvisible(SessionHistory(h, steps), token, now, session);
  }

  // ---- Logins ---------------------------------------------------------------------------------

  /** At every point of the run at most so many logins of each name have passed the throttle and not ended. */
  ghost predicate AtMostPending(h: Hasher, steps: seq<ApiStep>, limit: nat) {
    forall k, key :: 0 <= k <= |steps| ==> LoginRace.Pending(Run(h, steps[..k]).logins, key) <= limit
  }

  /** What one step of the server is for the login race. */
  function LoginSteps(s: Server, h: Hasher, step: ApiStep): seq<LoginRace.Step> {
    match step
    case LoginCheck(username, now) => [LoginRace.Begin(username, now)]
    case LoginFinish(_, _, _, _, _, _, _) => [OutcomeOf(s, h, step)]
    case LoginAbandon(username) => [LoginRace.Abandon(username)]
    case _ => []
  }

  /** The login steps of a whole run. */
  function LoginHistory(h: Hasher, steps: seq<ApiStep>): seq<LoginRace.Step> {
    if steps == [] then []
    else
      var before := Run(h, steps[..|steps| - 1]);
      LoginHistory(h, steps[..|steps| - 1]) +
      if Enabled(before, steps[|steps| - 1]) then LoginSteps(before, h, steps[|steps| - 1]) else []
  }

  lemma StepLogins(s: Server, h: Hasher, step: ApiStep)
    requires Valid(s.app.ledger) && Enabled(s, step)
    ensures var (more, t) := (LoginSteps(s, h, step), Next(s, h, step));
            |more| <= 1 && t.logins == if more == [] then s.logins else LoginRace.Next(s.logins, more[0])
  {
  }

  /** A step of the server is possible in the race if the logins it leaves pending stay within the limit. */
  lemma StepLegal(s: Server, h: Hasher, step: ApiStep, limit: nat)
    requires Valid(s.app.ledger) && Enabled(s, step) && LoginSteps(s, h, step) != []
    requires forall key :: LoginRace.Pending(Next(s, h, step).logins, key) <= limit
    ensures LoginRace.Enabled(s.logins, LoginSteps(s, h, step)[0], limit)
  {
    StepLogins(s, h, step);
    assert LoginRace.Pending(Next(s, h, step).logins, NameKey(LoginSteps(s, h, step)[0].username)) <= limit;
  }

  lemma RaceAppend(race: seq<LoginRace.Step>, more: seq<LoginRace.Step>, limit: nat)
    requires |more| <= 1
    ensures LoginRace.Run(race + more) ==
            if more == [] then LoginRace.Run(race) else LoginRace.Next(LoginRace.Run(race), more[0])
    ensures LoginRace.Legal(race, limit) && (more != [] ==> LoginRace.Enabled(LoginRace.Run(race), more[0], limit)) ==>
              LoginRace.Legal(race + more, limit)
  {
    var all := race + more;
    if more == [] {
      assert all == race;
    } else {
      assert all[..|race|] == race;
      assert forall k :: 0 <= k < |race| ==> all[..k] == race[..k] && all[k] == race[k];
    }
  }

  /** The throttle of a running server, with its pending logins, is the state of the race of its logins. */
  lemma {:induction false} LoginsOfServer(h: Hasher, steps: seq<ApiStep>)
    ensures LoginRace.Run(LoginHistory(h, steps)) == Run(h, steps).logins
  {
    if steps != [] {
      var init, step := steps[..|steps| - 1], steps[|steps| - 1];
      var before := Run(h, init);
      LoginsOfServer(h, init);
      if Enabled(before, step) {
        StepLogins(before, h, step);
        RaceAppend(LoginHistory(h, init), LoginSteps(before, h, step), 0);
      } else {
        RaceAppend(LoginHistory(h, init), [], 0);
      }
    }
  }

  lemma EarlierPending(h: Hasher, steps: seq<ApiStep>, limit: nat)
    requires steps != [] && AtMostPending(h, steps, limit)
    ensures AtMostPending(h, steps[..|steps| - 1], limit)
    ensures forall key :: LoginRace.Pending(Run(h, steps).logins, key) <= limit
  {
    var init := steps[..|steps| - 1];
    assert steps[..|steps|] == steps;
    forall k, key | 0 <= k <= |init|
      ensures LoginRace.Pending(Run(h, init[..k]).logins, key) <= limit
    {
      assert init[..k] == steps[..k];
    }
  }

  lemma {:induction false} ServerLegal(h: Hasher, steps: seq<ApiStep>, limit: nat)
    requires AtMostPending(h, steps, limit)
    ensures LoginRace.Legal(LoginHistory(h, steps), limit)
  {
    if steps != [] {
      var init, step := steps[..|steps| - 1], steps[|steps| - 1];
      var before := Run(h, init);
      EarlierPending(h, steps, limit);
      ServerLegal(h, init, limit);
      LoginsOfServer(h, init);
      if Enabled(before, step) {
        StepLogins(before, h, step);
        assert Run(h, steps) == Next(before, h, step);
        if LoginSteps(before, h, step) != [] {
          StepLegal(before, h, step, limit);
        }
        RaceAppend(LoginHistory(h, init), LoginSteps(before, h, step), limit);
      } else {
        RaceAppend(LoginHistory(h, init), [], limit);
      }
    }
  }

  /** On a server where at most `limit` logins of a name overlap, no name has more than four plus `limit` failures. */
  lemma ServerFailuresBounded(h: Hasher, steps: seq<ApiStep>, key: string, limit: nat)
    requires AtMostPending(h, steps, limit)
    ensures LoginRace.Attempts(Run(h, steps).logins, key) <= 4 + limit
  {
    LoginsOfServer(h, steps);
    ServerLegal(h, steps, limit);
    LoginRace.FailuresBounded(LoginHistory(h, steps), key, limit);
  }

  /** With a clock that never goes back, the server turns a login away iff the current window of its name is overrun. */
  lemma ServerRefuses(h: Hasher, steps: seq<ApiStep>, username: string, now: u64)
    requires Throttle.Monotone(LoginRace.HistoryOf(LoginHistory(h, steps)), now)
    ensures var window := Throttle.WindowOf(LoginRace.HistoryOf(LoginHistory(h, steps)), NameKey(username));
            Throttle.Refuses(Run(h, steps).logins.failures, NameKey(username), now) <==>
            Throttle.Overrun(window, now) && now < U64_MAX
  {
    LoginsOfServer(h, steps);
    LoginRace.RaceReplays(LoginHistory(h, steps));
    Throttle.RefusesExact(LoginRace.HistoryOf(LoginHistory(h, steps)), username, now);
  }
}
