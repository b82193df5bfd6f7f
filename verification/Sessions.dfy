/** Bearer sessions that expire lazily, and what the history of the store says about them. */
module Sessions {
  import opened Wrappers
  import opened Numbers
  import opened Identity

  const SESSION_TTL: u64 := 28_800

  datatype StoredSession = StoredSession(session: Session, expiresAt: u64)

  type Store = map<string, StoredSession>

  /** The entries that have not expired. */
  function Sweep(s: Store, now: u64): Store {
    map token | token in s && s[token].expiresAt > now :: s[token]
  }

  function Issued(s: Store, token: string, session: Session, now: u64): Store {
    Sweep(s, now)[token := StoredSession(session, SaturatingAdd(now, SESSION_TTL))]
  }

  function Lookup(s: Store, token: string, now: u64): Option<Session> {
    if token in Sweep(s, now) then Some(s[token].session) else None
  }

  datatype Event =
    | Issue(token: string, session: Session, now: u64)
    | Authenticate(token: string, now: u64)
    | Revoke(token: string)

  function After(s: Store, e: Event): Store {
    match e
    case Issue(token, session, now) => Issued(s, token, session, now)
    case Authenticate(_, now) => Sweep(s, now)
    case Revoke(token) => s - {token}
  }

  function Replay(events: seq<Event>): Store {
    if events == [] then map[] else After(Replay(events[..|events| - 1]), events[|events| - 1])
  }

  // ---- The history ----------------------------------------------------------------------------

  /** Event i is the latest issue of the token, and no revocation followed. */
  ghost predicate LatestIssue(events: seq<Event>, i: nat, token: string, session: Session, at: u64) {
    && i < |events| && events[i] == Issue(token, session, at)
    && forall j :: i < j < |events| ==> !(events[j].Issue? && events[j].token == token) && events[j] != Revoke(token)
  }

  /** Every clock reading after event i was before the given time. */
  ghost predicate QuietSince(events: seq<Event>, i: nat, expiresAt: u64) {
    forall j :: i < j < |events| && !events[j].Revoke? ==> events[j].now < expiresAt
  }

  ghost predicate Holds(events: seq<Event>, i: nat, token: string, session: Session, at: u64) {
    LatestIssue(events, i, token, session, at) && QuietSince(events, i, SaturatingAdd(at, SESSION_TTL))
  }

  /** The store keeps an entry only because of such an issue ... */
  lemma {:induction false} EntryHasIssue(events: seq<Event>, token: string) returns (i: nat, at: u64)
    requires token in Replay(events)
    ensures Holds(events, i, token, Replay(events)[token].session, at)
    ensures Replay(events)[token].expiresAt == SaturatingAdd(at, SESSION_TTL)
  {
    var n := |events| - 1;
    var last := events[n];
    if last.Issue? && last.token == token {
      i, at := n, last.now;
    } else {
      i, at := EntryHasIssue(events[..n], token);
    }
  }

  /** ... and keeps it for every such issue. */
  lemma {:induction false} IssueHasEntry(events: seq<Event>, i: nat, token: string, session: Session, at: u64)
    requires Holds(events, i, token, session, at)
    ensures token in Replay(events)
    ensures Replay(events)[token] == StoredSession(session, SaturatingAdd(at, SESSION_TTL))
  {
    var n := |events| - 1;
    if i < n {
      var init := events[..n];
      assert forall j :: 0 <= j < n ==> init[j] == events[j];
      IssueHasEntry(init, i, token, session, at);
    }
  }

  /**
   * Whatever the clock does: a token is good iff its latest issue was not revoked and no clock reading since has
   * reached its expiry.
   */
  lemma AuthenticateExact(events: seq<Event>, token: string, now: u64, session: Session)
    ensures Lookup(Replay(events), token, now) == Some(session) <==>
            exists i: nat, at: u64 :: Holds(events, i, token, session, at) && now < SaturatingAdd(at, SESSION_TTL)
  {
    if Lookup(Replay(events), token, now) == Some(session) {
      var i, at := EntryHasIssue(events, token);
    }
    if i: nat, at: u64 :| Holds(events, i, token, session, at) && now < SaturatingAdd(at, SESSION_TTL) {
      IssueHasEntry(events, i, token, session, at);
    }
  }

  /** A session lasts eight hours from its issue, or until the end of the clock. */
  lemma SessionLasts(s: Store, token: string, session: Session, at: u64, now: u64)
    ensures Lookup(Issued(s, token, session, at), token, now) ==
            if now < at + 28_800 && now < U64_MAX then Some(session) else None
  {
  }

  /** Clock readings never go back, and the present is not before any of them. */
  ghost predicate Monotone(events: seq<Event>, now: u64) {
    forall j :: 0 <= j < |events| && !events[j].Revoke? ==> events[j].now <= now
  }

  /**
   * With a clock that never goes back, sweeping early makes no difference: only the latest issue and revocations
   * count.
   */
  lemma SweepingIsInvisible(events: seq<Event>, token: string, now: u64, session: Session)
    requires Monotone(events, now)
    ensures Lookup(Replay(events), token, now) == Some(session) <==>
            exists i: nat, at: u64 :: LatestIssue(events, i, token, session, at) && now < SaturatingAdd(at, SESSION_TTL)
  {
    AuthenticateExact(events, token, now, session);
    if i: nat, at: u64 :| LatestIssue(events, i, token, session, at) && now < SaturatingAdd(at, SESSION_TTL) {
      assert Holds(events, i, token, session, at);
    }
  }

  /** The token is the first of the draws that is not in use. */
  ghost predicate FirstUnused(draws: seq<string>, s: Store, token: string) {
    exists k :: 0 <= k < |draws| && draws[k] == token && token !in s && forall j :: 0 <= j < k ==> draws[j] in s
  }

  class ApiSessionStore {
    var sessionsByToken: map<string, StoredSession>

    constructor ()
      ensures sessionsByToken == map[]
    {
      sessionsByToken := map[];
    }

    method RemoveExpired(now: u64)
      modifies this
      ensures sessionsByToken == Sweep(old(sessionsByToken), now)
    {
      sessionsByToken := map token | token in sessionsByToken && sessionsByToken[token].expiresAt > now ::
          sessionsByToken[token];
    }

    /** Draw until a token is not in use; `draws` is what the random generator will answer. */
    method UnusedToken(draws: seq<string>) returns (token: string)
      requires exists t :: t in draws && t !in sessionsByToken
      ensures FirstUnused(draws, sessionsByToken, token)
    {
      ghost var unused :| unused in draws && unused !in sessionsByToken;
      var k := 0;
      while draws[k] in sessionsByToken
        invariant k < |draws| && unused in draws[k..]
        invariant forall j :: 0 <= j < k ==> draws[j] in sessionsByToken
        decreases |draws| - k
      {
        assert draws[k..] == [draws[k]] + draws[k + 1..];
        k := k + 1;
      }
      return draws[k];
    }

    method IssueSession(session: Session, now: u64, draws: seq<string>) returns (token: string, expiresAt: u64)
      requires exists t :: t in draws && t !in Sweep(sessionsByToken, now)
      modifies this
      ensures FirstUnused(draws, Sweep(old(sessionsByToken), now), token)
      ensures expiresAt == SaturatingAdd(now, SESSION_TTL)
      ensures sessionsByToken == Issued(old(sessionsByToken), token, session, now)
      ensures Lookup(sessionsByToken, token, now) == (if expiresAt > now then Some(session) else None)
      ensures forall t :: t != token ==> Lookup(sessionsByToken, t, now) == Lookup(old(sessionsByToken), t, now)
    {
      RemoveExpired(now);
      token := UnusedToken(draws);
      expiresAt := SaturatingAdd(now, SESSION_TTL);
      sessionsByToken := sessionsByToken[token := StoredSession(session, expiresAt)];
    }

    method AuthenticateToken(token: string, now: u64) returns (r: Option<Session>)
      modifies this
      ensures sessionsByToken == Sweep(old(sessionsByToken), now)
      ensures r == Lookup(old(sessionsByToken), token, now)
    {
      RemoveExpired(now);
      if token in sessionsByToken {
        return Some(sessionsByToken[token].session);
      }
      return None;
    }

    method RevokeToken(token: string)
      modifies this
      ensures sessionsByToken == old(sessionsByToken) - {token}
    {
      sessionsByToken := sessionsByToken - {token};
    }
  }
}
