/** The login throttle: failures counted per name inside a window, and a lock when there are too many. */
module Throttle {
  import opened Wrappers
  import opened Numbers
  import opened Text

  const FAILED_LOGIN_LIMIT: nat := 5
  const WINDOW_SECONDS: u64 := 900
  const LOCKOUT_SECONDS: u64 := 900

  datatype FailedLogin = FailedLogin(first: u64, attempts: nat, lockedUntil: Option<u64>)

  type Failures = map<string, FailedLogin>

  predicate Expired(record: FailedLogin, now: u64) {
    || (record.lockedUntil.Some? && now >= record.lockedUntil.value)
    || SaturatingSub(now, record.first) >= WINDOW_SECONDS
  }

  /** A record expires with its lock or 900 seconds after its first failure, even if the clock has gone back since. */
  lemma ExpiryExact(record: FailedLogin, now: u64)
    ensures Expired(record, now) <==>
            now >= record.first + 900 || (record.lockedUntil.Some? && now >= record.lockedUntil.value)
  {
  }

  function Expire(f: Failures, key: string, now: u64): Failures {
    if key in f && Expired(f[key], now) then f - {key} else f
  }

  predicate Locked(f: Failures, key: string, now: u64) {
    key in f && f[key].lockedUntil.Some? && now < f[key].lockedUntil.value
  }

  /** Whether a login attempt is turned away. */
  predicate Refuses(f: Failures, key: string, now: u64) {
    Locked(Expire(f, key, now), key, now)
  }

  function Counted(f: Failures, key: string, now: u64): Failures {
    var g := Expire(f, key, now);
    var record := if key in g then g[key] else FailedLogin(now, 0, None);
    var attempts := record.attempts + 1;
    g[key := FailedLogin(record.first, attempts,
                         if attempts >= FAILED_LOGIN_LIMIT then Some(SaturatingAdd(now, LOCKOUT_SECONDS))
                         else record.lockedUntil)]
  }

  datatype Event = Check(username: string, now: u64) | Failure(username: string, now: u64) | Success(username: string)

  function After(f: Failures, e: Event): Failures {
    match e
    case Check(username, now) => Expire(f, NameKey(username), now)
    case Failure(username, now) => Counted(f, NameKey(username), now)
    case Success(username) => f - {NameKey(username)}
  }

  function Replay(events: seq<Event>): Failures {
    if events == [] then map[] else After(Replay(events[..|events| - 1]), events[|events| - 1])
  }

  // ---- The history ----------------------------------------------------------------------------

  /** A run of failures: when the first one happened and how many there were. */
  datatype Window = NoWindow | Open(first: u64, failures: nat)

  /**
   * The current window of a name: opened by its first failure after the last success or after the
   * previous window ran out, and counting the failures within 900 seconds of that first one.
   */
  function WindowOf(events: seq<Event>, key: string): Window {
    if events == [] then NoWindow
    else
      var window := WindowOf(events[..|events| - 1], key);
      match events[|events| - 1]
      case Failure(username, now) =>
        if NameKey(username) != key then window
        else if window.Open? && now < window.first + WINDOW_SECONDS then Open(window.first, window.failures + 1)
        else Open(now, 1)
      case Success(username) => if NameKey(username) == key then NoWindow else window
      case Check(_, _) => window
  }

  /** Too many failures in a window that has not run out. */
  predicate Overrun(window: Window, now: u64) {
    window.Open? && window.failures >= FAILED_LOGIN_LIMIT && now < window.first + WINDOW_SECONDS
  }

  /** Readings never go back and end no later than now. */
  ghost predicate Monotone(events: seq<Event>, now: u64) {
    && (forall i :: 0 <= i < |events| && !events[i].Success? ==> events[i].now <= now)
    && forall i, j :: 0 <= i < j < |events| && !events[i].Success? && !events[j].Success? ==>
        events[i].now <= events[j].now
  }

  /** What the record of a key says about its window, when the clock has reached `now`. */
  ghost predicate Agrees(f: Failures, key: string, window: Window, now: u64) {
    if key in f then
      && window == Open(f[key].first, f[key].attempts)
      && f[key].first <= now
      && (f[key].attempts >= FAILED_LOGIN_LIMIT <==> f[key].lockedUntil.Some?)
      && (f[key].lockedUntil.Some? ==> f[key].lockedUntil.value >= SaturatingAdd(f[key].first, LOCKOUT_SECONDS))
    else window.Open? ==> now >= window.first + WINDOW_SECONDS
  }

  function ReadingOf(e: Event, before: u64): u64 {
    if e.Success? then before else e.now
  }

  lemma StepAgrees(f: Failures, e: Event, key: string, window: Window, before: u64, events: seq<Event>)
    requires before <= ReadingOf(e, before) < U64_MAX
    requires Agrees(f, key, window, before)
    requires events != [] && events[|events| - 1] == e && WindowOf(events[..|events| - 1], key) == window
    ensures Agrees(After(f, e), key, WindowOf(events, key), ReadingOf(e, before))
  {
  }

  /** The last clock reading of a history, 0 when there is none. */
  function LastReading(events: seq<Event>): u64 {
    if events == [] then 0 else ReadingOf(events[|events| - 1], LastReading(events[..|events| - 1]))
  }

  lemma {:induction false} LastReadingBound(events: seq<Event>, now: u64)
    requires forall i :: 0 <= i < |events| && !events[i].Success? ==> events[i].now <= now
    ensures LastReading(events) <= now
  {
    if events != [] {
      LastReadingBound(events[..|events| - 1], now);
    }
  }

  lemma {:induction false} ReplayAgrees(events: seq<Event>, key: string, now: u64)
    requires Monotone(events, now) && now < U64_MAX
    ensures LastReading(events) <= now
    ensures Agrees(Replay(events), key, WindowOf(events, key), LastReading(events))
  {
    LastReadingBound(events, now);
    if events != [] {
      var n := |events| - 1;
      var init, last := events[..n], events[n];
      assert forall i :: 0 <= i < n ==> init[i] == events[i];
      ReplayAgrees(init, key, now);
      if !last.Success? {
        LastReadingBound(init, last.now);
      }
      StepAgrees(Replay(init), last, key, WindowOf(init, key), LastReading(init), events);
    }
  }

  /**
   * With a clock that never goes back, a login is refused iff the name's current window is overrun and
   * the clock has not reached its very last value.
   */
  lemma RefusesExact(events: seq<Event>, username: string, now: u64)
    requires Monotone(events, now)
    ensures Refuses(Replay(events), NameKey(username), now) <==>
            Overrun(WindowOf(events, NameKey(username)), now) && now < U64_MAX
  {
    if now < U64_MAX {
      ReplayAgrees(events, NameKey(username), now);
    }
  }

  /**
   * A lock ends with the window of the first failure, however late the failure that caused it came: its
   * record may promise a later end, but until then a login is refused iff that window has not run out.
   */
  lemma LockEndsWithWindow(events: seq<Event>, username: string, now: u64)
    requires Monotone(events, now)
    ensures var (f, key, window) := (Replay(events), NameKey(username), WindowOf(events, NameKey(username)));
            && (window.Open? && now >= window.first + WINDOW_SECONDS ==> !Refuses(f, key, now))
            && (key in f && f[key].lockedUntil.Some? && now < U64_MAX ==>
                  && window.Open? && window.first == f[key].first
                  && f[key].lockedUntil.value >= SaturatingAdd(window.first, LOCKOUT_SECONDS)
                  && (Refuses(f, key, now) <==> now < window.first + WINDOW_SECONDS))
  {
    RefusesExact(events, username, now);
    if now < U64_MAX {
      ReplayAgrees(events, NameKey(username), now);
    }
  }

  /** Four failures at once, and a fifth in the last second of their window. */
  function LateFifth(username: string): seq<Event> {
    [Failure(username, 0), Failure(username, 0), Failure(username, 0), Failure(username, 0), Failure(username, 899)]
  }

  lemma LateFifthReplayed(username: string)
    ensures Replay(LateFifth(username)) == map[NameKey(username) := FailedLogin(0, 5, Some(1799))]
  {
    var e, key := LateFifth(username), NameKey(username);
    assert e[..5] == e && e[..5][..4] == e[..4] && e[..4][..3] == e[..3] && e[..3][..2] == e[..2];
    assert e[..2][..1] == e[..1] && e[..1][..0] == [];
    assert Replay(e[..1]) == map[key := FailedLogin(0, 1, None)];
    assert Replay(e[..2]) == map[key := FailedLogin(0, 2, None)];
    assert Replay(e[..3]) == map[key := FailedLogin(0, 3, None)];
    assert Replay(e[..4]) == map[key := FailedLogin(0, 4, None)];
  }

  /** A real case: the record locks the name until second 1799, but from second 900 on nobody is refused. */
  lemma LockEndsEarly(username: string)
    ensures var (f, key) := (Replay(LateFifth(username)), NameKey(username));
            && key in f && f[key].lockedUntil == Some(1799)
            && Refuses(f, key, 899)
            && forall now: u64 :: now >= 900 ==> !Refuses(f, key, now)
  {
    LateFifthReplayed(username);
  }

  class AuthThrottle {
    var failuresByUsername: map<string, FailedLogin>

    constructor ()
      ensures failuresByUsername == map[]
    {
      failuresByUsername := map[];
    }

    method ExpireIfNeeded(key: string, now: u64)
      modifies this
      ensures failuresByUsername == Expire(old(failuresByUsername), key, now)
    {
      if key in failuresByUsername {
        var record := failuresByUsername[key];
        var lockOver := record.lockedUntil.Some? && now >= record.lockedUntil.value;
        if lockOver || SaturatingSub(now, record.first) >= WINDOW_SECONDS {
          failuresByUsername := failuresByUsername - {key};
        }
      }
    }

    method EnsureAllowed(username: string, now: u64) returns (allowed: bool)
      modifies this
      ensures failuresByUsername == After(old(failuresByUsername), Check(username, now))
      ensures allowed <==> !Refuses(old(failuresByUsername), NameKey(username), now)
    {
      var key := NameKey(username);
      ExpireIfNeeded(key, now);
      if key in failuresByUsername {
        var lockedUntil := failuresByUsername[key].lockedUntil;
        if lockedUntil.Some? && now < lockedUntil.value {
          return false;
        }
      }
      return true;
    }

    method RecordSuccess(username: string)
      modifies this
      ensures failuresByUsername == After(old(failuresByUsername), Success(username))
    {
      failuresByUsername := failuresByUsername - {NameKey(username)};
    }

    method RecordFailure(username: string, now: u64)
      modifies this
      ensures failuresByUsername == After(old(failuresByUsername), Failure(username, now))
    {
      var key := NameKey(username);
      ExpireIfNeeded(key, now);
      if key !in failuresByUsername {
        failuresByUsername := failuresByUsername[key := FailedLogin(now, 0, None)];
      }
      var record := failuresByUsername[key];
      record := record.(attempts := record.attempts + 1);
      if record.attempts >= FAILED_LOGIN_LIMIT {
        record := record.(lockedUntil := Some(SaturatingAdd(now, LOCKOUT_SECONDS)));
      }
      failuresByUsername := failuresByUsername[key := record];
    }
  }
}

/** Logins as they overlap: the throttle is released between the check and the recording of the outcome. */
module LoginRace {
  import opened Wrappers
  import opened Numbers
  import opened Text
  import opened Throttle

  /** The throttle, and per name how many logins have passed the check and not yet recorded an outcome. */
  datatype Race = Race(failures: Failures, inFlight: map<string, nat>)

  const START := Race(map[], map[])

  datatype Step =
    | Begin(username: string, now: u64)
    | Fail(username: string, now: u64)
    | Succeed(username: string)
    | Abandon(username: string)

  function Pending(r: Race, key: string): nat {
    if key in r.inFlight then r.inFlight[key] else 0
  }

  function Attempts(r: Race, key: string): nat {
    if key in r.failures then r.failures[key].attempts else 0
  }

  /** A login may begin while fewer than `limit` are pending for its name; only pending logins can end. */
  predicate Enabled(r: Race, s: Step, limit: nat) {
    match s
    case Begin(username, now) => Refuses(r.failures, NameKey(username), now) || Pending(r, NameKey(username)) < limit
    case _ => Pending(r, NameKey(s.username)) > 0
  }

  function Next(r: Race, s: Step): Race {
    var key := NameKey(s.username);
    match s
    case Begin(username, now) =>
      Race(After(r.failures, Check(username, now)),
           if Refuses(r.failures, key, now) then r.inFlight else r.inFlight[key := Pending(r, key) + 1])
    case Fail(username, now) => Race(After(r.failures, Failure(username, now)), Finished(r, key))
    case Succeed(username) => Race(After(r.failures, Success(username)), Finished(r, key))
    case Abandon(username) => Race(r.failures, Finished(r, key))
  }

  function Finished(r: Race, key: string): map<string, nat> {
    r.inFlight[key := if Pending(r, key) > 0 then Pending(r, key) - 1 else 0]
  }

  function Run(steps: seq<Step>): Race {
    if steps == [] then START else Next(Run(steps[..|steps| - 1]), steps[|steps| - 1])
  }

  ghost predicate Legal(steps: seq<Step>, limit: nat) {
    forall k :: 0 <= k < |steps| ==> Enabled(Run(steps[..k]), steps[k], limit)
  }

  lemma RunPrefix(steps: seq<Step>, n: nat)
    requires n < |steps|
    ensures Run(steps[..n + 1]) == Next(Run(steps[..n]), steps[n])
  {
    assert steps[..n + 1][..n] == steps[..n];
  }

  lemma LegalPrefix(steps: seq<Step>, limit: nat)
    requires Legal(steps, limit) && steps != []
    ensures Legal(steps[..|steps| - 1], limit)
    ensures Enabled(Run(steps[..|steps| - 1]), steps[|steps| - 1], limit)
  {
    var init := steps[..|steps| - 1];
    forall k | 0 <= k < |init|
      ensures Enabled(Run(init[..k]), init[k], limit)
    {
      assert init[..k] == steps[..k];
    }
  }

  /** The inductive invariant: once the limit is reached, only logins already past the check can add failures. */
  ghost predicate Bounded(r: Race, key: string, limit: nat) {
    && Pending(r, key) <= limit
    && (Attempts(r, key) >= FAILED_LOGIN_LIMIT ==> Attempts(r, key) + Pending(r, key) <= FAILED_LOGIN_LIMIT - 1 + limit)
    && (key in r.failures ==> (r.failures[key].attempts >= FAILED_LOGIN_LIMIT <==> r.failures[key].lockedUntil.Some?))
  }

  lemma NextBounded(r: Race, s: Step, key: string, limit: nat)
    requires Bounded(r, key, limit) && Enabled(r, s, limit)
    ensures Bounded(Next(r, s), key, limit)
  {
  }

  lemma {:induction false} RunBounded(steps: seq<Step>, key: string, limit: nat)
    requires Legal(steps, limit)
    ensures Bounded(Run(steps), key, limit)
  {
    if steps != [] {
      var init := steps[..|steps| - 1];
      LegalPrefix(steps, limit);
      RunBounded(init, key, limit);
      NextBounded(Run(init), steps[|steps| - 1], key, limit);
    }
  }

  /** Whatever the clock does, overlapping logins never push a name past four plus the overlap. */
  lemma FailuresBounded(steps: seq<Step>, key: string, limit: nat)
    requires Legal(steps, limit)
    ensures Attempts(Run(steps), key) <= 4 + limit
  {
    RunBounded(steps, key, limit);
  }

  // ---- The throttle's own history -------------------------------------------------------------

  /** What the throttle sees of a step; an abandoned login tells it nothing. */
  function EventsOf(s: Step): seq<Event> {
    match s
    case Begin(username, now) => [Check(username, now)]
    case Fail(username, now) => [Failure(username, now)]
    case Succeed(username) => [Success(username)]
    case Abandon(_) => []
  }

  function HistoryOf(steps: seq<Step>): seq<Event> {
    if steps == [] then [] else HistoryOf(steps[..|steps| - 1]) + EventsOf(steps[|steps| - 1])
  }

  lemma StepReplays(r: Race, s: Step)
    ensures Next(r, s).failures == if s.Abandon? then r.failures else After(r.failures, EventsOf(s)[0])
  {
  }

  lemma HistoryGrows(events: seq<Event>, s: Step)
    ensures Replay(events + EventsOf(s)) ==
            if s.Abandon? then Replay(events) else After(Replay(events), EventsOf(s)[0])
  {
    if s.Abandon? {
      assert events + EventsOf(s) == events;
    } else {
      assert (events + EventsOf(s))[..|events|] == events;
    }
  }

  /** However logins overlap, the failures on record are those of the one history of checks and outcomes. */
  lemma {:induction false} RaceReplays(steps: seq<Step>)
    ensures Run(steps).failures == Replay(HistoryOf(steps))
  {
    if steps != [] {
      var init, last := steps[..|steps| - 1], steps[|steps| - 1];
      RaceReplays(init);
      StepReplays(Run(init), last);
      HistoryGrows(HistoryOf(init), last);
    }
  }

  // ---- The bound is reached -------------------------------------------------------------------

  /** Four failures one after the other, then `limit` logins that all pass the check before any of them fails. */
  function WorstCase(username: string, limit: nat): seq<Step> {
    seq(8 + 2 * limit, i requires 0 <= i < 8 + 2 * limit =>
      if (i < 8 && i % 2 == 0) || 8 <= i < 8 + limit then Begin(username, 0) else Fail(username, 0))
  }

  /** The record of the name after n steps of the worst case. */
  function WorstRecord(n: nat): Option<FailedLogin> {
    if n == 0 then None else Some(FailedLogin(0, n, if n >= FAILED_LOGIN_LIMIT then Some(LOCKOUT_SECONDS) else None))
  }

  function WorstAttempts(n: nat, limit: nat): nat {
    if n <= 8 then n / 2 else if n <= 8 + limit then 4 else n - 4 - limit
  }

  function WorstPending(n: nat, limit: nat): int {
    if n <= 8 then n % 2 else if n <= 8 + limit then n - 8 else 8 + 2 * limit - n
  }

  ghost predicate InWorstState(r: Race, key: string, n: nat, limit: nat) {
    && Pending(r, key) == WorstPending(n, limit)
    && (if key in r.failures then Some(r.failures[key]) else None) == WorstRecord(WorstAttempts(n, limit))
  }

  lemma WorstStep(r: Race, username: string, n: nat, limit: nat)
    requires limit >= 1 && n < 8 + 2 * limit && InWorstState(r, NameKey(username), n, limit)
    ensures Enabled(r, WorstCase(username, limit)[n], limit)
    ensures InWorstState(Next(r, WorstCase(username, limit)[n]), NameKey(username), n + 1, limit)
  {
  }

  lemma {:induction false} WorstRun(username: string, n: nat, limit: nat)
    requires limit >= 1 && n <= 8 + 2 * limit
    ensures InWorstState(Run(WorstCase(username, limit)[..n]), NameKey(username), n, limit)
  {
    if n > 0 {
      var steps := WorstCase(username, limit);
      RunPrefix(steps, n - 1);
      WorstRun(username, n - 1, limit);
      WorstStep(Run(steps[..n - 1]), username, n - 1, limit);
    }
  }

  /** The bound cannot be improved: for every overlap and every name a legal run reaches it. */
  lemma BoundIsReached(username: string, limit: nat)
    requires limit >= 1
    ensures Legal(WorstCase(username, limit), limit)
    ensures Attempts(Run(WorstCase(username, limit)), NameKey(username)) == 4 + limit
  {
    var steps := WorstCase(username, limit);
    forall k | 0 <= k < |steps|
      ensures Enabled(Run(steps[..k]), steps[k], limit)
    {
      WorstRun(username, k, limit);
      WorstStep(Run(steps[..k]), username, k, limit);
    }
    WorstRun(username, |steps|, limit);
    assert steps[..|steps|] == steps;
  }
}
