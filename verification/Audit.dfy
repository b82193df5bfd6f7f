/** The audit log: numbered entries and the counter that numbers them. */
module Audit {
  import opened Wrappers
  import opened Numbers
  import opened Domain
  import opened Identity

  datatype AuditActor = System | UserActor(userId: UserId, username: string, role: Role)

  datatype AuditAction =
    | BootstrapAdmin | Login | Logout | CreateCustomer | CreateUser | CreateAccount
    | UpdateAccountProfile | ActivateAccount | DeactivateAccount | CloseAccount | DeleteAccount
    | Deposit | Withdraw | Transfer | Fee | Interest | LoanRequest | LoanPayment
    | SaveState | LoadState | ExportStatement

  datatype AuditOutcome = Success | Failure

  datatype AuditEntry = AuditEntry(
    id: u64,
    occurredAt: u64,
    actor: AuditActor,
    action: AuditAction,
    outcome: AuditOutcome,
    target: Option<string>,
    message: string)

  datatype AuditError = InvalidAuditId(id: u64) | DuplicateAuditId(id: u64) | ArithmeticOverflow

  datatype Log = Log(entries: seq<AuditEntry>, nextId: u64)

  const NO_ENTRIES := Log([], 1)

  function ActorOf(session: Session): AuditActor {
    UserActor(session.userId, session.username, session.role)
  }

  /** What a handler asks to be recorded. */
  datatype Note = Note(actor: AuditActor, action: AuditAction, outcome: AuditOutcome, target: Option<string>,
                       message: string)

  function EntryOf(note: Note, id: u64, now: u64): AuditEntry {
    AuditEntry(id, now, note.actor, note.action, note.outcome, note.target, note.message)
  }

  function RecordNote(log: Log, note: Note, now: u64): (Log, Result<AuditEntry, AuditError>) {
    if log.nextId == U64_MAX then (log, Err(ArithmeticOverflow))
    else
      var entry := EntryOf(note, log.nextId, now);
      (Log(log.entries + [entry], log.nextId + 1), Ok(entry))
  }

  /** The checks of an import: ids are positive and new; the highest is remembered. */
  function CheckIds(entries: seq<AuditEntry>, seen: set<u64>, highest: u64): Result<u64, AuditError> {
    if entries == [] then Ok(highest)
    else if entries[0].id == 0 then Err(InvalidAuditId(0))
    else if entries[0].id in seen then Err(DuplicateAuditId(entries[0].id))
    else CheckIds(entries[1..], seen + {entries[0].id}, if entries[0].id > highest then entries[0].id else highest)
  }

  function ImportEntries(entries: seq<AuditEntry>): Result<Log, AuditError> {
    match CheckIds(entries, {}, 0)
    case Err(error) => Err(error)
    case Ok(highest) => if highest == U64_MAX then Err(ArithmeticOverflow) else Ok(Log(entries, highest + 1))
  }

  // ---- What an import accepts -----------------------------------------------------------------

  ghost predicate DistinctEntries(entries: seq<AuditEntry>) {
    forall i, j :: 0 <= i < j < |entries| ==> entries[i].id != entries[j].id
  }

  function HighestId(entries: seq<AuditEntry>, from: u64): u64 {
    if entries == [] then from else HighestId(entries[1..], if entries[0].id > from then entries[0].id else from)
  }

  lemma {:induction false} CheckExact(entries: seq<AuditEntry>, seen: set<u64>, highest: u64)
    ensures CheckIds(entries, seen, highest).Ok? <==>
            DistinctEntries(entries) && forall i :: 0 <= i < |entries| ==> entries[i].id != 0 && entries[i].id !in seen
    ensures CheckIds(entries, seen, highest).Ok? ==>
              CheckIds(entries, seen, highest).value == HighestId(entries, highest)
  {
    if entries != [] {
      var rest, id := entries[1..], entries[0].id;
      CheckExact(rest, seen + {id}, if id > highest then id else highest);
      assert forall i :: 0 <= i < |rest| ==> rest[i] == entries[i + 1];
      assert forall i :: 1 <= i < |entries| ==> entries[i] == rest[i - 1];
    }
  }

  lemma {:induction false} HighestIdBounds(entries: seq<AuditEntry>, from: u64)
    ensures HighestId(entries, from) >= from
    ensures forall i :: 0 <= i < |entries| ==> entries[i].id <= HighestId(entries, from)
    ensures HighestId(entries, from) == from
            || exists i :: 0 <= i < |entries| && entries[i].id == HighestId(entries, from)
  {
    if entries != [] {
      var rest, from' := entries[1..], if entries[0].id > from then entries[0].id else from;
      HighestIdBounds(rest, from');
      assert forall i :: 1 <= i < |entries| ==> entries[i] == rest[i - 1];
      if i :| 0 <= i < |rest| && rest[i].id == HighestId(rest, from') {
        assert entries[i + 1].id == HighestId(entries, from);
      }
    }
  }

  /** The logs an import can produce. */
  ghost predicate LoadableLog(log: Log) {
    && DistinctEntries(log.entries)
    && (forall i :: 0 <= i < |log.entries| ==> 1 <= log.entries[i].id < log.nextId)
    && log.nextId >= 1
    && (log.nextId > 1 ==> exists i :: 0 <= i < |log.entries| && log.entries[i].id == log.nextId - 1)
  }

  /** An import accepts exactly the entries of a loadable log, and that log is the result. */
  lemma ImportLogExact(entries: seq<AuditEntry>, log: Log)
    ensures ImportEntries(entries) == Ok(log) <==> entries == log.entries && LoadableLog(log)
  {
    CheckExact(entries, {}, 0);
    HighestIdBounds(entries, 0);
  }

  // ---- Logs that are only recorded to ---------------------------------------------------------

  /** Entry number k carries id k + 1, and the counter is one more than the number of entries. */
  ghost predicate Numbered(log: Log) {
    && log.nextId == |log.entries| + 1
    && forall i :: 0 <= i < |log.entries| ==> log.entries[i].id == i + 1
  }

  lemma RecordKeepsNumbered(log: Log, note: Note, now: u64)
    requires Numbered(log)
    ensures Numbered(RecordNote(log, note, now).0)
  {
  }

  /** A log that has only been recorded to reloads as itself, counter included. */
  lemma NumberedReloads(log: Log)
    requires Numbered(log)
    ensures LoadableLog(log) && ImportEntries(log.entries) == Ok(log)
  {
    if log.nextId > 1 {
      assert log.entries[log.nextId - 2].id == log.nextId - 1;
    }
    ImportLogExact(log.entries, log);
  }

  class AuditLog {
    var entries: seq<AuditEntry>
    var nextId: u64

    ghost function State(): Log
      reads this
    {
      Log(entries, nextId)
    }

    constructor ()
      ensures State() == NO_ENTRIES
    {
      entries, nextId := [], 1;
    }

    method Record(note: Note, now: u64) returns (r: Result<AuditEntry, AuditError>)
      modifies this
      ensures (State(), r) == RecordNote(old(State()), note, now)
    {
      var id := nextId;
      var advanced := CheckedU64(nextId + 1);
      if advanced.None? {
        return Err(ArithmeticOverflow);
      }
      nextId := advanced.value;
      var entry := EntryOf(note, id, now);
      entries := entries + [entry];
      return Ok(entry);
    }

    static method FromEntries(list: seq<AuditEntry>) returns (r: Result<AuditLog, AuditError>)
      ensures match ImportEntries(list)
              case Err(error) => r == Err(error)
              case Ok(log) => r.Ok? && fresh(r.value) && r.value.State() == log
    {
      var seen: set<u64> := {};
      var highest: u64 := 0;
      for i := 0 to |list|
        invariant CheckIds(list[i..], seen, highest) == CheckIds(list, {}, 0)
      {
        var id := list[i].id;
        assert list[i..][0].id == id && list[i..][1..] == list[i + 1..];
        if id == 0 {
          return Err(InvalidAuditId(id));
        }
        if id in seen {
          return Err(DuplicateAuditId(id));
        }
        seen := seen + {id};
        highest := if id > highest then id else highest;
      }
      var next := CheckedU64(highest + 1);
      if next.None? {
        return Err(ArithmeticOverflow);
      }
      var log := new AuditLog();
      log.entries := list;
      log.nextId := next.value;
      return Ok(log);
    }
  }
}
