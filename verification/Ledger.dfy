/** The admission controller's idempotency ledger: reservations, durable commits,
    compare-and-set transitions, fail-closed poisoning and reload from the log. */
module Ledger {
  import opened Base

  datatype Status = Admitted | Queued | Running | Completed | Failed | TimedOut | Cancelled

  predicate Terminal(s: Status) { s in {Completed, Failed, TimedOut, Cancelled} }

  /** ADMITTED < QUEUED < RUNNING < terminal. */
  function Rank(s: Status): nat {
    match s case Admitted => 0 case Queued => 1 case Running => 2 case _ => 3
  }

  predicate LegalTransition(from: Status, to: Status) {
    match from
    case Admitted => to != Admitted
    case Queued => to in {Running, Failed, TimedOut, Cancelled}
    case Running => Terminal(to)
    case _ => false
  }

  /** A JSON document, opaque to the ledger; the empty string stands for an empty object. */
  type Document = string

  datatype LedgerRecord = LedgerRecord(
    intentId: string, intentDigest: string, subjectId: string, executionId: string, status: Status,
    createdAt: string, updatedAt: string, admission: Document, receiptDigest: Option<string>,
    terminalReceipt: Option<Document>, error: Option<Document>, retryOf: Option<string>,
    operation: Option<string>, intent: Option<Document>)

  /** The exact-schema check and the receipt digest, schema and lineage check, with the expected
      producer commit fixed. */
  datatype Checks = Checks(schema: LedgerRecord -> bool, receipt: LedgerRecord -> bool)

  datatype Reservation = Reservation(intentId: string, intentDigest: string, subjectId: string)

  datatype LedgerError =
    | FailClosed | Unauthorized | DigestConflict | Collision | NoReservation | IdentityMismatch
    | CommittedWhileReserved | SnapshotInvalid | UnknownExecution | IllegalStatusChange | ErrorRequired
    | ArtifactsForbidden | StorageFailed | FirstStatusNotAdmitted | HistoryRewritten | DigestOwnedTwice
    | ExecutionOwnedTwice | ExpectationEmpty

  /** The three indexes. */
  datatype Index = Index(
    byIntent: map<string, LedgerRecord>, byDigest: map<string, string>, byExecution: map<string, string>)

  /** How the file ends: with a line break (or it is empty), with a complete object that lacks only
      its line break, or with a physical line that is not one JSON object somewhere in it. */
  datatype Tail = Terminated | Unterminated | Garbled

  /** `reservations` keeps the insertion order of the dictionary; `log` holds the objects written to
      the file in order. */
  datatype Ledger = Ledger(index: Index, reservations: seq<Reservation>, poisoned: bool, log: seq<LedgerRecord>, tail: Tail)

  const EmptyIndex := Index(map[], map[], map[])
  const EmptyLedger := Ledger(EmptyIndex, [], false, [], Terminated)

  // ----- validation --------------------------------------------------------

  /** `_validate_terminal_invariants`. */
  predicate TerminalInvariants(checks: Checks, r: LedgerRecord) {
    if !Terminal(r.status) then
      r.receiptDigest == None && r.terminalReceipt == None && r.error == None
    else if r.status == Completed then
      && r.error == None
      && (if r.operation == Some("MATERIALIZE_DATASET")
          then r.receiptDigest == None && r.terminalReceipt == None
          else r.receiptDigest.Some? && r.terminalReceipt.Some? && checks.receipt(r))
    else
      r.receiptDigest == None && r.terminalReceipt == None && r.error.Some? && r.error.value != ""
  }

  predicate SameIdentity(a: LedgerRecord, b: LedgerRecord) {
    && a.intentDigest == b.intentDigest && a.subjectId == b.subjectId && a.executionId == b.executionId
    && a.createdAt == b.createdAt && a.admission == b.admission && a.retryOf == b.retryOf
    && a.operation == b.operation && a.intent == b.intent
  }

  /** `_validate_history_transition`. */
  predicate HistoryAllows(previous: LedgerRecord, current: LedgerRecord) {
    && SameIdentity(previous, current)
    && (if Terminal(previous.status) || previous.status == current.status then previous == current
        else LegalTransition(previous.status, current.status))
  }

  // ----- reload ------------------------------------------------------------

  function Indexed(index: Index, r: LedgerRecord): Index {
    Index(index.byIntent[r.intentId := r], index.byDigest[r.intentDigest := r.intentId],
          index.byExecution[r.executionId := r.intentId])
  }

  function LoadLine(checks: Checks, index: Index, r: LedgerRecord): Result<Index, LedgerError> {
    var _ :- Require(checks.schema(r) && TerminalInvariants(checks, r), SnapshotInvalid);
    var _ :- Require(r.intentId in index.byIntent || r.status == Admitted, FirstStatusNotAdmitted);
    var _ :- Require(r.intentId in index.byIntent ==> HistoryAllows(index.byIntent[r.intentId], r), HistoryRewritten);
    var _ :- Require(r.intentDigest in index.byDigest ==> index.byDigest[r.intentDigest] == r.intentId, DigestOwnedTwice);
    var _ :- Require(r.executionId in index.byExecution ==> index.byExecution[r.executionId] == r.intentId, ExecutionOwnedTwice);
    Ok(Indexed(index, r))
  }

  function Load(checks: Checks, log: seq<LedgerRecord>): Result<Index, LedgerError> {
    if log == [] then Ok(EmptyIndex)
    else
      var index :- Load(checks, log[..|log| - 1]);
      LoadLine(checks, index, log[|log| - 1])
  }

  /** Opening the ledger on its file: a line that is not one JSON object fails, a last line without its
      break is read like any other. */
  function Open(checks: Checks, l: Ledger): Result<Ledger, LedgerError> {
    var _ :- Require(l.tail != Garbled, SnapshotInvalid);
    var index :- Load(checks, l.log);
    Ok(Ledger(index, [], false, l.log, l.tail))
  }

  // ----- reservations ------------------------------------------------------

  /** The position of an intent's reservation, or the number of reservations. */
  function Position(reservations: seq<Reservation>, intentId: string): (p: nat)
    ensures p <= |reservations|
    ensures p < |reservations| ==> reservations[p].intentId == intentId
    ensures forall i :: 0 <= i < p ==> reservations[i].intentId != intentId
  {
    if reservations == [] || reservations[0].intentId == intentId then 0
    else 1 + Position(reservations[1..], intentId)
  }

  predicate IsReserved(l: Ledger, intentId: string) { Position(l.reservations, intentId) < |l.reservations| }

  datatype Acquired = AlreadyCommitted(record: LedgerRecord) | Reserved | MustWait

  /** One pass of `acquire_or_check` under the lock; `MustWait` is the condition wait. */
  function Acquire(l: Ledger, intentId: string, digest: string, subjectId: string): Result<(Acquired, Ledger), LedgerError> {
    var _ :- Require(!l.poisoned, FailClosed);
    if intentId in l.index.byIntent then
      var existing := l.index.byIntent[intentId];
      var _ :- Require(existing.subjectId == subjectId, Unauthorized);
      var _ :- Require(existing.intentDigest == digest, DigestConflict);
      Ok((AlreadyCommitted(existing), l))
    else
      var _ :- Require(digest !in l.index.byDigest || l.index.byDigest[digest] == intentId, Collision);
      if IsReserved(l, intentId) then
        var held := l.reservations[Position(l.reservations, intentId)];
        var _ :- Require(held.subjectId == subjectId, Unauthorized);
        var _ :- Require(held.intentDigest == digest, DigestConflict);
        Ok((MustWait, l))
      else
        var _ :- Require(forall i :: 0 <= i < |l.reservations| ==> l.reservations[i].intentDigest != digest, Collision);
        Ok((Reserved, l.(reservations := l.reservations + [Reservation(intentId, digest, subjectId)])))
  }

  function WithoutReservation(reservations: seq<Reservation>, intentId: string): seq<Reservation> {
    var p := Position(reservations, intentId);
    if p < |reservations| then reservations[..p] + reservations[p + 1..] else reservations
  }

  function Release(l: Ledger, intentId: string): Ledger {
    if l.poisoned then l else l.(reservations := WithoutReservation(l.reservations, intentId))
  }

  function NonterminalIds(index: Index): set<string> {
    set k | k in index.byIntent && !Terminal(index.byIntent[k].status)
  }

  /** `active_count` for a reservation holder: active executions plus the reservations ahead of it. */
  function ActiveCount(l: Ledger, intentId: string): Result<nat, LedgerError> {
    var _ :- Require(!l.poisoned, FailClosed);
    var _ :- Require(IsReserved(l, intentId), NoReservation);
    Ok(|NonterminalIds(l.index)| + Position(l.reservations, intentId))
  }

  // ----- durable writes ----------------------------------------------------

  /** What became of one append: complete and synced, or failed with nothing in the file, part of
      the object, the object without its line break, or the whole line. */
  datatype Write = Synced | FailedEmpty | FailedPartial | FailedUnterminated | FailedComplete

  /** An append is put behind the last byte: on an unterminated line it makes one line of two objects. */
  function NextTail(tail: Tail, write: Write): Tail {
    if write == FailedEmpty then tail
    else if tail != Terminated || write == FailedPartial then Garbled
    else if write == FailedUnterminated then Unterminated
    else Terminated
  }

  predicate WritesObject(write: Write) { write in {Synced, FailedUnterminated, FailedComplete} }

  function Appended(l: Ledger, r: LedgerRecord, write: Write): Ledger {
    l.(log := if WritesObject(write) then l.log + [r] else l.log, tail := NextTail(l.tail, write))
  }

  function Poison(l: Ledger, r: LedgerRecord, write: Write): Ledger { Appended(l, r, write).(poisoned := true) }

  datatype Changed<T> = Changed(ledger: Ledger, reply: Result<T, LedgerError>)

  /** The caller-supplied part of a new execution. */
  datatype Admission = Admission(
    executionId: string, document: Document, retryOf: Option<string>, operation: Option<string>,
    intent: Option<Document>, now: string)

  function NewRecord(intentId: string, digest: string, subjectId: string, a: Admission): LedgerRecord {
    LedgerRecord(intentId, digest, subjectId, a.executionId, Admitted, a.now, a.now, a.document,
                 None, None, None, a.retryOf, a.operation, a.intent)
  }

  function Commit(checks: Checks, l: Ledger, intentId: string, digest: string, subjectId: string, a: Admission, write: Write): Changed<LedgerRecord> {
    if l.poisoned then Changed(l, Err(FailClosed))
    else if !IsReserved(l, intentId) then Changed(l, Err(NoReservation))
    else
      var held := l.reservations[Position(l.reservations, intentId)];
      if held.intentDigest != digest || held.subjectId != subjectId then Changed(l, Err(IdentityMismatch))
      else if intentId in l.index.byIntent then Changed(l, Err(CommittedWhileReserved))
      else
        var r := NewRecord(intentId, digest, subjectId, a);
        if !(checks.schema(r) && TerminalInvariants(checks, r)) then Changed(l, Err(SnapshotInvalid))
        else if write != Synced then Changed(Poison(l, r, write), Err(StorageFailed))
        else Changed(
          Appended(l, r, Synced).(index := Indexed(l.index, r), reservations := WithoutReservation(l.reservations, intentId)),
          Ok(r))
  }

  /** A requested status with its artifacts. */
  datatype Update = Update(status: Status, receiptDigest: Option<string>, receipt: Option<Document>, error: Option<Document>, now: string)

  predicate Bare(u: Update) { u.receiptDigest == None && u.receipt == None && u.error == None }

  function NextRecord(r: LedgerRecord, u: Update): Result<LedgerRecord, LedgerError> {
    var _ :- Require(LegalTransition(r.status, u.status), IllegalStatusChange);
    if u.status == Completed then
      Ok(r.(status := u.status, updatedAt := u.now, receiptDigest := u.receiptDigest, terminalReceipt := u.receipt, error := None))
    else if Terminal(u.status) then
      var _ :- Require(u.error.Some?, ErrorRequired);
      Ok(r.(status := u.status, updatedAt := u.now, receiptDigest := None, terminalReceipt := None, error := u.error))
    else
      var _ :- Require(Bare(u), ArtifactsForbidden);
      Ok(r.(status := u.status, updatedAt := u.now, receiptDigest := None, terminalReceipt := None, error := None))
  }

  /** `transition_execution`: `None` when the comparison fails, nothing is appended then. */
  function Transition(checks: Checks, l: Ledger, executionId: string, expected: set<Status>, u: Update, write: Write): Changed<Option<LedgerRecord>> {
    if expected == {} then Changed(l, Err(ExpectationEmpty))
    else if l.poisoned then Changed(l, Err(FailClosed))
    else if executionId !in l.index.byExecution || l.index.byExecution[executionId] !in l.index.byIntent then
      Changed(l, Err(UnknownExecution))
    else
      var r := l.index.byIntent[l.index.byExecution[executionId]];
      if r.status !in expected then Changed(l, Ok(None))
      else if r.status == u.status && Bare(u) then Changed(l, Ok(Some(r)))
      else if Terminal(r.status) then Changed(l, Ok(None))
      else
        match NextRecord(r, u)
        case Err(e) => Changed(l, Err(e))
        case Ok(next) =>
          if !(checks.schema(next) && TerminalInvariants(checks, next) && HistoryAllows(r, next)) then
            Changed(l, Err(SnapshotInvalid))
          else if write != Synced then Changed(Poison(l, next, write), Err(StorageFailed))
          else Changed(
            Appended(l, next, Synced).(index := l.index.(byIntent := l.index.byIntent[next.intentId := next])),
            Ok(Some(next)))
  }

  // ----- the ledger object --------------------------------------------------

  class IdempotencyLedger {
    const checks: Checks
    var byIntent: map<string, LedgerRecord>
    var byDigest: map<string, string>
    var byExecution: map<string, string>
    var reservations: seq<Reservation>
    var poisoned: bool
    var log: seq<LedgerRecord>
    var tail: Tail

    ghost function View(): Ledger
      reads this
    {
      Ledger(Index(byIntent, byDigest, byExecution), reservations, poisoned, log, tail)
    }

    constructor (checks: Checks, log: seq<LedgerRecord>, tail: Tail)
      ensures this.checks == checks && View() == Ledger(EmptyIndex, [], false, log, tail)
    {
      this.checks := checks;
      byIntent, byDigest, byExecution := map[], map[], map[];
      reservations, poisoned := [], false;
      this.log, this.tail := log, tail;
    }

    /** `_load_from_disk`: validate and index line by line. */
    method LoadFromDisk() returns (r: Result<(), LedgerError>)
      requires View() == Ledger(EmptyIndex, [], false, log, tail)
      modifies this
      ensures match Open(checks, old(View()))
              case Ok(l) => r == Ok(()) && View() == l
              case Err(e) => r.Err?
    {
      hide LoadLine;
      for line := 0 to |log|
        invariant log == old(log) && tail == old(tail) && reservations == [] && !poisoned
        invariant Load(checks, log[..line]) == Ok(Index(byIntent, byDigest, byExecution))
      {
        assert log[..line + 1][..line] == log[..line];
        var next := LoadLine(checks, Index(byIntent, byDigest, byExecution), log[line]);
        if next.Err? {
          LoadStops(checks, log, line + 1);
          return Err(next.error);
        }
        byIntent, byDigest, byExecution := next.value.byIntent, next.value.byDigest, next.value.byExecution;
      }
      assert log[..|log|] == log;
      if tail == Garbled { return Err(SnapshotInvalid); }
      r := Ok(());
    }

    method AcquireOrCheck(intentId: string, digest: string, subjectId: string) returns (r: Result<Acquired, LedgerError>)
      modifies this`reservations
      ensures match Acquire(old(View()), intentId, digest, subjectId)
              case Ok((a, l)) => r == Ok(a) && View() == l
              case Err(e) => r == Err(e) && View() == old(View())
    {
      if poisoned { return Err(FailClosed); }
      if intentId in byIntent {
        var existing := byIntent[intentId];
        if existing.subjectId != subjectId { return Err(Unauthorized); }
        if existing.intentDigest != digest { return Err(DigestConflict); }
        return Ok(AlreadyCommitted(existing));
      }
      if digest in byDigest && byDigest[digest] != intentId { return Err(Collision); }
      var p := Position(reservations, intentId);
      if p < |reservations| {
        if reservations[p].subjectId != subjectId { return Err(Unauthorized); }
        if reservations[p].intentDigest != digest { return Err(DigestConflict); }
        return Ok(MustWait);
      }
      for i := 0 to |reservations|
        invariant forall j :: 0 <= j < i ==> reservations[j].intentDigest != digest
      {
        if reservations[i].intentDigest == digest { return Err(Collision); }
      }
      reservations := reservations + [Reservation(intentId, digest, subjectId)];
      r := Ok(Reserved);
    }

    /** `active_count` for a reservation holder: the loop over the reservations in insertion order. */
    method CountActive(intentId: string) returns (r: Result<nat, LedgerError>)
      ensures r == ActiveCount(View(), intentId)
    {
      if poisoned { return Err(FailClosed); }
      var count := |NonterminalIds(Index(byIntent, byDigest, byExecution))|;
      for i := 0 to |reservations|
        invariant count == |NonterminalIds(View().index)| + i
        invariant forall j :: 0 <= j < i ==> reservations[j].intentId != intentId
      {
        if reservations[i].intentId == intentId { return Ok(count); }
        count := count + 1;
      }
      r := Err(NoReservation);
    }

    method CommitAdmission(intentId: string, digest: string, subjectId: string, a: Admission, write: Write)
      returns (r: Result<LedgerRecord, LedgerError>)
      modifies this
      ensures View() == Commit(checks, old(View()), intentId, digest, subjectId, a, write).ledger
      ensures r == Commit(checks, old(View()), intentId, digest, subjectId, a, write).reply
    {
      if poisoned { return Err(FailClosed); }
      var p := Position(reservations, intentId);
      if p == |reservations| { return Err(NoReservation); }
      if reservations[p].intentDigest != digest || reservations[p].subjectId != subjectId { return Err(IdentityMismatch); }
      if intentId in byIntent { return Err(CommittedWhileReserved); }
      var record := NewRecord(intentId, digest, subjectId, a);
      if !(checks.schema(record) && TerminalInvariants(checks, record)) { return Err(SnapshotInvalid); }
      var stored := PersistOrPoison(record, write);
      if !stored { return Err(StorageFailed); }
      byIntent := byIntent[intentId := record];
      byDigest := byDigest[digest := intentId];
      byExecution := byExecution[a.executionId := intentId];
      reservations := reservations[..p] + reservations[p + 1..];
      r := Ok(record);
    }

    method ReleaseReservation(intentId: string)
      modifies this`reservations
      ensures View() == Release(old(View()), intentId)
    {
      if !poisoned { reservations := WithoutReservation(reservations, intentId); }
    }

    method TransitionExecution(executionId: string, expected: set<Status>, u: Update, write: Write)
      returns (r: Result<Option<LedgerRecord>, LedgerError>)
      modifies this
      ensures View() == Transition(checks, old(View()), executionId, expected, u, write).ledger
      ensures r == Transition(checks, old(View()), executionId, expected, u, write).reply
    {
      hide TerminalInvariants, HistoryAllows, NextRecord;
      if expected == {} { return Err(ExpectationEmpty); }
      if poisoned { return Err(FailClosed); }
      if executionId !in byExecution || byExecution[executionId] !in byIntent { return Err(UnknownExecution); }
      var record := byIntent[byExecution[executionId]];
      if record.status !in expected { return Ok(None); }
      if record.status == u.status && Bare(u) { return Ok(Some(record)); }
      if Terminal(record.status) { return Ok(None); }
      var next := NextRecord(record, u);
      if next.Err? { return Err(next.error); }
      if !(checks.schema(next.value) && TerminalInvariants(checks, next.value) && HistoryAllows(record, next.value)) {
        return Err(SnapshotInvalid);
      }
      var stored := PersistOrPoison(next.value, write);
      if !stored { return Err(StorageFailed); }
      byIntent := byIntent[next.value.intentId := next.value];
      r := Ok(Some(next.value));
    }

    method PersistOrPoison(record: LedgerRecord, write: Write) returns (stored: bool)
      modifies this`log, this`tail, this`poisoned
      ensures stored <==> write == Synced
      ensures View() == if stored then Appended(old(View()), record, write) else Poison(old(View()), record, write)
    {
      stored := write == Synced;
      if WritesObject(write) { log := log + [record]; }
      tail := NextTail(tail, write);
      if !stored { poisoned := true; }
    }
  }

  lemma {:induction false} LoadStops(checks: Checks, log: seq<LedgerRecord>, n: nat)
    requires n <= |log| && Load(checks, log[..n]).Err?
    ensures Load(checks, log).Err?
  {
    hide LoadLine;
    if n == |log| {
      assert log[..n] == log;
    } else {
      assert log[..|log| - 1][..n] == log[..n];
      LoadStops(checks, log[..|log| - 1], n);
    }
  }
}
