/** What every run of the ledger maintains: any interleaving of acquisitions, commits, releases,
    status changes, failed appends and restarts. */
module LedgerRuns {
  import opened Base
  import opened Ledger

  datatype Action =
    | DoAcquire(intentId: string, digest: string, subjectId: string)
    | DoCommit(intentId: string, digest: string, subjectId: string, admission: Admission, write: Write)
    | DoRelease(intentId: string)
    | DoTransition(executionId: string, expected: set<Status>, update: Update, write: Write)
    | Restart

  function Act(checks: Checks, l: Ledger, action: Action): Ledger {
    match action
    case DoAcquire(i, d, s) => (match Acquire(l, i, d, s) case Ok((_, next)) => next case Err(_) => l)
    case DoCommit(i, d, s, a, w) => Commit(checks, l, i, d, s, a, w).ledger
    case DoRelease(i) => Release(l, i)
    case DoTransition(e, x, u, w) => Transition(checks, l, e, x, u, w).ledger
    case Restart => (match Open(checks, l) case Ok(next) => next case Err(_) => l)
  }

  /** Execution identifiers are minted fresh (uuid4): no line of the log carries this one. */
  predicate FreshAction(l: Ledger, action: Action) {
    action.DoCommit? ==> forall i :: 0 <= i < |l.log| ==> l.log[i].executionId != action.admission.executionId
  }

  function Run(checks: Checks, l: Ledger, actions: seq<Action>): Ledger
    decreases |actions|
  {
    if actions == [] then l else Run(checks, Act(checks, l, actions[0]), actions[1..])
  }

  predicate FreshRun(checks: Checks, l: Ledger, actions: seq<Action>)
    decreases |actions|
  {
    actions == [] || (FreshAction(l, actions[0]) && FreshRun(checks, Act(checks, l, actions[0]), actions[1..]))
  }

  // ----- invariants --------------------------------------------------------

  predicate IndexOk(index: Index) {
    && (forall k :: k in index.byIntent ==> var r := index.byIntent[k];
          && r.intentId == k
          && r.intentDigest in index.byDigest && index.byDigest[r.intentDigest] == k
          && r.executionId in index.byExecution && index.byExecution[r.executionId] == k)
    && (forall d :: d in index.byDigest ==>
          index.byDigest[d] in index.byIntent && index.byIntent[index.byDigest[d]].intentDigest == d)
    && (forall e :: e in index.byExecution ==>
          index.byExecution[e] in index.byIntent && index.byIntent[index.byExecution[e]].executionId == e)
  }

  /** Reservations and committed records never share an intent or a digest. */
  predicate ReservationsOk(index: Index, reservations: seq<Reservation>) {
    && (forall i :: 0 <= i < |reservations| ==>
          reservations[i].intentId !in index.byIntent && reservations[i].intentDigest !in index.byDigest)
    && (forall i, j :: 0 <= i < j < |reservations| ==>
          reservations[i].intentId != reservations[j].intentId && reservations[i].intentDigest != reservations[j].intentDigest)
  }

  /** Lines of one intent climb strictly and keep one identity. */
  predicate Climbs(log: seq<LedgerRecord>) {
    forall i, j :: 0 <= i < j < |log| ==> Before(log[i], log[j])
  }

  predicate Before(a: LedgerRecord, b: LedgerRecord) {
    a.intentId == b.intentId ==> Rank(a.status) < Rank(b.status) && SameIdentity(a, b)
  }

  /** The index holds the last line of every intent in the log. */
  predicate Covers(log: seq<LedgerRecord>, index: Index) {
    && (forall i :: 0 <= i < |log| ==> Superseded(log[i], index))
    && (forall k :: k in index.byIntent ==> index.byIntent[k] in log)
  }

  predicate Superseded(a: LedgerRecord, index: Index) {
    && a.intentId in index.byIntent
    && SameIdentity(a, index.byIntent[a.intentId])
    && Rank(a.status) <= Rank(index.byIntent[a.intentId].status)
  }

  ghost predicate Inv(checks: Checks, l: Ledger) {
    && Load(checks, l.log).Ok?
    && IndexOk(Load(checks, l.log).value) && Covers(l.log, Load(checks, l.log).value) && Climbs(l.log)
    && IndexOk(l.index) && ReservationsOk(l.index, l.reservations)
    && Retained(l)
    && (!l.poisoned ==> l.index == Load(checks, l.log).value)
  }

  /** Every indexed record is a line of the file, also after a failed append. */
  predicate Retained(l: Ledger) {
    forall k :: k in l.index.byIntent ==> l.index.byIntent[k] in l.log
  }

  // ----- one appended line --------------------------------------------------

  /** A line that may follow `index`: a first admission of unused names, or a legal next status. */
  predicate Extends(checks: Checks, index: Index, r: LedgerRecord) {
    && checks.schema(r) && TerminalInvariants(checks, r)
    && (if r.intentId in index.byIntent then
          var p := index.byIntent[r.intentId];
          SameIdentity(p, r) && !Terminal(p.status) && LegalTransition(p.status, r.status)
        else r.status == Admitted && r.intentDigest !in index.byDigest && r.executionId !in index.byExecution)
  }

  lemma LegalClimbs(from: Status, to: Status)
    requires LegalTransition(from, to)
    ensures Rank(from) < Rank(to)
  {
  }

  lemma LineKeepsIndex(checks: Checks, index: Index, r: LedgerRecord)
    requires IndexOk(index) && Extends(checks, index, r)
    ensures LoadLine(checks, index, r) == Ok(Indexed(index, r))
    ensures IndexOk(Indexed(index, r))
  {
    hide IndexOk, Extends, LoadLine, Indexed;
    LineLoads(checks, index, r);
    LineIsIndexed(checks, index, r);
  }

  lemma LineLoads(checks: Checks, index: Index, r: LedgerRecord)
    requires IndexOk(index) && Extends(checks, index, r)
    ensures LoadLine(checks, index, r) == Ok(Indexed(index, r))
  {
    hide TerminalInvariants, Indexed;
  }

  lemma LineIsIndexed(checks: Checks, index: Index, r: LedgerRecord)
    requires IndexOk(index) && Extends(checks, index, r)
    ensures IndexOk(Indexed(index, r))
  {
    hide TerminalInvariants, LegalTransition, Terminal;
  }

  lemma EarlierLine(checks: Checks, index: Index, a: LedgerRecord, r: LedgerRecord)
    requires Extends(checks, index, r) && Superseded(a, index)
    ensures Before(a, r) && Superseded(a, Indexed(index, r))
  {
    hide TerminalInvariants, LegalTransition, Rank;
    if a.intentId == r.intentId { LegalClimbs(index.byIntent[r.intentId].status, r.status); }
  }

  lemma NewLine(index: Index, r: LedgerRecord)
    ensures Superseded(r, Indexed(index, r))
  {
  }

  lemma LineKeepsHistory(checks: Checks, log: seq<LedgerRecord>, index: Index, r: LedgerRecord)
    requires Extends(checks, index, r) && Covers(log, index) && Climbs(log)
    ensures Climbs(log + [r]) && Covers(log + [r], Indexed(index, r))
  {
    hide Extends, Before, Superseded;
    forall i | 0 <= i < |log| ensures Before(log[i], r) && Superseded(log[i], Indexed(index, r)) {
      EarlierLine(checks, index, log[i], r);
    }
    NewLine(index, r);
    var all, next := log + [r], Indexed(index, r);
    assert all[|log|] == r;
    forall k | k in next.byIntent ensures next.byIntent[k] in all {
      if k != r.intentId { assert index.byIntent[k] in log; }
    }
  }

  lemma AppendKeepsInv(checks: Checks, l: Ledger, r: LedgerRecord)
    requires Inv(checks, l) && !l.poisoned && Extends(checks, l.index, r)
    ensures Load(checks, l.log + [r]) == Ok(Indexed(l.index, r))
    ensures IndexOk(Indexed(l.index, r)) && Covers(l.log + [r], Indexed(l.index, r)) && Climbs(l.log + [r])
  {
    hide LoadLine, Extends, IndexOk, Covers, Climbs;
    LineKeepsIndex(checks, l.index, r);
    LineKeepsHistory(checks, l.log, l.index, r);
    assert (l.log + [r])[..|l.log|] == l.log;
  }

  // ----- steps -------------------------------------------------------------

  lemma RemovedReservation(reservations: seq<Reservation>, intentId: string)
    ensures var rest := WithoutReservation(reservations, intentId);
            var p := Position(reservations, intentId);
            forall i :: 0 <= i < |rest| ==>
              (i < p ==> rest[i] == reservations[i]) && (i >= p && p < |reservations| ==> rest[i] == reservations[i + 1])
  {
    hide Position;
    var p := Position(reservations, intentId);
    if p < |reservations| { RemovedAt(reservations, p); }
  }

  lemma RemovedAt<T>(s: seq<T>, p: nat)
    requires p < |s|
    ensures var rest := s[..p] + s[p + 1..];
            forall i :: 0 <= i < |rest| ==> rest[i] == if i < p then s[i] else s[i + 1]
  {
  }

  lemma ReleaseKeepsReservations(index: Index, reservations: seq<Reservation>, intentId: string)
    requires ReservationsOk(index, reservations)
    ensures ReservationsOk(index, WithoutReservation(reservations, intentId))
  {
    RemovedReservation(reservations, intentId);
    var rest, p := WithoutReservation(reservations, intentId), Position(reservations, intentId);
    forall i, j | 0 <= i < j < |rest|
      ensures rest[i].intentId != rest[j].intentId && rest[i].intentDigest != rest[j].intentDigest
    {
      var i' := if p < |reservations| && i >= p then i + 1 else i;
      var j' := if p < |reservations| && j >= p then j + 1 else j;
      assert rest[i] == reservations[i'] && rest[j] == reservations[j'];
    }
  }

  lemma AcquireKeepsInv(checks: Checks, l: Ledger, intentId: string, digest: string, subjectId: string)
    requires Inv(checks, l)
    ensures Inv(checks, Act(checks, l, DoAcquire(intentId, digest, subjectId)))
  {
    hide Load, Covers, Climbs;
    var next := Act(checks, l, DoAcquire(intentId, digest, subjectId));
    if next != l {
      assert digest !in l.index.byDigest;
    }
  }

  lemma CommitKeepsInv(checks: Checks, l: Ledger, action: Action)
    requires action.DoCommit? && Inv(checks, l) && FreshAction(l, action)
    ensures Inv(checks, Act(checks, l, action))
  {
    hide Load, TerminalInvariants, LoadLine, Covers, Climbs;
    var (i, d, s, a, w) := (action.intentId, action.digest, action.subjectId, action.admission, action.write);
    var r := NewRecord(i, d, s, a);
    var next := Act(checks, l, action);
    if next != l {
      FreshIsUnused(checks, l, a.executionId);
      assert Extends(checks, l.index, r);
      AppendKeepsInv(checks, l, r);
      if w == Synced {
        ReleaseKeepsReservations(l.index, l.reservations, i);
        CommittedReservations(l.index, l.reservations, r);
      }
    }
  }

  lemma FreshIsUnused(checks: Checks, l: Ledger, executionId: string)
    requires Inv(checks, l) && !l.poisoned
    requires forall i :: 0 <= i < |l.log| ==> l.log[i].executionId != executionId
    ensures executionId !in l.index.byExecution
  {
    hide Load, Climbs;
  }

  lemma CommittedReservations(index: Index, reservations: seq<Reservation>, r: LedgerRecord)
    requires ReservationsOk(index, reservations) && Position(reservations, r.intentId) < |reservations|
    requires reservations[Position(reservations, r.intentId)].intentDigest == r.intentDigest
    ensures ReservationsOk(Indexed(index, r), WithoutReservation(reservations, r.intentId))
  {
    ReleaseKeepsReservations(index, reservations, r.intentId);
    RemovedReservation(reservations, r.intentId);
    var rest, p := WithoutReservation(reservations, r.intentId), Position(reservations, r.intentId);
    forall i | 0 <= i < |rest| ensures rest[i].intentId != r.intentId && rest[i].intentDigest != r.intentDigest {
      var i' := if i >= p then i + 1 else i;
      assert rest[i] == reservations[i'];
    }
  }

  /** A status change that reaches the log extends it legally and only replaces its own record. */
  lemma TransitionAppends(checks: Checks, l: Ledger, e: string, expected: set<Status>, u: Update, w: Write)
    requires Inv(checks, l) && Transition(checks, l, e, expected, u, w).ledger != l
    ensures !l.poisoned && e in l.index.byExecution && l.index.byExecution[e] in l.index.byIntent
    ensures var r := l.index.byIntent[l.index.byExecution[e]];
            && NextRecord(r, u).Ok? && NextRecord(r, u).value.intentId == r.intentId
            && Extends(checks, l.index, NextRecord(r, u).value)
            && Indexed(l.index, NextRecord(r, u).value) == l.index.(byIntent := l.index.byIntent[r.intentId := NextRecord(r, u).value])
  {
    hide Load, Covers, Climbs, TerminalInvariants;
    var r := l.index.byIntent[l.index.byExecution[e]];
    var next := NextRecord(r, u).value;
    assert l.index.byDigest[next.intentDigest := next.intentId] == l.index.byDigest;
    assert l.index.byExecution[next.executionId := next.intentId] == l.index.byExecution;
  }

  lemma TransitionKeepsInv(checks: Checks, l: Ledger, e: string, expected: set<Status>, u: Update, w: Write)
    requires Inv(checks, l)
    ensures Inv(checks, Act(checks, l, DoTransition(e, expected, u, w)))
  {
    hide Load, TerminalInvariants, LoadLine, Covers, Climbs, NextRecord, Extends, HistoryAllows, IndexOk, SameIdentity;
    if Transition(checks, l, e, expected, u, w).ledger != l {
      TransitionAppends(checks, l, e, expected, u, w);
      Named(checks, l, e);
      var next := NextRecord(l.index.byIntent[l.index.byExecution[e]], u).value;
      AppendKeepsInv(checks, l, next);
    }
  }

  lemma ActKeepsInv(checks: Checks, l: Ledger, action: Action)
    requires Inv(checks, l) && FreshAction(l, action)
    ensures Inv(checks, Act(checks, l, action))
  {
    match action
    case DoAcquire(i, d, s) => AcquireKeepsInv(checks, l, i, d, s);
    case DoCommit(i, d, s, a, w) => CommitKeepsInv(checks, l, action);
    case DoRelease(i) => ReleaseKeepsReservations(l.index, l.reservations, i);
    case DoTransition(e, x, u, w) => TransitionKeepsInv(checks, l, e, x, u, w);
    case Restart =>
  }

  lemma {:induction false} RunKeepsInv(checks: Checks, l: Ledger, actions: seq<Action>)
    requires Inv(checks, l) && FreshRun(checks, l, actions)
    ensures Inv(checks, Run(checks, l, actions))
    decreases |actions|
  {
    hide Inv, Act;
    if actions != [] {
      ActKeepsInv(checks, l, actions[0]);
      RunKeepsInv(checks, Act(checks, l, actions[0]), actions[1..]);
    }
  }

  lemma EmptyInv(checks: Checks)
    ensures Inv(checks, EmptyLedger)
  {
  }

  // ----- the claims --------------------------------------------------------

  /** The append an action makes, if it gets that far and leaves anything in the file. */
  function AppendOf(checks: Checks, l: Ledger, action: Action): Option<Write> {
    match action
    case DoCommit(i, d, s, a, w) =>
      if w != FailedEmpty && Commit(checks, l, i, d, s, a, w).ledger != l then Some(w) else None
    case DoTransition(e, x, u, w) =>
      if w != FailedEmpty && Transition(checks, l, e, x, u, w).ledger != l then Some(w) else None
    case _ => None
  }

  /** Some append of the run was cut inside its object. */
  predicate CutAppend(checks: Checks, l: Ledger, actions: seq<Action>)
    decreases |actions|
  {
    actions != [] && (AppendOf(checks, l, actions[0]) == Some(FailedPartial) || CutAppend(checks, Act(checks, l, actions[0]), actions[1..]))
  }

  /** The process opens a file whose last byte is not a line break. */
  predicate OpensUnterminated(l: Ledger, action: Action) { action.Restart? && l.tail == Unterminated }

  /** Some append of the run follows such an opening; `reopened` says that one came before. */
  predicate AppendAfterOpening(checks: Checks, l: Ledger, actions: seq<Action>, reopened: bool)
    decreases |actions|
  {
    actions != [] &&
    ((reopened && AppendOf(checks, l, actions[0]).Some?)
     || AppendAfterOpening(checks, Act(checks, l, actions[0]), actions[1..], reopened || OpensUnterminated(l, actions[0])))
  }

  /** A healthy ledger on an unterminated file was reopened on it, and it stays so until an append. */
  predicate OpeningKnown(l: Ledger, reopened: bool) {
    && (l.tail == Unterminated && !l.poisoned ==> reopened)
    && (reopened ==> l.tail != Terminated)
  }

  lemma StepTail(checks: Checks, l: Ledger, action: Action)
    ensures var after := Act(checks, l, action);
            match AppendOf(checks, l, action)
            case Some(w) => !l.poisoned && after.tail == NextTail(l.tail, w) && (after.poisoned <==> w != Synced)
            case None => after.tail == l.tail && (l.poisoned && !after.poisoned ==> action.Restart?)
  {
    hide TerminalInvariants, HistoryAllows, NextRecord, WithoutReservation, Load;
  }

  lemma StepOpening(checks: Checks, l: Ledger, action: Action, reopened: bool)
    requires OpeningKnown(l, reopened)
    ensures OpeningKnown(Act(checks, l, action), reopened || OpensUnterminated(l, action))
    ensures Act(checks, l, action).tail == Garbled <==>
            l.tail == Garbled || AppendOf(checks, l, action) == Some(FailedPartial) || (reopened && AppendOf(checks, l, action).Some?)
  {
    hide Act, AppendOf;
    StepTail(checks, l, action);
    NeverEmpty(checks, l, action);
  }

  lemma NeverEmpty(checks: Checks, l: Ledger, action: Action)
    ensures AppendOf(checks, l, action) != Some(FailedEmpty)
  {
  }

  /** A file becomes unreadable exactly by an append cut inside its object or an append behind the
      opening of an unterminated file. */
  lemma {:induction false} GarbledIff(checks: Checks, l: Ledger, actions: seq<Action>, reopened: bool)
    requires OpeningKnown(l, reopened)
    ensures Run(checks, l, actions).tail == Garbled <==>
            l.tail == Garbled || CutAppend(checks, l, actions) || AppendAfterOpening(checks, l, actions, reopened)
    decreases |actions|
  {
    hide Act, AppendOf, OpeningKnown;
    if actions != [] {
      StepOpening(checks, l, actions[0], reopened);
      GarbledIff(checks, Act(checks, l, actions[0]), actions[1..], reopened || OpensUnterminated(l, actions[0]));
    }
  }

  lemma {:induction false} CutFailsClosed(checks: Checks, l: Ledger, actions: seq<Action>)
    requires l.poisoned && l.tail == Garbled
    ensures Run(checks, l, actions) == l
    decreases |actions|
  {
    hide Load, TerminalInvariants, HistoryAllows, NextRecord;
    if actions != [] { CutFailsClosed(checks, l, actions[1..]); }
  }

  lemma {:induction false} HealthyWasNotCut(checks: Checks, l: Ledger, actions: seq<Action>)
    requires CutAppend(checks, l, actions)
    ensures Run(checks, l, actions).poisoned
    decreases |actions|
  {
    hide Act, AppendOf;
    StepTail(checks, l, actions[0]);
    if AppendOf(checks, l, actions[0]) == Some(FailedPartial) {
      CutFailsClosed(checks, Act(checks, l, actions[0]), actions[1..]);
    } else {
      HealthyWasNotCut(checks, Act(checks, l, actions[0]), actions[1..]);
    }
  }

  /** The file of any run reloads if and only if no append was cut inside its object and none followed
      the opening of a file whose last byte is not a line break; for a ledger that has not failed closed
      the second condition alone decides, and it then gets back exactly its three indexes. */
  lemma ReloadRebuilds(checks: Checks, actions: seq<Action>)
    requires FreshRun(checks, EmptyLedger, actions)
    ensures var l := Run(checks, EmptyLedger, actions);
            var glued := AppendAfterOpening(checks, EmptyLedger, actions, false);
            && (Open(checks, l).Ok? <==> !CutAppend(checks, EmptyLedger, actions) && !glued)
            && (!l.poisoned ==> (Open(checks, l).Ok? <==> !glued))
            && (!l.poisoned && Open(checks, l).Ok? ==> Open(checks, l).value.index == l.index)
  {
    hide Load, Run, FreshRun, CutAppend, AppendAfterOpening;
    EmptyInv(checks);
    RunKeepsInv(checks, EmptyLedger, actions);
    GarbledIff(checks, EmptyLedger, actions, false);
    if CutAppend(checks, EmptyLedger, actions) { HealthyWasNotCut(checks, EmptyLedger, actions); }
  }

  // ----- a healthy ledger that cannot be reloaded ----------------------------

  /** The commit loses only its line break, the controller restarts and fails the orphaned execution. */
  function GluedRun(i: string, d: string, s: string, a: Admission, error: Document, now: string): seq<Action> {
    [DoAcquire(i, d, s), DoCommit(i, d, s, a, FailedUnterminated), Restart,
     DoTransition(a.executionId, {Admitted}, Update(Failed, None, None, Some(error), now), Synced)]
  }

  function Orphaned(r: LedgerRecord): Index {
    Index(map[r.intentId := r], map[r.intentDigest := r.intentId], map[r.executionId := r.intentId])
  }

  lemma OneLineLoads(checks: Checks, r: LedgerRecord)
    requires r.status == Admitted && checks.schema(r) && TerminalInvariants(checks, r)
    ensures Load(checks, [r]) == Ok(Orphaned(r))
  {
    hide TerminalInvariants;
    assert [r][..0] == [];
    assert Load(checks, []) == Ok(EmptyIndex);
    assert Load(checks, [r]) == LoadLine(checks, EmptyIndex, r);
  }

  lemma ReopenedOrphan(checks: Checks, i: string, d: string, s: string, a: Admission)
    requires checks.schema(NewRecord(i, d, s, a))
    ensures var r := NewRecord(i, d, s, a);
            var l := Act(checks, Act(checks, EmptyLedger, DoAcquire(i, d, s)), DoCommit(i, d, s, a, FailedUnterminated));
            && l.poisoned && l.tail == Unterminated && l.log == [r]
            && Act(checks, l, Restart) == Ledger(Orphaned(r), [], false, [r], Unterminated)
  {
    hide Load;
    var r := NewRecord(i, d, s, a);
    var l := Act(checks, EmptyLedger, DoAcquire(i, d, s));
    assert l == EmptyLedger.(reservations := [Reservation(i, d, s)]) && Position(l.reservations, i) == 0;
    OneLineLoads(checks, r);
  }

  lemma FailedOrphan(checks: Checks, r: LedgerRecord, error: Document, now: string)
    requires r.status == Admitted && error != "" && r.receiptDigest == None && r.terminalReceipt == None && r.error == None
    requires checks.schema(r.(status := Failed, updatedAt := now, error := Some(error)))
    ensures var next := r.(status := Failed, updatedAt := now, error := Some(error));
            var l := Ledger(Orphaned(r), [], false, [r], Unterminated);
            Transition(checks, l, r.executionId, {Admitted}, Update(Failed, None, None, Some(error), now), Synced).ledger
            == Ledger(Orphaned(r).(byIntent := map[r.intentId := next]), [], false, [r, next], Garbled)
  {
  }

  lemma FirstStep(checks: Checks, l: Ledger, action: Action, rest: seq<Action>)
    ensures Run(checks, l, [action] + rest) == Run(checks, Act(checks, l, action), rest)
  {
    hide Act;
    assert ([action] + rest)[0] == action && ([action] + rest)[1..] == rest;
  }

  lemma FourSteps(checks: Checks, l: Ledger, a: Action, b: Action, c: Action, d: Action)
    ensures Run(checks, l, [a, b, c, d]) == Act(checks, Act(checks, Act(checks, Act(checks, l, a), b), c), d)
  {
    hide Act;
    assert [a, b, c, d] == [a] + ([b] + ([c] + ([d] + [])));
    var la, lb := Act(checks, l, a), Act(checks, Act(checks, l, a), b);
    FirstStep(checks, l, a, [b] + ([c] + ([d] + [])));
    FirstStep(checks, la, b, [c] + ([d] + []));
    FirstStep(checks, lb, c, [d] + []);
    FirstStep(checks, Act(checks, lb, c), d, []);
  }

  /** After that run the ledger is healthy, its record is terminal, and its file cannot be reopened. */
  lemma HealthyButUnreadable(checks: Checks, i: string, d: string, s: string, a: Admission, error: Document, now: string)
    requires var r := NewRecord(i, d, s, a);
             checks.schema(r) && checks.schema(r.(status := Failed, updatedAt := now, error := Some(error))) && error != ""
    ensures var l := Run(checks, EmptyLedger, GluedRun(i, d, s, a, error, now));
            !l.poisoned && i in l.index.byIntent && l.index.byIntent[i].status == Failed && Open(checks, l).Err?
  {
    hide Act, Load;
    var steps := GluedRun(i, d, s, a, error, now);
    var r := NewRecord(i, d, s, a);
    FourSteps(checks, EmptyLedger, steps[0], steps[1], steps[2], steps[3]);
    assert steps == [steps[0], steps[1], steps[2], steps[3]];
    ReopenedOrphan(checks, i, d, s, a);
    FailedOrphan(checks, r, error, now);
    LastMove(checks, Ledger(Orphaned(r), [], false, [r], Unterminated), steps[3]);
  }

  lemma LastMove(checks: Checks, l: Ledger, action: Action)
    requires action.DoTransition?
    ensures Act(checks, l, action) == Transition(checks, l, action.executionId, action.expected, action.update, action.write).ledger
  {
  }

  /** Each intent's lines climb ADMITTED < QUEUED < RUNNING < terminal under one identity, so the
      same terminal outcome cannot be followed, preceded or contradicted by another one. */
  lemma HistoryClimbs(checks: Checks, actions: seq<Action>, i: nat, j: nat)
    requires FreshRun(checks, EmptyLedger, actions)
    requires var log := Run(checks, EmptyLedger, actions).log;
             i < j < |log| && log[i].intentId == log[j].intentId
    ensures var log := Run(checks, EmptyLedger, actions).log;
            Rank(log[i].status) < Rank(log[j].status) && !Terminal(log[i].status)
            && log[i].executionId == log[j].executionId && log[i].intentDigest == log[j].intentDigest
  {
    hide Load, Run, FreshRun;
    EmptyInv(checks);
    RunKeepsInv(checks, EmptyLedger, actions);
  }

  function LinesOf(log: seq<LedgerRecord>, intentId: string): set<int> {
    set i | 0 <= i < |log| && log[i].intentId == intentId
  }

  lemma LinesSplit(log: seq<LedgerRecord>, intentId: string)
    requires log != []
    ensures var n := |log| - 1;
            LinesOf(log, intentId) == LinesOf(log[..n], intentId) + if log[n].intentId == intentId then {n} else {}
  {
    var n := |log| - 1;
    assert forall i :: 0 <= i < n ==> log[..n][i] == log[i];
  }

  lemma FrontClimbs(log: seq<LedgerRecord>)
    requires log != [] && Climbs(log)
    ensures Climbs(log[..|log| - 1])
  {
    hide Before;
  }

  lemma EarlierRank(log: seq<LedgerRecord>, intentId: string, i: nat)
    requires Climbs(log) && log != [] && i in LinesOf(log[..|log| - 1], intentId) && log[|log| - 1].intentId == intentId
    ensures Rank(log[..|log| - 1][i].status) < Rank(log[|log| - 1].status)
  {
    hide Before;
    assert Before(log[i], log[|log| - 1]);
    LowerRank(log[i], log[|log| - 1]);
  }

  lemma {:induction false} FewLines(log: seq<LedgerRecord>, intentId: string, top: nat)
    requires Climbs(log)
    requires forall i :: i in LinesOf(log, intentId) ==> 0 <= i < |log| && Rank(log[i].status) < top
    ensures |LinesOf(log, intentId)| <= top
    decreases |log|
  {
    hide Rank, Climbs, LinesOf;
    if log == [] {
      NoLines(intentId);
    } else {
      var n := |log| - 1;
      var front := log[..n];
      LinesSplit(log, intentId);
      FrontClimbs(log);
      LinesAreIndices(front, intentId);
      if log[n].intentId == intentId {
        assert n in LinesOf(log, intentId);
        forall i | i in LinesOf(front, intentId) ensures 0 <= i < |front| && Rank(front[i].status) < Rank(log[n].status) {
          EarlierRank(log, intentId, i);
        }
        FewLines(front, intentId, Rank(log[n].status));
      } else {
        forall i | i in LinesOf(front, intentId) ensures 0 <= i < |front| && Rank(front[i].status) < top {
          assert i in LinesOf(log, intentId);
        }
        FewLines(front, intentId, top);
      }
    }
  }

  lemma NoLines(intentId: string)
    ensures LinesOf([], intentId) == {}
  {
  }

  lemma LinesAreIndices(log: seq<LedgerRecord>, intentId: string)
    ensures forall i :: i in LinesOf(log, intentId) ==> 0 <= i < |log|
  {
  }

  lemma LowerRank(a: LedgerRecord, b: LedgerRecord)
    requires Before(a, b) && a.intentId == b.intentId
    ensures Rank(a.status) < Rank(b.status)
  {
  }

  /** No intent ever has more than four lines. */
  lemma AtMostFourLines(checks: Checks, actions: seq<Action>, intentId: string)
    requires FreshRun(checks, EmptyLedger, actions)
    ensures |LinesOf(Run(checks, EmptyLedger, actions).log, intentId)| <= 4
  {
    hide Load, Run, FreshRun, Climbs;
    EmptyInv(checks);
    RunKeepsInv(checks, EmptyLedger, actions);
    FewLines(Run(checks, EmptyLedger, actions).log, intentId, 4);
  }

  /** Whoever owns a digest: a committed intent or a reservation. */
  predicate Owns(l: Ledger, intentId: string, digest: string) {
    || (intentId in l.index.byIntent && l.index.byIntent[intentId].intentDigest == digest)
    || (exists i :: 0 <= i < |l.reservations| && l.reservations[i] == Reservation(intentId, digest, l.reservations[i].subjectId))
  }

  /** In every run a digest has at most one owner, committed records and reservations together. */
  lemma OneOwnerPerDigest(checks: Checks, actions: seq<Action>, a: string, b: string, digest: string)
    requires FreshRun(checks, EmptyLedger, actions)
    requires Owns(Run(checks, EmptyLedger, actions), a, digest) && Owns(Run(checks, EmptyLedger, actions), b, digest)
    ensures a == b
  {
    hide Load, Run, FreshRun, Climbs, Covers;
    EmptyInv(checks);
    RunKeepsInv(checks, EmptyLedger, actions);
  }

  predicate DigestIsOwned(l: Ledger, digest: string) {
    digest in l.index.byDigest || exists i :: 0 <= i < |l.reservations| && l.reservations[i].intentDigest == digest
  }

  /** In every run a caller is given the reservation exactly when the ledger is healthy and neither
      its intent nor its digest is committed or reserved. */
  lemma ReservedIffUnowned(checks: Checks, actions: seq<Action>, intentId: string, digest: string, subjectId: string)
    requires FreshRun(checks, EmptyLedger, actions)
    ensures var l := Run(checks, EmptyLedger, actions);
            var r := Acquire(l, intentId, digest, subjectId);
            (r.Ok? && r.value.0 == Reserved) <==>
            (!l.poisoned && intentId !in l.index.byIntent && !IsReserved(l, intentId) && !DigestIsOwned(l, digest))
  {
    hide Load, Run, FreshRun, Climbs, Covers;
    EmptyInv(checks);
    RunKeepsInv(checks, EmptyLedger, actions);
  }

  predicate HeldBy(l: Ledger, intentId: string, digest: string, subjectId: string) {
    IsReserved(l, intentId) && l.reservations[Position(l.reservations, intentId)] == Reservation(intentId, digest, subjectId)
  }

  /** In every run a commit succeeds exactly for the holder of the reservation with a valid record
      and a durable append; "committed while reserved" never happens. */
  lemma CommitIffHolder(checks: Checks, actions: seq<Action>, i: string, d: string, s: string, a: Admission, w: Write)
    requires FreshRun(checks, EmptyLedger, actions)
    ensures var l := Run(checks, EmptyLedger, actions);
            var done := Commit(checks, l, i, d, s, a, w);
            var r := NewRecord(i, d, s, a);
            && (done.reply.Ok? <==>
                  !l.poisoned && HeldBy(l, i, d, s) && checks.schema(r) && TerminalInvariants(checks, r) && w == Synced)
            && done.reply != Err(CommittedWhileReserved)
            && (done.reply.Ok? ==> !IsReserved(done.ledger, i) && done.ledger.index.byIntent[i] == r && done.ledger.log == l.log + [r])
  {
    hide Load, Run, FreshRun, Climbs, Covers, TerminalInvariants, IndexOk, WithoutReservation;
    EmptyInv(checks);
    RunKeepsInv(checks, EmptyLedger, actions);
    var l := Run(checks, EmptyLedger, actions);
    if HeldBy(l, i, d, s) { Unreserved(l.index, l.reservations, i); }
  }

  lemma Unreserved(index: Index, reservations: seq<Reservation>, i: string)
    requires ReservationsOk(index, reservations) && Position(reservations, i) < |reservations|
    ensures var rest := WithoutReservation(reservations, i); Position(rest, i) == |rest|
  {
    RemovedReservation(reservations, i);
    var rest, p := WithoutReservation(reservations, i), Position(reservations, i);
    forall k | 0 <= k < |rest| ensures rest[k].intentId != i {
      assert rest[k] == if k < p then reservations[k] else reservations[k + 1];
    }
  }

  // ----- terminal records are final ----------------------------------------

  lemma ActKeepsTerminal(checks: Checks, l: Ledger, action: Action, k: string)
    requires Inv(checks, l) && FreshAction(l, action)
    requires k in l.index.byIntent && Terminal(l.index.byIntent[k].status)
    ensures k in Act(checks, l, action).index.byIntent && Act(checks, l, action).index.byIntent[k] == l.index.byIntent[k]
  {
    hide Inv, Load, Commit, Transition, Acquire, Release;
    match action
    case DoCommit(i, d, s, a, w) => CommitKeepsRecords(checks, l, i, d, s, a, w, k);
    case DoTransition(e, x, u, w) => TransitionKeepsTerminal(checks, l, e, x, u, w, k);
    case Restart =>
      HealthyIndex(checks, l);
      if l.poisoned { PoisonedIndexSurvives(checks, l, k); }
    case DoAcquire(i, d, s) => AcquireKeepsIndex(l, i, d, s);
    case DoRelease(i) => ReleaseKeepsIndex(l, i);
  }

  lemma HealthyIndex(checks: Checks, l: Ledger)
    requires Inv(checks, l)
    ensures Load(checks, l.log).Ok? && (!l.poisoned ==> l.index == Load(checks, l.log).value)
  {
    hide Load, Covers, Climbs, IndexOk, ReservationsOk, Retained;
  }

  lemma CommitKeepsRecords(checks: Checks, l: Ledger, i: string, d: string, s: string, a: Admission, w: Write, k: string)
    requires k in l.index.byIntent
    ensures var after := Commit(checks, l, i, d, s, a, w).ledger.index.byIntent; k in after && after[k] == l.index.byIntent[k]
  {
    hide TerminalInvariants, WithoutReservation, Position;
  }

  lemma TransitionKeepsTerminal(checks: Checks, l: Ledger, e: string, x: set<Status>, u: Update, w: Write, k: string)
    requires Inv(checks, l) && k in l.index.byIntent && Terminal(l.index.byIntent[k].status)
    ensures var after := Transition(checks, l, e, x, u, w).ledger.index.byIntent; k in after && after[k] == l.index.byIntent[k]
  {
    hide Inv, Extends, TerminalInvariants, HistoryAllows, NextRecord;
    if Transition(checks, l, e, x, u, w).ledger != l {
      TransitionAppends(checks, l, e, x, u, w);
      OwnRecordIsOpen(checks, l, e, x, u, w);
    }
  }

  /** A status change that reaches the log starts from a record that is not terminal. */
  lemma OwnRecordIsOpen(checks: Checks, l: Ledger, e: string, x: set<Status>, u: Update, w: Write)
    requires Inv(checks, l) && Transition(checks, l, e, x, u, w).ledger != l
    ensures e in l.index.byExecution && l.index.byExecution[e] in l.index.byIntent
    ensures var r := l.index.byIntent[l.index.byExecution[e]]; r.intentId == l.index.byExecution[e] && !Terminal(r.status)
  {
    hide Inv, TerminalInvariants, HistoryAllows, NextRecord;
    Named(checks, l, e);
  }

  lemma Named(checks: Checks, l: Ledger, e: string)
    requires Inv(checks, l) && e in l.index.byExecution && l.index.byExecution[e] in l.index.byIntent
    ensures l.index.byIntent[l.index.byExecution[e]].intentId == l.index.byExecution[e]
  {
    hide Load, Covers, Climbs, IndexOk, ReservationsOk, Retained;
    NamedByKey(l.index, l.index.byExecution[e]);
  }

  lemma AcquireKeepsIndex(l: Ledger, i: string, d: string, s: string)
    ensures Acquire(l, i, d, s).Ok? ==> Acquire(l, i, d, s).value.1.index == l.index
  {
    hide Position;
  }

  lemma ReleaseKeepsIndex(l: Ledger, i: string)
    ensures Release(l, i).index == l.index
  {
  }

  lemma PoisonedIndexSurvives(checks: Checks, l: Ledger, k: string)
    requires Inv(checks, l) && k in l.index.byIntent && Terminal(l.index.byIntent[k].status)
    ensures k in Load(checks, l.log).value.byIntent && Load(checks, l.log).value.byIntent[k] == l.index.byIntent[k]
  {
    hide Load, ReservationsOk, Climbs, IndexOk, Covers;
    RecordIsLast(l.log, Load(checks, l.log).value, l.index.byIntent[k], k) by {
      NamedByKey(l.index, k);
    }
  }

  lemma NamedByKey(index: Index, k: string)
    requires IndexOk(index) && k in index.byIntent
    ensures index.byIntent[k].intentId == k
  {
  }

  /** A terminal line is the last of its intent, so it is the one a reload indexes. */
  lemma RecordIsLast(log: seq<LedgerRecord>, loaded: Index, r: LedgerRecord, k: string)
    requires Climbs(log) && Covers(log, loaded) && IndexOk(loaded) && r in log && r.intentId == k && Terminal(r.status)
    ensures k in loaded.byIntent && loaded.byIntent[k] == r
  {
    hide Climbs, IndexOk, SameIdentity;
    var i :| 0 <= i < |log| && log[i] == r;
    assert Superseded(log[i], loaded);
    NamedByKey(loaded, k);
    assert loaded.byIntent[k] in log;
    var j :| 0 <= j < |log| && log[j] == loaded.byIntent[k];
    LastLine(log, i, j);
  }

  lemma LastLine(log: seq<LedgerRecord>, i: nat, j: nat)
    requires Climbs(log) && i < |log| && j < |log| && log[i].intentId == log[j].intentId
    requires Rank(log[i].status) == Rank(log[j].status)
    ensures i == j
  {
  }

  /** Exactly one terminal outcome ever wins: once a record is terminal, no later step of any run,
      restart included, changes it. */
  lemma {:induction false} TerminalIsFinal(checks: Checks, l: Ledger, more: seq<Action>, k: string)
    requires Inv(checks, l) && FreshRun(checks, l, more)
    requires k in l.index.byIntent && Terminal(l.index.byIntent[k].status)
    ensures var after := Run(checks, l, more).index.byIntent; k in after && after[k] == l.index.byIntent[k]
    decreases |more|
  {
    hide Inv, Act;
    if more != [] {
      ActKeepsTerminal(checks, l, more[0], k);
      ActKeepsInv(checks, l, more[0]);
      TerminalIsFinal(checks, Act(checks, l, more[0]), more[1..], k);
    }
  }

  lemma {:induction false} RunSplits(checks: Checks, l: Ledger, first: seq<Action>, more: seq<Action>)
    ensures Run(checks, l, first + more) == Run(checks, Run(checks, l, first), more)
    decreases |first|
  {
    hide Act;
    if first == [] {
      assert first + more == more;
    } else {
      assert (first + more)[0] == first[0] && (first + more)[1..] == first[1..] + more;
      RunSplits(checks, Act(checks, l, first[0]), first[1..], more);
    }
  }

  /** A cancel/complete race has one winner: the terminal record of any run survives every
      continuation of that run byte for byte. */
  lemma OneTerminalOutcome(checks: Checks, first: seq<Action>, more: seq<Action>, k: string)
    requires FreshRun(checks, EmptyLedger, first) && FreshRun(checks, Run(checks, EmptyLedger, first), more)
    requires var mid := Run(checks, EmptyLedger, first).index.byIntent; k in mid && Terminal(mid[k].status)
    ensures var mid, after := Run(checks, EmptyLedger, first).index.byIntent, Run(checks, EmptyLedger, first + more).index.byIntent;
            k in after && after[k] == mid[k]
  {
    hide Inv, Run, FreshRun;
    EmptyInv(checks);
    RunKeepsInv(checks, EmptyLedger, first);
    RunSplits(checks, EmptyLedger, first, more);
    TerminalIsFinal(checks, Run(checks, EmptyLedger, first), more, k);
  }
}
