/** What every interleaving of the admission gate maintains. */
module GateRuns {
  import opened Base
  import opened Ledger
  import opened Dispatch
  import opened Gate
  import Runs = LedgerRuns

  // ----- invariants --------------------------------------------------------

  predicate BeforeCommit(s: Stage) { s in {Holding, Passed, Slotted} || s.Aborting? }
  predicate AfterCommit(s: Stage) { s in {Committed, FinishingOwned, Finishing, Recalling} || s.Unwinding? }
  predicate OwnsSlot(s: Stage) { s in {Slotted, Committed, FinishingOwned, Aborting(true)} }
  predicate HasPassed(s: Stage) { s in {Passed, Slotted} }
  predicate PastPublication(s: Stage) { s in {Unwinding(true), Recalling, Finishing, Done} }

  /** The ledger knows the call: it is reserved until it commits. A call that passed the quota
      check fits the limit together with the active records and the reservations ahead of it. */
  predicate Standing(cfg: Config, l: Ledger, c: Call) {
    && (BeforeCommit(c.stage) ==> IsReserved(l, c.intentId))
    && (AfterCommit(c.stage) ==> c.intentId in l.index.byIntent)
    && (HasPassed(c.stage) ==> |NonterminalIds(l.index)| + Position(l.reservations, c.intentId) + 1 <= cfg.maxConcurrency)
  }

  predicate Apart(a: Call, b: Call) { a.stage != Done && b.stage != Done ==> a.intentId != b.intentId }

  /** One live call per intent, and every call in good standing. */
  predicate CallsOk(cfg: Config, l: Ledger, calls: map<nat, Call>) {
    && |NonterminalIds(l.index)| <= cfg.maxConcurrency
    && (forall c :: c in calls ==> Standing(cfg, l, calls[c]))
    && (forall c, d :: c in calls && d in calls && c != d ==> Apart(calls[c], calls[d]))
  }

  /** Calls that hold a permit which is neither a reservation nor a published job. */
  function Holders(calls: map<nat, Call>): set<nat> { set c | c in calls && calls[c].stage == Unwinding(false) }

  function PermitCount(w: World): nat { w.port.free + |w.port.slots| + |w.port.jobs| + |Holders(w.calls)| }

  predicate Owner(calls: map<nat, Call>, c: nat, intentId: string) {
    c in calls && OwnsSlot(calls[c].stage) && calls[c].intentId == intentId
  }

  /** Reserved slots are exactly those of the owning calls. */
  predicate SlotsOk(slots: set<string>, calls: map<nat, Call>) {
    && (forall c :: c in calls && OwnsSlot(calls[c].stage) ==> calls[c].intentId in slots)
    && (forall i :: i in slots ==> exists c :: c in calls && Owner(calls, c, i))
  }

  predicate LeftAdmitted(l: Ledger, e: string) {
    && e in l.index.byExecution && l.index.byExecution[e] in l.index.byIntent
    && l.index.byIntent[l.index.byExecution[e]].status != Admitted
  }

  predicate JobOf(calls: map<nat, Call>, e: string, id: nat) {
    id in calls && calls[id].executionId == e && PastPublication(calls[id].stage)
  }

  predicate HasJob(jobs: map<string, nat>, id: nat, c: Call) {
    c.stage == Unwinding(true) ==> c.executionId in jobs && jobs[c.executionId] == id
  }

  /** A published job belongs to a call that is past publication, and its record has left ADMITTED. */
  predicate JobsOk(l: Ledger, jobs: map<string, nat>, calls: map<nat, Call>) {
    && (forall e :: e in jobs ==> JobOf(calls, e, jobs[e]) && LeftAdmitted(l, e))
    && (forall c :: c in calls ==> HasJob(jobs, c, calls[c]))
  }

  /** What the file holds fits the limit too, so that a restart may begin with it. */
  ghost predicate FileFits(cfg: Config, l: Ledger) {
    Load(cfg.checks, l.log).Ok? && |NonterminalIds(Load(cfg.checks, l.log).value)| <= cfg.maxConcurrency
  }

  ghost predicate Inv(cfg: Config, w: World) {
    && Runs.Inv(cfg.checks, w.ledger) && FileFits(cfg, w.ledger)
    && CallsOk(cfg, w.ledger, w.calls)
    && SlotsOk(w.port.slots, w.calls)
    && JobsOk(w.ledger, w.port.jobs, w.calls)
    && w.port.limit == cfg.capacity
  }

  predicate Conserved(cfg: Config, w: World) { PermitCount(w) == cfg.capacity }

  /** An interrupted dispatch gives a permit back although its job has returned it already. */
  predicate DoubleFree(w: World, action: Action) {
    && action.UnwindCall? && In(w, action.id, Recalling) && !Overflows(w.port)
    && !(w.calls[action.id].executionId in w.port.jobs && w.port.jobs[w.calls[action.id].executionId] == action.id)
  }

  // ----- reservations and records --------------------------------------------

  lemma FirstPosition(reservations: seq<Reservation>, intentId: string, q: nat)
    requires q < |reservations| && reservations[q].intentId == intentId
    requires forall i :: 0 <= i < q ==> reservations[i].intentId != intentId
    ensures Position(reservations, intentId) == q
  {
  }

  /** Removing one reservation moves every other one up or leaves it in place. */
  lemma PositionAfterRemoval(reservations: seq<Reservation>, gone: string, other: string)
    requires gone != other && Position(reservations, other) < |reservations|
    ensures var rest := WithoutReservation(reservations, gone);
            Position(rest, other) < |rest|
            && Position(rest, other) == Position(reservations, other)
                 - (if Position(reservations, gone) < Position(reservations, other) then 1 else 0)
  {
    var p, q := Position(reservations, gone), Position(reservations, other);
    var rest := WithoutReservation(reservations, gone);
    Runs.RemovedReservation(reservations, gone);
    var q' := if p < q then q - 1 else q;
    assert rest[q'].intentId == other;
    assert forall i :: 0 <= i < q' ==> rest[i].intentId != other;
    FirstPosition(rest, other, q');
  }

  lemma PositionAfterAppend(reservations: seq<Reservation>, r: Reservation, other: string)
    requires Position(reservations, other) < |reservations|
    ensures Position(reservations + [r], other) == Position(reservations, other)
  {
    FirstPosition(reservations + [r], other, Position(reservations, other));
  }

  /** The record an execution leads to is filed under its own intent. */
  lemma OwnRecord(checks: Checks, l: Ledger, e: string)
    requires Runs.Inv(checks, l) && e in l.index.byExecution && l.index.byExecution[e] in l.index.byIntent
    ensures l.index.byIntent[l.index.byExecution[e]].intentId == l.index.byExecution[e]
  {
    hide Load, Runs.Covers, Runs.Climbs, Runs.IndexOk;
    Runs.NamedByKey(l.index, l.index.byExecution[e]);
  }

  lemma NextIsLater(r: LedgerRecord, u: Update)
    requires NextRecord(r, u).Ok?
    ensures !Terminal(r.status) && NextRecord(r, u).value.status == u.status != Admitted
    ensures NextRecord(r, u).value.intentId == r.intentId
  {
  }

  /** A status change keeps keys, reservations and executions, and never revives a record. */
  lemma TransitionEffect(checks: Checks, l: Ledger, e: string, x: set<Status>, u: Update, write: Write)
    requires Runs.Inv(checks, l)
    ensures var t := Transition(checks, l, e, x, u, write);
            && Runs.Inv(checks, t.ledger)
            && t.ledger.reservations == l.reservations
            && t.ledger.index.byIntent.Keys == l.index.byIntent.Keys
            && t.ledger.index.byExecution == l.index.byExecution
            && NonterminalIds(t.ledger.index) <= NonterminalIds(l.index)
            && (forall y :: LeftAdmitted(l, y) ==> LeftAdmitted(t.ledger, y))
            && (t.reply.Ok? && t.reply.value.Some? && x == {Admitted} && u.status == Queued ==>
                  !LeftAdmitted(l, e) && LeftAdmitted(t.ledger, e))
  {
    hide Runs.Inv, TerminalInvariants, HistoryAllows, Load, Runs.Extends;
    Runs.TransitionKeepsInv(checks, l, e, x, u, write);
    var t := Transition(checks, l, e, x, u, write);
    if t.ledger != l {
      Runs.TransitionAppends(checks, l, e, x, u, write);
      var r := l.index.byIntent[l.index.byExecution[e]];
      NextIsLater(r, u);
      OwnRecord(checks, l, e);
    }
  }

  /** Nor does it add an active record to the file, however its append ends. */
  lemma TransitionFile(cfg: Config, l: Ledger, e: string, x: set<Status>, u: Update, write: Write)
    requires Runs.Inv(cfg.checks, l) && FileFits(cfg, l)
    ensures FileFits(cfg, Transition(cfg.checks, l, e, x, u, write).ledger)
  {
    hide Runs.Inv, TerminalInvariants, HistoryAllows, Load, Runs.Extends, NextRecord, NonterminalIds;
    if Transition(cfg.checks, l, e, x, u, write).ledger != l {
      Runs.TransitionAppends(cfg.checks, l, e, x, u, write);
      var r := l.index.byIntent[l.index.byExecution[e]];
      var next := NextRecord(r, u).value;
      LogLoads(cfg.checks, l);
      Runs.AppendKeepsInv(cfg.checks, l, next);
      NextIsLater(r, u);
      OwnRecord(cfg.checks, l, e);
      LaterIsFewer(l.index, next);
    }
  }

  lemma LaterIsFewer(index: Index, next: LedgerRecord)
    requires next.intentId in index.byIntent && !Terminal(index.byIntent[next.intentId].status)
    ensures |NonterminalIds(Indexed(index, next))| <= |NonterminalIds(index)|
  {
    SubsetSize(NonterminalIds(Indexed(index, next)), NonterminalIds(index));
  }

  lemma LogLoads(checks: Checks, l: Ledger)
    requires Runs.Inv(checks, l)
    ensures Load(checks, l.log).Ok? && (!l.poisoned ==> Load(checks, l.log).value == l.index)
  {
    hide Load, Runs.Covers, Runs.Climbs, Runs.IndexOk;
  }

  /** A new reservation stands last; the calls before it keep their places. */
  lemma StandingAfterArrival(cfg: Config, l: Ledger, r: Reservation, c: Call)
    requires Standing(cfg, l, c)
    ensures Standing(cfg, l.(reservations := l.reservations + [r]), c)
  {
    hide NonterminalIds, Position;
    if BeforeCommit(c.stage) { PositionAfterAppend(l.reservations, r, c.intentId); }
    assert HasPassed(c.stage) ==> BeforeCommit(c.stage);
  }

  lemma StandingAfterRelease(cfg: Config, l: Ledger, gone: string, c: Call)
    requires Standing(cfg, l, c) && (c.stage == Done || c.intentId != gone)
    ensures Standing(cfg, Release(l, gone), c)
  {
    hide NonterminalIds, Position, WithoutReservation;
    if BeforeCommit(c.stage) { PositionAfterRemoval(l.reservations, gone, c.intentId); }
    assert HasPassed(c.stage) ==> BeforeCommit(c.stage);
  }

  /** One active record more and one reservation less. A call behind the committed one moves up in
      exchange; one ahead of it fits because the committed call, further back, did. */
  lemma StandingAfterCommit(cfg: Config, l: Ledger, after: Ledger, gone: Call, c: Call)
    requires Standing(cfg, l, c) && Standing(cfg, l, gone) && HasPassed(gone.stage) && (c.stage == Done || c.intentId != gone.intentId)
    requires gone.intentId !in NonterminalIds(l.index)
    requires after.index.byIntent.Keys == l.index.byIntent.Keys + {gone.intentId}
    requires NonterminalIds(after.index) == NonterminalIds(l.index) + {gone.intentId}
    requires after.reservations == WithoutReservation(l.reservations, gone.intentId)
    ensures Standing(cfg, after, c)
  {
    hide NonterminalIds, Position, WithoutReservation, BeforeCommit, AfterCommit, HasPassed;
    PassedIsBefore(c.stage);
    PassedIsBefore(gone.stage);
    DoneIsNeither();
    assert |NonterminalIds(after.index)| == |NonterminalIds(l.index)| + 1;
    if BeforeCommit(c.stage) {
      PositionAfterRemoval(l.reservations, gone.intentId, c.intentId);
      TwoPlaces(l.reservations, gone.intentId, c.intentId);
    }
  }

  lemma PassedIsBefore(s: Stage)
    ensures HasPassed(s) ==> BeforeCommit(s)
  {
  }

  lemma DoneIsNeither()
    ensures !BeforeCommit(Done) && !AfterCommit(Done) && !OwnsSlot(Done)
  {
  }

  lemma TwoPlaces(reservations: seq<Reservation>, a: string, b: string)
    requires a != b && Position(reservations, b) < |reservations|
    ensures Position(reservations, a) != Position(reservations, b)
  {
  }

  /** A refused or failed commit leaves indexes and reservations; a successful one puts an active
      record in place of its reservation. */
  lemma CommitEffect(checks: Checks, l: Ledger, c: Call, a: Admission, write: Write)
    requires Runs.Inv(checks, l) && Runs.FreshAction(l, Runs.DoCommit(c.intentId, c.digest, c.subjectId, a, write))
    ensures var done := Commit(checks, l, c.intentId, c.digest, c.subjectId, a, write);
            && Runs.Inv(checks, done.ledger)
            && (done.reply.Err? ==> done.ledger.index == l.index && done.ledger.reservations == l.reservations)
            && (done.ledger.log != l.log ==>
                  && c.intentId !in l.index.byIntent && a.executionId !in l.index.byExecution
                  && Load(checks, done.ledger.log) == Ok(Indexed(l.index, NewRecord(c.intentId, c.digest, c.subjectId, a))))
            && (done.reply.Ok? ==>
                  && c.intentId !in l.index.byIntent && a.executionId !in l.index.byExecution
                  && done.ledger.index == Indexed(l.index, NewRecord(c.intentId, c.digest, c.subjectId, a))
                  && done.ledger.reservations == WithoutReservation(l.reservations, c.intentId))
  {
    hide TerminalInvariants, Runs.Inv, WithoutReservation, Load;
    Runs.CommitKeepsInv(checks, l, Runs.DoCommit(c.intentId, c.digest, c.subjectId, a, write));
    if Commit(checks, l, c.intentId, c.digest, c.subjectId, a, write).ledger != l {
      Runs.FreshIsUnused(checks, l, a.executionId);
      ReservedDigestIsFree(checks, l, c.intentId);
      Runs.AppendKeepsInv(checks, l, NewRecord(c.intentId, c.digest, c.subjectId, a));
    }
  }

  lemma ReservedDigestIsFree(checks: Checks, l: Ledger, intentId: string)
    requires Runs.Inv(checks, l) && IsReserved(l, intentId)
    ensures l.reservations[Position(l.reservations, intentId)].intentDigest !in l.index.byDigest
  {
    hide Load, Runs.Covers, Runs.Climbs, Runs.IndexOk;
  }

  lemma NewRecordEffect(index: Index, r: LedgerRecord)
    requires r.status == Admitted && r.intentId !in index.byIntent && r.executionId !in index.byExecution
    ensures var after := Indexed(index, r);
            && after.byIntent.Keys == index.byIntent.Keys + {r.intentId}
            && NonterminalIds(after) == NonterminalIds(index) + {r.intentId}
            && r.intentId !in NonterminalIds(index)
  {
  }

  lemma LeftAdmittedStays(l: Ledger, after: Ledger, r: LedgerRecord, e: string)
    requires LeftAdmitted(l, e) && r.intentId !in l.index.byIntent && r.executionId !in l.index.byExecution
    requires after.index == Indexed(l.index, r)
    ensures LeftAdmitted(after, e)
  {
  }

  // ----- one call changes -----------------------------------------------------

  lemma HoldersAfter(calls: map<nat, Call>, id: nat, call: Call)
    ensures Holders(calls[id := call]) == if call.stage == Unwinding(false) then Holders(calls) + {id} else Holders(calls) - {id}
  {
  }

  lemma HoldersKept(calls: map<nat, Call>, id: nat, call: Call)
    requires call.stage != Unwinding(false) && (id in calls ==> calls[id].stage != Unwinding(false))
    ensures Holders(calls[id := call]) == Holders(calls)
  {
    HoldersAfter(calls, id, call);
  }

  /** All calls but one are unchanged; the ledger moved under them. */
  lemma CallReplaced(cfg: Config, l: Ledger, calls: map<nat, Call>, after: Ledger, id: nat, call: Call)
    requires CallsOk(cfg, l, calls)
    requires |NonterminalIds(after.index)| <= cfg.maxConcurrency && Standing(cfg, after, call)
    requires forall c :: c in calls && c != id ==> Standing(cfg, after, calls[c]) && Apart(calls[c], call)
    ensures CallsOk(cfg, after, calls[id := call])
  {
    hide Standing, NonterminalIds;
  }

  /** Only the stage of one call changes. */
  lemma StageReplaced(cfg: Config, l: Ledger, calls: map<nat, Call>, id: nat, stage: Stage)
    requires CallsOk(cfg, l, calls) && id in calls && (stage == Done || calls[id].stage != Done)
    requires Standing(cfg, l, calls[id].(stage := stage))
    ensures CallsOk(cfg, l, calls[id := calls[id].(stage := stage)])
  {
    hide Standing, NonterminalIds;
    CallReplaced(cfg, l, calls, l, id, calls[id].(stage := stage));
  }

  /** A stage change that moves no call towards commitment keeps its standing. */
  lemma StageStands(cfg: Config, l: Ledger, calls: map<nat, Call>, id: nat, stage: Stage)
    requires CallsOk(cfg, l, calls) && id in calls && (stage == Done || calls[id].stage != Done)
    requires BeforeCommit(stage) ==> BeforeCommit(calls[id].stage)
    requires AfterCommit(stage) ==> AfterCommit(calls[id].stage)
    requires HasPassed(stage) ==> HasPassed(calls[id].stage)
    ensures CallsOk(cfg, l, calls[id := calls[id].(stage := stage)])
  {
    hide NonterminalIds, Position, IsReserved, BeforeCommit, AfterCommit, HasPassed, Apart;
    assert Standing(cfg, l, calls[id]);
    StageReplaced(cfg, l, calls, id, stage);
  }

  lemma SlotsUntouched(slots: set<string>, calls: map<nat, Call>, id: nat, call: Call)
    requires SlotsOk(slots, calls)
    requires if id in calls then call.intentId == calls[id].intentId && OwnsSlot(call.stage) == OwnsSlot(calls[id].stage)
             else !OwnsSlot(call.stage)
    ensures SlotsOk(slots, calls[id := call])
  {
    hide OwnsSlot;
    var after := calls[id := call];
    forall i | i in slots ensures exists c :: c in after && Owner(after, c, i) {
      var c :| c in calls && Owner(calls, c, i);
      assert Owner(after, c, i);
    }
  }

  lemma SlotTaken(slots: set<string>, calls: map<nat, Call>, id: nat, call: Call)
    requires SlotsOk(slots, calls) && id in calls && call.intentId == calls[id].intentId
    requires !OwnsSlot(calls[id].stage) && OwnsSlot(call.stage)
    ensures SlotsOk(slots + {call.intentId}, calls[id := call])
  {
    hide OwnsSlot;
    var after := calls[id := call];
    assert Owner(after, id, call.intentId);
    forall i | i in slots ensures exists c :: c in after && Owner(after, c, i) {
      var c :| c in calls && Owner(calls, c, i);
      assert Owner(after, c, i);
    }
  }

  lemma OwnersAreLive(s: Stage)
    requires OwnsSlot(s)
    ensures s != Done
  {
  }

  lemma SlotGiven(cfg: Config, l: Ledger, slots: set<string>, calls: map<nat, Call>, id: nat, call: Call)
    requires SlotsOk(slots, calls) && CallsOk(cfg, l, calls) && id in calls && call.intentId == calls[id].intentId
    requires OwnsSlot(calls[id].stage) && !OwnsSlot(call.stage)
    ensures SlotsOk(slots - {call.intentId}, calls[id := call])
  {
    hide OwnsSlot, Standing, NonterminalIds;
    var after := calls[id := call];
    OwnersAreLive(calls[id].stage);
    forall c | c in after && OwnsSlot(after[c].stage) ensures after[c].intentId in slots - {call.intentId} {
      OwnersAreLive(calls[c].stage);
      assert Apart(calls[c], calls[id]);
    }
    forall i | i in slots - {call.intentId} ensures exists c :: c in after && Owner(after, c, i) {
      var c :| c in calls && Owner(calls, c, i);
      assert Owner(after, c, i);
    }
  }

  /** Jobs are unaffected when their call, if it changes, stays past publication. */
  lemma JobsUntouched(l: Ledger, jobs: map<string, nat>, calls: map<nat, Call>, id: nat, call: Call)
    requires JobsOk(l, jobs, calls) && call.stage != Unwinding(true)
    requires id in calls && PastPublication(calls[id].stage) ==>
               call.executionId == calls[id].executionId && PastPublication(call.stage)
    ensures JobsOk(l, jobs, calls[id := call])
  {
    hide LeftAdmitted, PastPublication;
    var after := calls[id := call];
    forall e | e in jobs ensures JobOf(after, e, jobs[e]) {
      assert JobOf(calls, e, jobs[e]);
    }
  }

  lemma LedgerMovesUnderJobs(a: Ledger, b: Ledger, jobs: map<string, nat>, calls: map<nat, Call>)
    requires JobsOk(a, jobs, calls)
    requires forall y :: LeftAdmitted(a, y) ==> LeftAdmitted(b, y)
    ensures JobsOk(b, jobs, calls)
  {
    hide LeftAdmitted, JobOf, HasJob;
  }

  lemma JobAdded(l: Ledger, jobs: map<string, nat>, calls: map<nat, Call>, id: nat, call: Call)
    requires JobsOk(l, jobs, calls) && call.executionId !in jobs && LeftAdmitted(l, call.executionId)
    requires PastPublication(call.stage) && (id in calls ==> !PastPublication(calls[id].stage))
    ensures JobsOk(l, jobs[call.executionId := id], calls[id := call])
    ensures |jobs[call.executionId := id]| == |jobs| + 1
  {
    hide LeftAdmitted, PastPublication, HasJob;
    var more, after := jobs[call.executionId := id], calls[id := call];
    forall e | e in more ensures JobOf(after, e, more[e]) {
      if e in jobs { assert JobOf(calls, e, jobs[e]); }
    }
    forall c | c in after ensures HasJob(more, c, after[c]) {
      JobStays(jobs, c, after[c], call.executionId, id);
    }
    KeyAdded(jobs, call.executionId, id);
  }

  lemma JobStays(jobs: map<string, nat>, c: nat, call: Call, e: string, id: nat)
    requires if c == id then call.executionId == e else HasJob(jobs, c, call) && e !in jobs
    ensures HasJob(jobs[e := id], c, call)
  {
  }

  lemma KeyAdded(jobs: map<string, nat>, e: string, id: nat)
    requires e !in jobs
    ensures |jobs[e := id]| == |jobs| + 1
  {
    assert jobs[e := id].Keys == jobs.Keys + {e};
  }

  lemma JobRemoved(l: Ledger, jobs: map<string, nat>, calls: map<nat, Call>, e: string)
    requires JobsOk(l, jobs, calls) && e in jobs
    requires forall c :: c in calls && calls[c].stage == Unwinding(true) ==> calls[c].executionId != e
    ensures JobsOk(l, jobs - {e}, calls)
    ensures |jobs - {e}| == |jobs| - 1
  {
    hide LeftAdmitted, JobOf;
    forall c | c in calls ensures HasJob(jobs - {e}, c, calls[c]) {
      assert HasJob(jobs, c, calls[c]);
    }
    assert (jobs - {e}).Keys == jobs.Keys - {e};
  }

  // ----- every action keeps the invariant ------------------------------------

  /** A live call's intent is reserved or committed, so a newcomer's is neither. */
  lemma NewcomerIsApart(cfg: Config, l: Ledger, c: Call, newcomer: Call)
    requires Standing(cfg, l, c) && !IsReserved(l, newcomer.intentId) && newcomer.intentId !in l.index.byIntent
    ensures Apart(c, newcomer)
  {
    hide IsReserved, NonterminalIds, Position;
  }

  lemma ArrivalStands(cfg: Config, l: Ledger, calls: map<nat, Call>, id: nat, call: Call)
    requires CallsOk(cfg, l, calls) && id !in calls && call.stage == Holding
    requires !IsReserved(l, call.intentId) && call.intentId !in l.index.byIntent
    ensures var r := Reservation(call.intentId, call.digest, call.subjectId);
            CallsOk(cfg, l.(reservations := l.reservations + [r]), calls[id := call])
  {
    hide Standing, NonterminalIds, Apart;
    var r := Reservation(call.intentId, call.digest, call.subjectId);
    forall c | c in calls ensures Standing(cfg, l.(reservations := l.reservations + [r]), calls[c]) && Apart(calls[c], call) {
      StandingAfterArrival(cfg, l, r, calls[c]);
      NewcomerIsApart(cfg, l, calls[c], call);
    }
    LastStands(cfg, l, r, call);
    CallReplaced(cfg, l, calls, l.(reservations := l.reservations + [r]), id, call);
  }

  lemma LastStands(cfg: Config, l: Ledger, r: Reservation, call: Call)
    requires r.intentId == call.intentId && call.stage == Holding && !IsReserved(l, call.intentId)
    ensures Standing(cfg, l.(reservations := l.reservations + [r]), call)
  {
    assert (l.reservations + [r])[|l.reservations|] == r;
    FirstPosition(l.reservations + [r], r.intentId, |l.reservations|);
  }

  lemma ArriveKeepsInv(cfg: Config, w: World, id: nat, i: string, d: string, s: string)
    requires Inv(cfg, w)
    ensures Inv(cfg, OnArrive(w, id, i, d, s))
    ensures Conserved(cfg, w) ==> Conserved(cfg, OnArrive(w, id, i, d, s))
  {
    hide Runs.Inv, FileFits, CallsOk, SlotsOk, JobsOk, IsReserved, LeftAdmitted;
    var after := OnArrive(w, id, i, d, s);
    if after != w {
      Runs.AcquireKeepsInv(cfg.checks, w.ledger, i, d, s);
      var call := Call(i, d, s, "", Holding);
      SlotsUntouched(w.port.slots, w.calls, id, call);
      JobsUntouched(w.ledger, w.port.jobs, w.calls, id, call);
      HoldersKept(w.calls, id, call);
      ArrivalStands(cfg, w.ledger, w.calls, id, call);
      SameFile(cfg, w.ledger, after.ledger);
      LedgerMovesUnderJobs(w.ledger, after.ledger, after.port.jobs, after.calls) by {
        SameIndex(w.ledger, after.ledger);
      }
    }
  }

  lemma SameFile(cfg: Config, a: Ledger, b: Ledger)
    requires FileFits(cfg, a) && a.log == b.log
    ensures FileFits(cfg, b)
  {
  }

  lemma SameIndex(a: Ledger, b: Ledger)
    requires a.index == b.index
    ensures forall y :: LeftAdmitted(a, y) ==> LeftAdmitted(b, y)
  {
  }

  /** A stage change of a call that holds the same slot before and after, and no permit. */
  lemma StageKeepsPort(cfg: Config, w: World, id: nat, stage: Stage)
    requires Inv(cfg, w) && id in w.calls
    requires OwnsSlot(stage) == OwnsSlot(w.calls[id].stage) && !stage.Unwinding? && !w.calls[id].stage.Unwinding?
    requires PastPublication(w.calls[id].stage) ==> PastPublication(stage)
    requires CallsOk(cfg, w.ledger, At(w, id, stage).calls)
    ensures Inv(cfg, At(w, id, stage))
    ensures Conserved(cfg, w) ==> Conserved(cfg, At(w, id, stage))
  {
    hide Runs.Inv, FileFits, CallsOk, SlotsOk, JobsOk, OwnsSlot, Holders;
    var call := w.calls[id].(stage := stage);
    SlotsUntouched(w.port.slots, w.calls, id, call);
    JobsUntouched(w.ledger, w.port.jobs, w.calls, id, call);
    HoldersKept(w.calls, id, call);
  }

  lemma StageOnly(cfg: Config, w: World, id: nat, stage: Stage)
    requires Inv(cfg, w) && id in w.calls && (stage == Done || w.calls[id].stage != Done)
    requires OwnsSlot(stage) == OwnsSlot(w.calls[id].stage) && !stage.Unwinding? && !w.calls[id].stage.Unwinding?
    requires PastPublication(w.calls[id].stage) ==> PastPublication(stage)
    requires BeforeCommit(stage) ==> BeforeCommit(w.calls[id].stage)
    requires AfterCommit(stage) ==> AfterCommit(w.calls[id].stage)
    requires HasPassed(stage) ==> HasPassed(w.calls[id].stage)
    ensures Inv(cfg, At(w, id, stage))
    ensures Conserved(cfg, w) ==> Conserved(cfg, At(w, id, stage))
  {
    hide Runs.Inv, FileFits, CallsOk, SlotsOk, JobsOk, OwnsSlot, BeforeCommit, AfterCommit, HasPassed, PastPublication;
    StageStands(cfg, w.ledger, w.calls, id, stage);
    StageKeepsPort(cfg, w, id, stage);
  }

  lemma QuotaKeepsInv(cfg: Config, w: World, id: nat, grantable: bool)
    requires Inv(cfg, w)
    ensures Inv(cfg, OnQuota(cfg, w, id, grantable))
    ensures Conserved(cfg, w) ==> Conserved(cfg, OnQuota(cfg, w, id, grantable))
  {
    hide Inv, IsReserved, NonterminalIds, Position;
    var after := OnQuota(cfg, w, id, grantable);
    if after != w {
      if after.calls[id].stage == Passed {
        PassingStands(cfg, w, id);
        StageKeepsPort(cfg, w, id, Passed);
      } else {
        StageOnly(cfg, w, id, Aborting(false));
      }
    }
  }

  lemma PassingStands(cfg: Config, w: World, id: nat)
    requires Inv(cfg, w) && In(w, id, Holding)
    requires ActiveCount(w.ledger, w.calls[id].intentId).Ok? && ActiveCount(w.ledger, w.calls[id].intentId).value < cfg.maxConcurrency
    ensures CallsOk(cfg, w.ledger, At(w, id, Passed).calls)
  {
    hide Runs.Inv, FileFits, CallsOk, SlotsOk, JobsOk, NonterminalIds, Position;
    StageReplaced(cfg, w.ledger, w.calls, id, Passed);
  }

  lemma InterruptKeepsInv(cfg: Config, w: World, id: nat)
    requires Inv(cfg, w)
    ensures Inv(cfg, OnInterrupt(w, id))
    ensures Conserved(cfg, w) ==> Conserved(cfg, OnInterrupt(w, id))
  {
    hide Inv;
    var after := OnInterrupt(w, id);
    if after != w { StageOnly(cfg, w, id, after.calls[id].stage); }
  }

  lemma TakeSlotKeepsInv(cfg: Config, w: World, id: nat)
    requires Inv(cfg, w)
    ensures Inv(cfg, OnTakeSlot(w, id))
    ensures Conserved(cfg, w) ==> Conserved(cfg, OnTakeSlot(w, id))
  {
    hide Runs.Inv, FileFits, CallsOk, SlotsOk, JobsOk, Holders;
    var after := OnTakeSlot(w, id);
    if after != w {
      if after.calls[id].stage == Slotted {
        StageStands(cfg, w.ledger, w.calls, id, Slotted);
        var call := w.calls[id].(stage := Slotted);
        SlotTaken(w.port.slots, w.calls, id, call);
        JobsUntouched(w.ledger, w.port.jobs, w.calls, id, call);
        HoldersKept(w.calls, id, call);
      } else {
        StageOnly(cfg, w, id, Aborting(false));
      }
    }
  }

  /** Giving an owned slot back, to whatever stage the call goes next. */
  lemma SlotReleased(cfg: Config, w: World, id: nat, stage: Stage)
    requires Inv(cfg, w) && id in w.calls && OwnsSlot(w.calls[id].stage) && !OwnsSlot(stage) && !stage.Unwinding?
    requires CallsOk(cfg, w.ledger, At(w, id, stage).calls)
    ensures Inv(cfg, At(w.(port := ReleaseCapacity(w.port, w.calls[id].intentId)), id, stage))
    ensures Conserved(cfg, w) ==> Conserved(cfg, At(w.(port := ReleaseCapacity(w.port, w.calls[id].intentId)), id, stage))
  {
    hide Runs.Inv, FileFits, CallsOk, JobsOk, Holders;
    var call := w.calls[id].(stage := stage);
    SlotGiven(cfg, w.ledger, w.port.slots, w.calls, id, call);
    JobsUntouched(w.ledger, w.port.jobs, w.calls, id, call);
    HoldersKept(w.calls, id, call);
  }

  lemma DropSlotKeepsInv(cfg: Config, w: World, id: nat)
    requires Inv(cfg, w)
    ensures Inv(cfg, OnDropSlot(w, id))
    ensures Conserved(cfg, w) ==> Conserved(cfg, OnDropSlot(w, id))
  {
    hide Runs.Inv, FileFits, CallsOk, SlotsOk, JobsOk;
    var after := OnDropSlot(w, id);
    if after != w {
      StageStands(cfg, w.ledger, w.calls, id, after.calls[id].stage);
      SlotReleased(cfg, w, id, after.calls[id].stage);
    }
  }

  /** A call past publication owns no slot, and no other live call shares its intent. */
  lemma FinishedOwnsNothing(cfg: Config, w: World, id: nat)
    requires Inv(cfg, w) && In(w, id, Finishing)
    ensures w.calls[id].intentId !in w.port.slots
  {
    hide Runs.Inv, FileFits, Standing, NonterminalIds, JobsOk;
  }

  lemma FinishKeepsInv(cfg: Config, w: World, id: nat)
    requires Inv(cfg, w)
    ensures Inv(cfg, OnFinish(w, id))
    ensures Conserved(cfg, w) ==> Conserved(cfg, OnFinish(w, id))
  {
    hide Runs.Inv, FileFits, CallsOk, SlotsOk, JobsOk;
    if OnFinish(w, id) != w {
      if In(w, id, Finishing) {
        FinishedOwnsNothing(cfg, w, id);
        StageOnly(cfg, w, id, Done);
      } else {
        StageStands(cfg, w.ledger, w.calls, id, Done);
        SlotReleased(cfg, w, id, Done);
      }
    }
  }

  lemma DoneStands(cfg: Config, l: Ledger, c: Call)
    requires c.stage == Done
    ensures Standing(cfg, l, c)
  {
  }

  lemma ReleaseStands(cfg: Config, w: World, id: nat)
    requires CallsOk(cfg, w.ledger, w.calls) && In(w, id, Aborting(false))
    ensures CallsOk(cfg, Release(w.ledger, w.calls[id].intentId), At(w, id, Done).calls)
  {
    hide Standing, NonterminalIds, WithoutReservation;
    var gone, l := w.calls[id], Release(w.ledger, w.calls[id].intentId);
    forall c | c in w.calls && c != id ensures Standing(cfg, l, w.calls[c]) {
      assert Apart(w.calls[c], gone);
      StandingAfterRelease(cfg, w.ledger, gone.intentId, w.calls[c]);
    }
    DoneStands(cfg, l, gone.(stage := Done));
    CallReplaced(cfg, w.ledger, w.calls, l, id, gone.(stage := Done));
  }

  lemma DropReservationKeepsInv(cfg: Config, w: World, id: nat)
    requires Inv(cfg, w)
    ensures Inv(cfg, OnDropReservation(w, id))
    ensures Conserved(cfg, w) ==> Conserved(cfg, OnDropReservation(w, id))
  {
    hide Runs.Inv, FileFits, CallsOk, SlotsOk, JobsOk, LeftAdmitted, Holders, WithoutReservation;
    if OnDropReservation(w, id) != w {
      var i, call := w.calls[id].intentId, w.calls[id].(stage := Done);
      var l := Release(w.ledger, i);
      ReleaseStands(cfg, w, id);
      Runs.ActKeepsInv(cfg.checks, w.ledger, Runs.DoRelease(i));
      SlotsUntouched(w.port.slots, w.calls, id, call);
      JobsUntouched(w.ledger, w.port.jobs, w.calls, id, call);
      HoldersKept(w.calls, id, call);
      SameIndex(w.ledger, l);
      SameFile(cfg, w.ledger, l);
      LedgerMovesUnderJobs(w.ledger, l, w.port.jobs, w.calls[id := call]);
    }
  }

  /** The permit of an unwinding call goes back, with its published job if there is one; a recalled job
      that returned meanwhile has given it back already. */
  lemma UnwindKeepsInv(cfg: Config, w: World, id: nat)
    requires Inv(cfg, w)
    ensures Inv(cfg, OnUnwind(w, id))
    ensures Conserved(cfg, w) ==> PermitCount(OnUnwind(w, id)) == cfg.capacity + if DoubleFree(w, UnwindCall(id)) then 1 else 0
  {
    hide Runs.Inv, FileFits, CallsOk, SlotsOk, JobsOk, Holders;
    if OnUnwind(w, id) != w {
      var call := w.calls[id].(stage := Finishing);
      StageStands(cfg, w.ledger, w.calls, id, Finishing);
      SlotsUntouched(w.port.slots, w.calls, id, call);
      JobsUntouched(w.ledger, w.port.jobs, w.calls, id, call);
      if w.calls[id].stage == Unwinding(false) {
        HoldersAfter(w.calls, id, call);
        UnpublishedHasNoJob(w, id);
        HeldByUnwinder(w, id);
      } else {
        HoldersKept(w.calls, id, call);
        if w.calls[id].stage == Unwinding(true) { PublishedHasJob(w, id); }
        if call.executionId in w.port.jobs && w.port.jobs[call.executionId] == id {
          OneUnwinder(w, id);
          JobRemoved(w.ledger, w.port.jobs, w.calls[id := call], call.executionId);
        }
      }
    }
  }

  lemma HeldByUnwinder(w: World, id: nat)
    requires In(w, id, Unwinding(false))
    ensures id in Holders(w.calls)
  {
  }

  lemma PublishedHasJob(w: World, id: nat)
    requires JobsOk(w.ledger, w.port.jobs, w.calls) && In(w, id, Unwinding(true))
    ensures w.calls[id].executionId in w.port.jobs && w.port.jobs[w.calls[id].executionId] == id
  {
    hide LeftAdmitted, JobOf;
    assert HasJob(w.port.jobs, id, w.calls[id]);
  }

  /** Only its own call can be unwinding a published job. */
  lemma OneUnwinder(w: World, id: nat)
    requires JobsOk(w.ledger, w.port.jobs, w.calls) && id in w.calls
    requires w.calls[id].executionId in w.port.jobs && w.port.jobs[w.calls[id].executionId] == id
    ensures forall c :: c in w.calls && c != id && w.calls[c].stage == Unwinding(true) ==> w.calls[c].executionId != w.calls[id].executionId
  {
    hide LeftAdmitted, JobOf;
    forall c | c in w.calls && c != id && w.calls[c].stage == Unwinding(true) ensures w.calls[c].executionId != w.calls[id].executionId {
      assert HasJob(w.port.jobs, c, w.calls[c]);
    }
  }

  lemma UnpublishedHasNoJob(w: World, id: nat)
    requires JobsOk(w.ledger, w.port.jobs, w.calls) && In(w, id, Unwinding(false))
    ensures !(w.calls[id].executionId in w.port.jobs && w.port.jobs[w.calls[id].executionId] == id)
  {
    hide LeftAdmitted, HasJob;
  }

  lemma JobReturnsKeepsInv(cfg: Config, w: World, e: string)
    requires Inv(cfg, w)
    ensures Inv(cfg, OnJobReturns(w, e))
    ensures Conserved(cfg, w) ==> Conserved(cfg, OnJobReturns(w, e))
  {
    hide Runs.Inv, FileFits, CallsOk, SlotsOk, LeftAdmitted, JobOf, Holders;
    if OnJobReturns(w, e) != w {
      forall c | c in w.calls && w.calls[c].stage == Unwinding(true) ensures w.calls[c].executionId != e {
        assert HasJob(w.port.jobs, c, w.calls[c]);
      }
      JobRemoved(w.ledger, w.port.jobs, w.calls, e);
    }
  }

  lemma StandingAfterMove(cfg: Config, l: Ledger, after: Ledger, c: Call)
    requires Standing(cfg, l, c) && after.reservations == l.reservations
    requires after.index.byIntent.Keys == l.index.byIntent.Keys
    requires |NonterminalIds(after.index)| <= |NonterminalIds(l.index)|
    ensures Standing(cfg, after, c)
  {
    hide NonterminalIds, Position, BeforeCommit, AfterCommit, HasPassed;
  }

  /** Any status change keeps the ledger side, whoever makes it. */
  lemma MoveKeepsInv(cfg: Config, w: World, e: string, x: set<Status>, u: Update, write: Write)
    requires Inv(cfg, w)
    ensures Inv(cfg, w.(ledger := Transition(cfg.checks, w.ledger, e, x, u, write).ledger))
    ensures Conserved(cfg, w) ==> Conserved(cfg, w.(ledger := Transition(cfg.checks, w.ledger, e, x, u, write).ledger))
  {
    hide Runs.Inv, FileFits, Standing, SlotsOk, JobsOk, Transition, NonterminalIds, LeftAdmitted, Holders;
    TransitionEffect(cfg.checks, w.ledger, e, x, u, write);
    var l := Transition(cfg.checks, w.ledger, e, x, u, write).ledger;
    SubsetSize(NonterminalIds(l.index), NonterminalIds(w.ledger.index));
    forall c | c in w.calls ensures Standing(cfg, l, w.calls[c]) {
      StandingAfterMove(cfg, w.ledger, l, w.calls[c]);
    }
    LedgerMovesUnderJobs(w.ledger, l, w.port.jobs, w.calls);
    TransitionFile(cfg, w.ledger, e, x, u, write);
  }

  /** The permit of the consumed slot now belongs to the unwinding call. */
  lemma PermitHeld(cfg: Config, w: World, id: nat)
    requires Inv(cfg, w) && In(w, id, Committed)
    ensures w.calls[id].intentId in w.port.slots
    ensures Inv(cfg, At(w.(port := w.port.(slots := w.port.slots - {w.calls[id].intentId})), id, Unwinding(false)))
    ensures Conserved(cfg, w) ==> Conserved(cfg, At(w.(port := w.port.(slots := w.port.slots - {w.calls[id].intentId})), id, Unwinding(false)))
  {
    hide Runs.Inv, FileFits, CallsOk, JobsOk;
    var call := w.calls[id].(stage := Unwinding(false));
    StageStands(cfg, w.ledger, w.calls, id, Unwinding(false));
    SlotGiven(cfg, w.ledger, w.port.slots, w.calls, id, call);
    JobsUntouched(w.ledger, w.port.jobs, w.calls, id, call);
    HoldersAfter(w.calls, id, call);
    assert id !in Holders(w.calls);
  }

  /** The permit of the consumed slot now belongs to the published job. */
  lemma JobPublished(cfg: Config, w: World, id: nat, stage: Stage)
    requires Inv(cfg, w) && In(w, id, Unwinding(false)) && stage in {Finishing, Unwinding(true), Recalling}
    requires w.calls[id].executionId !in w.port.jobs && LeftAdmitted(w.ledger, w.calls[id].executionId)
    ensures Inv(cfg, At(w.(port := Publish(w.port, w.calls[id].executionId, id)), id, stage))
    ensures Conserved(cfg, w) ==> Conserved(cfg, At(w.(port := Publish(w.port, w.calls[id].executionId, id)), id, stage))
  {
    hide Runs.Inv, FileFits, CallsOk, SlotsOk, JobsOk, LeftAdmitted;
    var call := w.calls[id].(stage := stage);
    StageStands(cfg, w.ledger, w.calls, id, stage);
    SlotsUntouched(w.port.slots, w.calls, id, call);
    JobAdded(w.ledger, w.port.jobs, w.calls, id, call);
    HoldersAfter(w.calls, id, call);
    assert id in Holders(w.calls);
  }

  lemma AdmittedHasNoJob(w: World, e: string)
    requires JobsOk(w.ledger, w.port.jobs, w.calls) && !LeftAdmitted(w.ledger, e)
    ensures e !in w.port.jobs
  {
    hide LeftAdmitted, JobOf;
  }

  lemma DispatchKeepsInv(cfg: Config, w: World, id: nat, submission: Submission, now: string, write: Write)
    requires Inv(cfg, w)
    ensures Inv(cfg, OnDispatch(cfg, w, id, submission, now, write))
    ensures Conserved(cfg, w) ==> Conserved(cfg, OnDispatch(cfg, w, id, submission, now, write))
  {
    hide Runs.Inv, FileFits, CallsOk, SlotsOk, JobsOk, Transition, LeftAdmitted, NonterminalIds, PermitCount;
    if In(w, id, Committed) {
      var c := w.calls[id];
      PermitHeld(cfg, w, id);
      TransitionEffect(cfg.checks, w.ledger, c.executionId, {Admitted}, ToQueued(now), write);
      var moved := Transition(cfg.checks, w.ledger, c.executionId, {Admitted}, ToQueued(now), write);
      var held := At(w.(port := w.port.(slots := w.port.slots - {c.intentId})), id, Unwinding(false));
      MoveKeepsInv(cfg, held, c.executionId, {Admitted}, ToQueued(now), write);
      if moved.reply.Ok? && moved.reply.value.Some? {
        AdmittedHasNoJob(w, c.executionId);
        var stage := AfterSubmission(submission);
        JobPublished(cfg, held.(ledger := moved.ledger), id, stage);
        var after := OnDispatch(cfg, w, id, submission, now, write);
        assert after.calls == held.calls[id := c.(stage := stage)];
      }
    }
  }

  lemma CommitStands(cfg: Config, w: World, l: Ledger, id: nat, a: Admission)
    requires CallsOk(cfg, w.ledger, w.calls) && In(w, id, Slotted) && w.calls[id].intentId !in w.ledger.index.byIntent
    requires a.executionId !in w.ledger.index.byExecution
    requires var c := w.calls[id]; l.index == Indexed(w.ledger.index, NewRecord(c.intentId, c.digest, c.subjectId, a))
    requires l.reservations == WithoutReservation(w.ledger.reservations, w.calls[id].intentId)
    ensures CallsOk(cfg, l, w.calls[id := w.calls[id].(executionId := a.executionId, stage := Committed)])
  {
    hide Standing, NonterminalIds, WithoutReservation, Indexed;
    var gone := w.calls[id];
    var call := gone.(executionId := a.executionId, stage := Committed);
    NewRecordEffect(w.ledger.index, NewRecord(gone.intentId, gone.digest, gone.subjectId, a));
    forall c | c in w.calls && c != id ensures Standing(cfg, l, w.calls[c]) && Apart(w.calls[c], call) {
      assert Apart(w.calls[c], gone);
      StandingAfterCommit(cfg, w.ledger, l, gone, w.calls[c]);
    }
    NewcomerFits(cfg, w.ledger, l, gone, call);
    CallReplaced(cfg, w.ledger, w.calls, l, id, call);
  }

  lemma CallStands(cfg: Config, w: World, id: nat)
    requires CallsOk(cfg, w.ledger, w.calls) && id in w.calls
    ensures Standing(cfg, w.ledger, w.calls[id])
  {
  }

  lemma CommitFile(cfg: Config, l: Ledger, after: Ledger, c: Call, a: Admission)
    requires FileFits(cfg, l) && Standing(cfg, l, c) && c.stage == Slotted
    requires after.log != l.log ==>
               && c.intentId !in l.index.byIntent && a.executionId !in l.index.byExecution
               && Load(cfg.checks, after.log) == Ok(Indexed(l.index, NewRecord(c.intentId, c.digest, c.subjectId, a)))
    ensures FileFits(cfg, after)
  {
    hide Load, NonterminalIds, Position, Indexed;
    if after.log != l.log { NewRecordEffect(l.index, NewRecord(c.intentId, c.digest, c.subjectId, a)); }
  }

  lemma NewcomerFits(cfg: Config, l: Ledger, after: Ledger, gone: Call, call: Call)
    requires Standing(cfg, l, gone) && gone.stage == Slotted && call.stage == Committed && call.intentId == gone.intentId
    requires after.index.byIntent.Keys == l.index.byIntent.Keys + {gone.intentId}
    requires NonterminalIds(after.index) == NonterminalIds(l.index) + {gone.intentId}
    ensures |NonterminalIds(after.index)| <= cfg.maxConcurrency && Standing(cfg, after, call)
  {
    hide NonterminalIds, Position;
  }

  lemma CommitKeepsInv(cfg: Config, w: World, id: nat, a: Admission, write: Write)
    requires Inv(cfg, w) && FreshAction(w, CommitCall(id, a, write))
    ensures Inv(cfg, OnCommit(cfg, w, id, a, write))
    ensures Conserved(cfg, w) ==> Conserved(cfg, OnCommit(cfg, w, id, a, write))
  {
    hide Runs.Inv, FileFits, CallsOk, SlotsOk, JobsOk, Commit, LeftAdmitted, Holders, Indexed, WithoutReservation, Standing, Load;
    if In(w, id, Slotted) {
      var c := w.calls[id];
      var after := OnCommit(cfg, w, id, a, write);
      CommitEffect(cfg.checks, w.ledger, c, a, write);
      CallStands(cfg, w, id);
      CommitFile(cfg, w.ledger, after.ledger, c, a);
      var call := after.calls[id];
      SlotsUntouched(w.port.slots, w.calls, id, call);
      JobsUntouched(w.ledger, w.port.jobs, w.calls, id, call);
      HoldersKept(w.calls, id, call);
      if Commit(cfg.checks, w.ledger, c.intentId, c.digest, c.subjectId, a, write).reply.Ok? {
        CommitStands(cfg, w, after.ledger, id, a);
        forall y | LeftAdmitted(w.ledger, y) ensures LeftAdmitted(after.ledger, y) {
          LeftAdmittedStays(w.ledger, after.ledger, NewRecord(c.intentId, c.digest, c.subjectId, a), y);
        }
      } else {
        StageStands(cfg, w.ledger, w.calls, id, Aborting(true));
        SameIndex(w.ledger, after.ledger);
        SameLedgerSide(cfg, w.ledger, after.ledger, after.calls);
      }
      LedgerMovesUnderJobs(w.ledger, after.ledger, w.port.jobs, after.calls);
    }
  }

  lemma SameLedgerSide(cfg: Config, a: Ledger, b: Ledger, calls: map<nat, Call>)
    requires CallsOk(cfg, a, calls) && a.index == b.index && a.reservations == b.reservations
    ensures CallsOk(cfg, b, calls)
  {
    hide NonterminalIds, Position;
  }

  lemma StopKeepsInv(cfg: Config, w: World)
    requires Inv(cfg, w)
    ensures Inv(cfg, w.(port := w.port.(accepting := false)))
    ensures Conserved(cfg, w) ==> Conserved(cfg, w.(port := w.port.(accepting := false)))
  {
    hide Runs.Inv, FileFits, CallsOk, SlotsOk, JobsOk, Holders;
  }

  /** A restart begins again with whatever the file holds. */
  lemma RestartKeepsInv(cfg: Config, w: World)
    requires Inv(cfg, w)
    ensures Inv(cfg, OnRestart(cfg, w))
    ensures Conserved(cfg, w) ==> Conserved(cfg, OnRestart(cfg, w))
    ensures Open(cfg.checks, w.ledger).Ok? ==> Fresh(cfg, OnRestart(cfg, w))
  {
    hide Runs.Inv, Load, CallsOk, SlotsOk, JobsOk, NonterminalIds, Holders;
    if Open(cfg.checks, w.ledger).Ok? {
      Runs.ActKeepsInv(cfg.checks, w.ledger, Runs.Restart);
      var l := Open(cfg.checks, w.ledger).value;
      NoCalls(cfg, l, OnRestart(cfg, w));
    }
  }

  lemma NoCalls(cfg: Config, l: Ledger, w: World)
    requires w.calls == map[] && w.port == EmptyPort(cfg) && |NonterminalIds(l.index)| <= cfg.maxConcurrency
    ensures CallsOk(cfg, l, w.calls) && SlotsOk(w.port.slots, w.calls) && JobsOk(l, w.port.jobs, w.calls) && Conserved(cfg, w)
  {
    hide NonterminalIds, Standing;
    assert Holders(w.calls) == {};
  }

  lemma ActKeepsInv(cfg: Config, w: World, action: Action)
    requires Inv(cfg, w) && FreshAction(w, action)
    ensures Inv(cfg, Act(cfg, w, action))
    ensures Conserved(cfg, w) ==> (Conserved(cfg, Act(cfg, w, action)) <==> !DoubleFree(w, action))
  {
    hide Inv;
    match action
    case Arrive(id, i, d, s) => ArriveKeepsInv(cfg, w, id, i, d, s);
    case CheckQuota(id, grantable) => QuotaKeepsInv(cfg, w, id, grantable);
    case TakeSlot(id) => TakeSlotKeepsInv(cfg, w, id);
    case CommitCall(id, a, write) => CommitKeepsInv(cfg, w, id, a, write);
    case Interrupt(id) => InterruptKeepsInv(cfg, w, id);
    case DropSlot(id) => DropSlotKeepsInv(cfg, w, id);
    case DropReservation(id) => DropReservationKeepsInv(cfg, w, id);
    case DispatchCall(id, submission, now, write) => DispatchKeepsInv(cfg, w, id, submission, now, write);
    case UnwindCall(id) => UnwindKeepsInv(cfg, w, id);
    case FinishCall(id) => FinishKeepsInv(cfg, w, id);
    case JobReturns(e) => JobReturnsKeepsInv(cfg, w, e);
    case Move(e, x, u, write) => MoveKeepsInv(cfg, w, e, x, u, write);
    case StopAccepting => StopKeepsInv(cfg, w);
    case Restart => RestartKeepsInv(cfg, w);
  }

  lemma {:induction false} RunKeepsInv(cfg: Config, w: World, actions: seq<Action>)
    requires Inv(cfg, w) && FreshRun(cfg, w, actions)
    ensures Inv(cfg, Run(cfg, w, actions))
    decreases |actions|
  {
    hide Inv, Act;
    if actions != [] {
      ActKeepsInv(cfg, w, actions[0]);
      RunKeepsInv(cfg, Act(cfg, w, actions[0]), actions[1..]);
    }
  }

  lemma FreshInv(cfg: Config, w: World)
    requires Fresh(cfg, w)
    ensures Inv(cfg, w) && Conserved(cfg, w)
  {
    hide Runs.Inv, NonterminalIds, CallsOk, SlotsOk, JobsOk, Load;
    LogLoads(cfg.checks, w.ledger);
    NoCalls(cfg, w.ledger, w);
  }

  // ----- the claims --------------------------------------------------------

  function PassedCalls(calls: map<nat, Call>): set<nat> { set c | c in calls && HasPassed(calls[c].stage) }

  lemma {:induction false} BoundedNumbers(s: set<nat>, n: nat)
    requires forall x :: x in s ==> x < n
    ensures |s| <= n
  {
    if n > 0 {
      var rest := s - {n - 1};
      BoundedNumbers(rest, n - 1);
      SubsetSize(s, rest + {n - 1});
    } else {
      assert s == {};
    }
  }

  /** The place of a call's reservation in the queue. */
  function Place(w: World, c: nat): nat {
    if c in w.calls then Position(w.ledger.reservations, w.calls[c].intentId) else 0
  }

  function Places(w: World, s: set<nat>): set<nat> { set c | c in s :: Place(w, c) }

  lemma PlacesDiffer(cfg: Config, w: World, c: nat, d: nat)
    requires CallsOk(cfg, w.ledger, w.calls) && c in PassedCalls(w.calls) && d in PassedCalls(w.calls)
    requires Place(w, c) == Place(w, d)
    ensures c == d
  {
    hide NonterminalIds, Position;
    assert Standing(cfg, w.ledger, w.calls[c]) && Standing(cfg, w.ledger, w.calls[d]);
    assert c != d ==> Apart(w.calls[c], w.calls[d]);
  }

  lemma {:induction false} DistinctPlaces(cfg: Config, w: World, s: set<nat>)
    requires CallsOk(cfg, w.ledger, w.calls) && s <= PassedCalls(w.calls)
    ensures |Places(w, s)| == |s|
  {
    hide CallsOk, Place, PassedCalls;
    if s != {} {
      var c :| c in s;
      var rest := s - {c};
      DistinctPlaces(cfg, w, rest);
      assert Places(w, s) == Places(w, rest) + {Place(w, c)};
      forall d | d in rest ensures Place(w, d) != Place(w, c) {
        if Place(w, d) == Place(w, c) { PlacesDiffer(cfg, w, c, d); }
      }
    }
  }

  lemma PlaceFits(cfg: Config, w: World, c: nat)
    requires CallsOk(cfg, w.ledger, w.calls) && c in PassedCalls(w.calls)
    ensures |NonterminalIds(w.ledger.index)| + Place(w, c) < cfg.maxConcurrency
  {
    hide NonterminalIds, Position, IsReserved;
    assert Standing(cfg, w.ledger, w.calls[c]);
  }

  lemma PassedFit(cfg: Config, w: World)
    requires CallsOk(cfg, w.ledger, w.calls)
    ensures |NonterminalIds(w.ledger.index)| + |PassedCalls(w.calls)| <= cfg.maxConcurrency
  {
    hide NonterminalIds, Place, PassedCalls, Standing, Apart;
    var passed := PassedCalls(w.calls);
    DistinctPlaces(cfg, w, passed);
    forall c | c in passed ensures |NonterminalIds(w.ledger.index)| + Place(w, c) < cfg.maxConcurrency {
      PlaceFits(cfg, w, c);
    }
    BoundedNumbers(Places(w, passed), cfg.maxConcurrency - |NonterminalIds(w.ledger.index)|);
  }

  /** Under every interleaving, active executions plus the calls that passed the quota check and
      may still commit never exceed the concurrency limit. */
  lemma ConcurrencyIsBounded(cfg: Config, start: World, actions: seq<Action>)
    requires Fresh(cfg, start) && FreshRun(cfg, start, actions)
    ensures var w := Run(cfg, start, actions);
            |NonterminalIds(w.ledger.index)| + |PassedCalls(w.calls)| <= cfg.maxConcurrency
  {
    hide Fresh, FreshRun, Run, Runs.Inv, FileFits, CallsOk, SlotsOk, JobsOk, NonterminalIds, PassedCalls;
    FreshInv(cfg, start);
    RunKeepsInv(cfg, start, actions);
    PassedFit(cfg, Run(cfg, start, actions));
  }

  /** Free, reserved, published and held permits add up to the capacity before and after every step. */
  ghost predicate ConservedThroughout(cfg: Config, w: World, actions: seq<Action>)
    decreases |actions|
  {
    Conserved(cfg, w) && (actions == [] || ConservedThroughout(cfg, Act(cfg, w, actions[0]), actions[1..]))
  }

  /** Some interrupted dispatch of the run unwinds after its job has returned. */
  predicate FreesTwice(cfg: Config, w: World, actions: seq<Action>)
    decreases |actions|
  {
    actions != [] && (DoubleFree(w, actions[0]) || FreesTwice(cfg, Act(cfg, w, actions[0]), actions[1..]))
  }

  lemma {:induction false} ConservedIff(cfg: Config, w: World, actions: seq<Action>)
    requires Inv(cfg, w) && Conserved(cfg, w) && FreshRun(cfg, w, actions)
    ensures ConservedThroughout(cfg, w, actions) <==> !FreesTwice(cfg, w, actions)
    ensures ConservedThroughout(cfg, w, actions) ==> Conserved(cfg, Run(cfg, w, actions))
    decreases |actions|
  {
    hide Inv, Act, DoubleFree, Conserved, FreshAction;
    if actions != [] {
      ActKeepsInv(cfg, w, actions[0]);
      if !DoubleFree(w, actions[0]) {
        ConservedIff(cfg, Act(cfg, w, actions[0]), actions[1..]);
      } else {
        NotThroughout(cfg, Act(cfg, w, actions[0]), actions[1..]);
      }
    }
  }

  lemma NotThroughout(cfg: Config, w: World, actions: seq<Action>)
    requires !Conserved(cfg, w)
    ensures !ConservedThroughout(cfg, w, actions)
  {
    hide Conserved;
  }

  /** Worker permits are conserved throughout a run if and only if no dispatch that was interrupted
      after handing its job over unwinds when that job has already returned its permit; then they add
      up at the end as well. */
  lemma PermitsAreConserved(cfg: Config, start: World, actions: seq<Action>)
    requires Fresh(cfg, start) && FreshRun(cfg, start, actions)
    ensures ConservedThroughout(cfg, start, actions) <==> !FreesTwice(cfg, start, actions)
    ensures var w := Run(cfg, start, actions);
            !FreesTwice(cfg, start, actions) ==>
              w.port.free + |w.port.slots| + |w.port.jobs| + |Holders(w.calls)| == cfg.capacity
  {
    hide Fresh, FreshRun, Run, Inv, Holders, FreesTwice, ConservedThroughout;
    FreshInv(cfg, start);
    ConservedIff(cfg, start, actions);
  }

  /** Whatever a run did, a restart that can open the file begins within the concurrency limit again. */
  lemma RestartIsFresh(cfg: Config, start: World, actions: seq<Action>)
    requires Fresh(cfg, start) && FreshRun(cfg, start, actions)
    requires Open(cfg.checks, Run(cfg, start, actions).ledger).Ok?
    ensures Fresh(cfg, OnRestart(cfg, Run(cfg, start, actions)))
  {
    hide Fresh, FreshRun, Run, Inv, Open, OnRestart;
    FreshInv(cfg, start);
    RunKeepsInv(cfg, start, actions);
    RestartKeepsInv(cfg, Run(cfg, start, actions));
  }

  /** The final release of a gate call is a no-op unless the call itself owns the slot: it never
      frees a slot that another call reserved. */
  lemma ReleaseFreesOwnSlot(cfg: Config, start: World, actions: seq<Action>, id: nat, other: nat)
    requires Fresh(cfg, start) && FreshRun(cfg, start, actions)
    requires var w := Run(cfg, start, actions);
             && id in w.calls && (w.calls[id].stage in {Finishing, FinishingOwned, Aborting(true)})
             && other in w.calls && OwnsSlot(w.calls[other].stage) && other != id
    ensures var w := Run(cfg, start, actions);
            && w.calls[other].intentId in w.port.slots
            && w.calls[other].intentId in ReleaseCapacity(w.port, w.calls[id].intentId).slots
            && (w.calls[id].stage == Finishing ==> ReleaseCapacity(w.port, w.calls[id].intentId) == w.port)
  {
    hide Fresh, FreshRun, Run, Runs.Inv, FileFits, Standing, NonterminalIds, JobsOk;
    FreshInv(cfg, start);
    RunKeepsInv(cfg, start, actions);
    var w := Run(cfg, start, actions);
    assert Apart(w.calls[id], w.calls[other]);
    if In(w, id, Finishing) { FinishedOwnsNothing(cfg, w, id); }
  }

  /** At most one live call per intent, whatever fails in between. */
  lemma OneHolderPerIntent(cfg: Config, start: World, actions: seq<Action>, a: nat, b: nat)
    requires Fresh(cfg, start) && FreshRun(cfg, start, actions)
    requires var calls := Run(cfg, start, actions).calls;
             && a in calls && b in calls && calls[a].stage != Done && calls[b].stage != Done
             && calls[a].intentId == calls[b].intentId
    ensures a == b
  {
    hide Fresh, FreshRun, Run, Runs.Inv, FileFits, Standing, NonterminalIds, SlotsOk, JobsOk;
    FreshInv(cfg, start);
    RunKeepsInv(cfg, start, actions);
    var calls := Run(cfg, start, actions).calls;
    assert !Apart(calls[a], calls[b]);
  }

  /** A committed call can always dispatch: its slot is still reserved, also after the queue stopped
      accepting, and taking it leaves every other reservation alone. A call that passed the quota
      check never finds its intent already reserved. */
  lemma CommittedKeepsItsSlot(cfg: Config, start: World, actions: seq<Action>, id: nat)
    requires Fresh(cfg, start) && FreshRun(cfg, start, actions)
    ensures var w := Run(cfg, start, actions);
            && (In(w, id, Committed) ==>
                  TakePermit(w.port, w.calls[id].intentId) == Ok(w.port.(slots := w.port.slots - {w.calls[id].intentId}))
                  && w.calls[id].intentId in w.port.slots)
            && (In(w, id, Passed) ==> ReserveCapacity(w.port, w.calls[id].intentId) != Err(AlreadyReserved))
  {
    hide Fresh, FreshRun, Run, Runs.Inv, FileFits, Standing, NonterminalIds, JobsOk;
    FreshInv(cfg, start);
    RunKeepsInv(cfg, start, actions);
    var w := Run(cfg, start, actions);
    if In(w, id, Passed) { UnslottedIsUnreserved(cfg, w, id); }
  }

  lemma UnslottedIsUnreserved(cfg: Config, w: World, id: nat)
    requires Inv(cfg, w) && In(w, id, Passed)
    ensures w.calls[id].intentId !in w.port.slots
  {
    hide Runs.Inv, Standing, NonterminalIds, JobsOk;
  }
}
