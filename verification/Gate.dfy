/** The admission gate as a concurrent protocol: any number of gate calls, workers and
    cancellations interleave, one locked block at a time, over the ledger and the worker queue. */
module Gate {
  import opened Base
  import opened Ledger
  import opened Dispatch
  import Runs = LedgerRuns

  /** Where a gate call stands. `Aborting(true)` still has to give its capacity slot back;
      `Unwinding` is the exception path inside `dispatch`, with or without a published job;
      `Recalling` is that path after the job was handed to the executor, where its future may still
      return; `FinishingOwned` failed before `dispatch` took the slot over. */
  datatype Stage =
    | Holding | Passed | Slotted | Committed
    | Aborting(slotted: bool) | Unwinding(published: bool) | Recalling | FinishingOwned | Finishing | Done

  datatype Call = Call(intentId: string, digest: string, subjectId: string, executionId: string, stage: Stage)

  datatype World = World(ledger: Ledger, port: Port, calls: map<nat, Call>)

  datatype Config = Config(checks: Checks, maxConcurrency: nat, capacity: nat)

  /** What came of handing a published job to the executor: accepted, refused, or accepted with an
      exception raised before the locked block ended. */
  datatype Submission = Accepted | Refused | Interrupted

  datatype Action =
    | Arrive(id: nat, intentId: string, digest: string, subjectId: string)
    | CheckQuota(id: nat, grantable: bool)
    | TakeSlot(id: nat)
    | CommitCall(id: nat, admission: Admission, write: Write)
    | Interrupt(id: nat)
    | DropSlot(id: nat)
    | DropReservation(id: nat)
    | DispatchCall(id: nat, submission: Submission, now: string, write: Write)
    | UnwindCall(id: nat)
    | FinishCall(id: nat)
    | JobReturns(executionId: string)
    | Move(executionId: string, expected: set<Status>, update: Update, write: Write)
    | StopAccepting
    | Restart

  function At(w: World, id: nat, stage: Stage): World
    requires id in w.calls
  {
    w.(calls := w.calls[id := w.calls[id].(stage := stage)])
  }

  predicate In(w: World, id: nat, stage: Stage) { id in w.calls && w.calls[id].stage == stage }

  /** Step 5: only the answer RESERVED starts a call. */
  function OnArrive(w: World, id: nat, intentId: string, digest: string, subjectId: string): World {
    match Acquire(w.ledger, intentId, digest, subjectId)
    case Ok((Reserved, l)) =>
      if id in w.calls then w
      else w.(ledger := l, calls := w.calls[id := Call(intentId, digest, subjectId, "", Holding)])
    case _ => w
  }

  /** Step 6: the active count is taken under the lock and compared afterwards; `grantable` is the
      outcome of the memory and timeout checks. */
  function OnQuota(cfg: Config, w: World, id: nat, grantable: bool): World {
    if !In(w, id, Holding) then w
    else
      match ActiveCount(w.ledger, w.calls[id].intentId)
      case Ok(n) => if n < cfg.maxConcurrency && grantable then At(w, id, Passed) else At(w, id, Aborting(false))
      case Err(_) => At(w, id, Aborting(false))
  }

  function OnTakeSlot(w: World, id: nat): World {
    if !In(w, id, Passed) then w
    else
      match ReserveCapacity(w.port, w.calls[id].intentId)
      case Ok(p) => At(w.(port := p), id, Slotted)
      case Err(_) => At(w, id, Aborting(false))
  }

  /** Step 10: durable commit, then the reservation is gone. */
  function OnCommit(cfg: Config, w: World, id: nat, a: Admission, write: Write): World {
    if !In(w, id, Slotted) then w
    else
      var c := w.calls[id];
      var done := Commit(cfg.checks, w.ledger, c.intentId, c.digest, c.subjectId, a, write);
      var w' := w.(ledger := done.ledger);
      if done.reply.Ok? then w'.(calls := w.calls[id := c.(executionId := a.executionId, stage := Committed)])
      else At(w', id, Aborting(true))
  }

  function OnInterrupt(w: World, id: nat): World {
    if In(w, id, Holding) || In(w, id, Passed) then At(w, id, Aborting(false))
    else if In(w, id, Slotted) then At(w, id, Aborting(true))
    else if In(w, id, Committed) then At(w, id, FinishingOwned)
    else w
  }

  /** A release that raises leaves the reservation behind. */
  function OnDropSlot(w: World, id: nat): World {
    if !In(w, id, Aborting(true)) then w
    else
      At(w.(port := ReleaseCapacity(w.port, w.calls[id].intentId)), id,
         if w.calls[id].intentId in w.port.slots && Overflows(w.port) then Done else Aborting(false))
  }

  function OnDropReservation(w: World, id: nat): World {
    if !In(w, id, Aborting(false)) then w
    else At(w.(ledger := Release(w.ledger, w.calls[id].intentId)), id, Done)
  }

  function ToQueued(now: string): Update { Update(Queued, None, None, None, now) }

  /** Step 11, first locked block of `dispatch`. */
  function OnDispatch(cfg: Config, w: World, id: nat, submission: Submission, now: string, write: Write): World {
    if !In(w, id, Committed) then w
    else
      var c := w.calls[id];
      match TakePermit(w.port, c.intentId)
      case Err(_) => At(w, id, Finishing)
      case Ok(p) =>
        var moved := Transition(cfg.checks, w.ledger, c.executionId, {Admitted}, ToQueued(now), write);
        var w' := w.(ledger := moved.ledger, port := p);
        if moved.reply.Ok? && moved.reply.value.Some? then
          At(w'.(port := Publish(p, c.executionId, id)), id, AfterSubmission(submission))
        else At(w', id, Unwinding(false))
  }

  function AfterSubmission(submission: Submission): Stage {
    match submission case Accepted => Finishing case Refused => Unwinding(true) case Interrupted => Recalling
  }

  function OnUnwind(w: World, id: nat): World {
    if id in w.calls && (w.calls[id].stage.Unwinding? || w.calls[id].stage == Recalling)
    then At(w.(port := Unwind(w.port, w.calls[id].executionId, id)), id, Finishing)
    else w
  }

  /** The gate's `finally`. */
  function OnFinish(w: World, id: nat): World {
    if In(w, id, Finishing) || In(w, id, FinishingOwned)
    then At(w.(port := ReleaseCapacity(w.port, w.calls[id].intentId)), id, Done)
    else w
  }

  /** The done-callback of a submitted future; a job the executor refused has none. */
  function OnJobReturns(w: World, executionId: string): World {
    if executionId in w.port.jobs && !In(w, w.port.jobs[executionId], Unwinding(true))
    then w.(port := FinishJob(w.port, executionId, w.port.jobs[executionId]))
    else w
  }

  /** The process ends and a new one opens the ledger; calls and jobs are gone. */
  function OnRestart(cfg: Config, w: World): World {
    match Open(cfg.checks, w.ledger)
    case Ok(l) => World(l, EmptyPort(cfg), map[])
    case Err(_) => w
  }

  function EmptyPort(cfg: Config): Port { Port(cfg.capacity, cfg.capacity, {}, map[], true) }

  function Act(cfg: Config, w: World, action: Action): World {
    match action
    case Arrive(id, i, d, s) => OnArrive(w, id, i, d, s)
    case CheckQuota(id, grantable) => OnQuota(cfg, w, id, grantable)
    case TakeSlot(id) => OnTakeSlot(w, id)
    case CommitCall(id, a, write) => OnCommit(cfg, w, id, a, write)
    case Interrupt(id) => OnInterrupt(w, id)
    case DropSlot(id) => OnDropSlot(w, id)
    case DropReservation(id) => OnDropReservation(w, id)
    case DispatchCall(id, submission, now, write) => OnDispatch(cfg, w, id, submission, now, write)
    case UnwindCall(id) => OnUnwind(w, id)
    case FinishCall(id) => OnFinish(w, id)
    case JobReturns(e) => OnJobReturns(w, e)
    case Move(e, x, u, write) => w.(ledger := Transition(cfg.checks, w.ledger, e, x, u, write).ledger)
    case StopAccepting => w.(port := w.port.(accepting := false))
    case Restart => OnRestart(cfg, w)
  }

  /** Execution identifiers are minted fresh. */
  predicate FreshAction(w: World, action: Action) {
    action.CommitCall? ==> forall i :: 0 <= i < |w.ledger.log| ==> w.ledger.log[i].executionId != action.admission.executionId
  }

  function Run(cfg: Config, w: World, actions: seq<Action>): World
    decreases |actions|
  {
    if actions == [] then w else Run(cfg, Act(cfg, w, actions[0]), actions[1..])
  }

  predicate FreshRun(cfg: Config, w: World, actions: seq<Action>)
    decreases |actions|
  {
    actions == [] || (FreshAction(w, actions[0]) && FreshRun(cfg, Act(cfg, w, actions[0]), actions[1..]))
  }

  /** A controller that has just opened a ledger within its concurrency limit. */
  ghost predicate Fresh(cfg: Config, w: World) {
    && Runs.Inv(cfg.checks, w.ledger) && w.ledger.reservations == []
    && !w.ledger.poisoned && |NonterminalIds(w.ledger.index)| <= cfg.maxConcurrency
    && w.port == EmptyPort(cfg) && w.calls == map[]
  }
}
