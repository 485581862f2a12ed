/** The bounded worker queue: semaphore permits, capacity reservations and published jobs. */
module Dispatch {
  import opened Base

  datatype PortError = QueueClosed | AlreadyReserved | CapacityExhausted

  /** A bounded semaphore of `limit` permits, `free` of them available; reserved intents, published
      jobs by execution (the value identifies the job object) and whether new work is accepted. */
  datatype Port = Port(limit: nat, free: nat, slots: set<string>, jobs: map<string, nat>, accepting: bool)

  /** Releasing a permit of a semaphore that has them all raises and changes nothing. */
  predicate Overflows(p: Port) { p.free >= p.limit }

  function Returned(p: Port): Port { if Overflows(p) then p else p.(free := p.free + 1) }

  function ReserveCapacity(p: Port, intentId: string): Result<Port, PortError> {
    var _ :- Require(p.accepting, QueueClosed);
    var _ :- Require(intentId !in p.slots, AlreadyReserved);
    var _ :- Require(p.free > 0, CapacityExhausted);
    Ok(p.(free := p.free - 1, slots := p.slots + {intentId}))
  }

  function ReleaseCapacity(p: Port, intentId: string): Port {
    if intentId in p.slots then Returned(p.(slots := p.slots - {intentId})) else p
  }

  /** The start of `dispatch`: consume the reservation, or take a permit if there is none. */
  function TakePermit(p: Port, intentId: string): Result<Port, PortError> {
    if intentId in p.slots then Ok(p.(slots := p.slots - {intentId}))
    else
      var _ :- Require(p.accepting, QueueClosed);
      var _ :- Require(p.free > 0, CapacityExhausted);
      Ok(p.(free := p.free - 1))
  }

  function Publish(p: Port, executionId: string, job: nat): Port {
    p.(jobs := p.jobs[executionId := job])
  }

  /** The exception path of `dispatch`: withdraw this job if it was published, give the permit back. */
  function Unwind(p: Port, executionId: string, job: nat): Port {
    Returned(p.(jobs := if executionId in p.jobs && p.jobs[executionId] == job then p.jobs - {executionId} else p.jobs))
  }

  /** `_finish_job`: only the job that is still published returns its permit. */
  function FinishJob(p: Port, executionId: string, job: nat): Port {
    if executionId in p.jobs && p.jobs[executionId] == job
    then Returned(p.(jobs := p.jobs - {executionId})) else p
  }

  class WorkerPort {
    const limit: nat
    var free: nat
    var slots: set<string>
    var jobs: map<string, nat>
    var accepting: bool

    ghost function View(): Port
      reads this
    {
      Port(limit, free, slots, jobs, accepting)
    }

    constructor (maxWorkers: nat, maxQueue: nat)
      requires maxWorkers >= 1
      ensures View() == Port(maxWorkers + maxQueue, maxWorkers + maxQueue, {}, map[], true)
    {
      limit := maxWorkers + maxQueue;
      free, slots, jobs, accepting := maxWorkers + maxQueue, {}, map[], true;
    }

    method Reserve(intentId: string) returns (r: Result<(), PortError>)
      modifies this
      ensures match ReserveCapacity(old(View()), intentId)
              case Ok(p) => r == Ok(()) && View() == p
              case Err(e) => r == Err(e) && View() == old(View())
    {
      if !accepting { return Err(QueueClosed); }
      if intentId in slots { return Err(AlreadyReserved); }
      if free == 0 { return Err(CapacityExhausted); }
      free := free - 1;
      slots := slots + {intentId};
      r := Ok(());
    }

    /** `BoundedSemaphore.release`; the result says whether it raised. */
    method ReturnPermit() returns (raised: bool)
      modifies this`free
      ensures View() == Returned(old(View())) && (raised <==> Overflows(old(View())))
    {
      raised := free >= limit;
      if !raised { free := free + 1; }
    }

    method ReleaseReservation(intentId: string) returns (raised: bool)
      modifies this
      ensures View() == ReleaseCapacity(old(View()), intentId)
      ensures raised <==> intentId in old(slots) && Overflows(old(View()))
    {
      if intentId !in slots { return false; }
      slots := slots - {intentId};
      raised := ReturnPermit();
    }

    /** The first locked block of `dispatch`. `queued` is the outcome of the durable
        ADMITTED -> QUEUED transition, `submitted` of handing the job to the executor; the
        result says whether the caller must unwind a permit. */
    method BeginDispatch(intentId: string, executionId: string, job: nat, queued: bool, submitted: bool)
      returns (r: Result<bool, PortError>)
      modifies this
      ensures match TakePermit(old(View()), intentId)
              case Err(e) => r == Err(e) && View() == old(View())
              case Ok(p) =>
                && r == Ok(!(queued && submitted))
                && View() == if queued then Publish(p, executionId, job) else p
    {
      if intentId in slots {
        slots := slots - {intentId};
      } else {
        if !accepting { return Err(QueueClosed); }
        if free == 0 { return Err(CapacityExhausted); }
        free := free - 1;
      }
      if queued { jobs := jobs[executionId := job]; }
      r := Ok(!(queued && submitted));
    }

    method UnwindDispatch(executionId: string, job: nat) returns (raised: bool)
      modifies this
      ensures View() == Unwind(old(View()), executionId, job) && (raised <==> Overflows(old(View())))
    {
      if executionId in jobs && jobs[executionId] == job { jobs := jobs - {executionId}; }
      raised := ReturnPermit();
    }

    method Finish(executionId: string, job: nat) returns (raised: bool)
      modifies this
      ensures View() == FinishJob(old(View()), executionId, job)
      ensures raised <==> executionId in old(jobs) && old(jobs)[executionId] == job && Overflows(old(View()))
    {
      raised := false;
      if executionId in jobs && jobs[executionId] == job {
        jobs := jobs - {executionId};
        raised := ReturnPermit();
      }
    }

    method Shutdown()
      modifies this`accepting
      ensures View() == old(View()).(accepting := false)
    {
      accepting := false;
    }
  }
}
