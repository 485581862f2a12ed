/** Single runs of the admission gate: one that goes through, and one that returns a permit twice. */
module GateScenarios {
  import opened Base
  import opened Ledger
  import opened Dispatch
  import opened Gate
  import opened GateRuns
  import Runs = LedgerRuns

  function Begin(cfg: Config): World { World(EmptyLedger, EmptyPort(cfg), map[]) }

  function Entering(c: Call): seq<Action> { [Arrive(0, c.intentId, c.digest, c.subjectId), CheckQuota(0, true), TakeSlot(0)] }

  function Leaving(a: Admission, now: string): seq<Action> {
    [CommitCall(0, a, Synced), DispatchCall(0, Accepted, now, Synced), FinishCall(0)]
  }

  lemma FirstStep(cfg: Config, w: World, action: Action, rest: seq<Action>)
    ensures Run(cfg, w, [action] + rest) == Run(cfg, Act(cfg, w, action), rest)
    ensures FreshRun(cfg, w, [action] + rest) <==> FreshAction(w, action) && FreshRun(cfg, Act(cfg, w, action), rest)
  {
    hide Act, FreshAction;
    assert ([action] + rest)[0] == action && ([action] + rest)[1..] == rest;
  }

  lemma ThreeSteps(cfg: Config, w: World, s: seq<Action>, rest: seq<Action>)
    requires |s| == 3
    ensures var w1, w2, w3 := Act(cfg, w, s[0]), Act(cfg, Act(cfg, w, s[0]), s[1]), Act(cfg, Act(cfg, Act(cfg, w, s[0]), s[1]), s[2]);
            && Run(cfg, w, s + rest) == Run(cfg, w3, rest)
            && (FreshRun(cfg, w, s + rest) <==>
                  FreshAction(w, s[0]) && FreshAction(w1, s[1]) && FreshAction(w2, s[2]) && FreshRun(cfg, w3, rest))
  {
    hide Act, FreshAction, Run, FreshRun;
    assert s + rest == [s[0]] + ([s[1]] + ([s[2]] + rest));
    FirstStep(cfg, w, s[0], [s[1]] + ([s[2]] + rest));
    FirstStep(cfg, Act(cfg, w, s[0]), s[1], [s[2]] + rest);
    FirstStep(cfg, Act(cfg, Act(cfg, w, s[0]), s[1]), s[2], rest);
  }

  function AfterSlot(cfg: Config, c: Call): World
    requires cfg.capacity > 0
  {
    World(EmptyLedger.(reservations := [Reservation(c.intentId, c.digest, c.subjectId)]),
          Port(cfg.capacity, cfg.capacity - 1, {c.intentId}, map[], true), map[0 := Call(c.intentId, c.digest, c.subjectId, "", Slotted)])
  }

  lemma NothingActive()
    ensures NonterminalIds(EmptyIndex) == {}
  {
  }

  lemma EnteringTakesSlot(cfg: Config, c: Call)
    requires cfg.maxConcurrency > 0 && cfg.capacity > 0
    ensures var s := Entering(c); Act(cfg, Act(cfg, Act(cfg, Begin(cfg), s[0]), s[1]), s[2]) == AfterSlot(cfg, c)
  {
    hide NonterminalIds;
    NothingActive();
    var s := Entering(c);
    var w1 := Act(cfg, Begin(cfg), s[0]);
    var call := Call(c.intentId, c.digest, c.subjectId, "", Holding);
    var r := Reservation(c.intentId, c.digest, c.subjectId);
    assert w1 == Begin(cfg).(ledger := EmptyLedger.(reservations := [r]), calls := map[0 := call]);
    var w2 := Act(cfg, w1, s[1]);
    assert Position([r], c.intentId) == 0;
    assert w2 == w1.(calls := map[0 := call.(stage := Passed)]);
  }

  function AfterCommitted(cfg: Config, c: Call, a: Admission): World
    requires cfg.capacity > 0
  {
    var r := NewRecord(c.intentId, c.digest, c.subjectId, a);
    World(Ledger(Index(map[c.intentId := r], map[c.digest := c.intentId], map[a.executionId := c.intentId]), [], false, [r], Terminated),
          Port(cfg.capacity, cfg.capacity - 1, {c.intentId}, map[], true), map[0 := Call(c.intentId, c.digest, c.subjectId, a.executionId, Committed)])
  }

  function AfterDispatch(cfg: Config, c: Call, a: Admission, now: string, stage: Stage): World
    requires cfg.capacity > 0
  {
    var w := AfterCommitted(cfg, c, a);
    var r := w.ledger.index.byIntent[c.intentId].(status := Queued, updatedAt := now);
    World(w.ledger.(index := w.ledger.index.(byIntent := map[c.intentId := r]), log := w.ledger.log + [r]),
          Port(cfg.capacity, cfg.capacity - 1, {}, map[a.executionId := 0], true), map[0 := w.calls[0].(stage := stage)])
  }

  lemma CommitGoesThrough(cfg: Config, c: Call, a: Admission)
    requires cfg.capacity > 0 && cfg.checks.schema(NewRecord(c.intentId, c.digest, c.subjectId, a))
    ensures Act(cfg, AfterSlot(cfg, c), CommitCall(0, a, Synced)) == AfterCommitted(cfg, c, a)
  {
    assert Position(AfterSlot(cfg, c).ledger.reservations, c.intentId) == 0;
  }

  lemma QueuedGoesThrough(cfg: Config, c: Call, a: Admission, now: string)
    requires cfg.capacity > 0 && cfg.checks.schema(NewRecord(c.intentId, c.digest, c.subjectId, a).(status := Queued, updatedAt := now))
    ensures var after := AfterDispatch(cfg, c, a, now, Finishing).ledger;
            Transition(cfg.checks, AfterCommitted(cfg, c, a).ledger, a.executionId, {Admitted}, ToQueued(now), Synced)
            == Changed(after, Ok(Some(after.index.byIntent[c.intentId])))
  {
  }

  lemma DispatchGoesThrough(cfg: Config, c: Call, a: Admission, now: string)
    requires cfg.capacity > 0 && cfg.checks.schema(NewRecord(c.intentId, c.digest, c.subjectId, a).(status := Queued, updatedAt := now))
    ensures Act(cfg, AfterCommitted(cfg, c, a), DispatchCall(0, Accepted, now, Synced)) == AfterDispatch(cfg, c, a, now, Finishing)
  {
    hide Transition;
    QueuedGoesThrough(cfg, c, a, now);
  }

  lemma FinishGoesThrough(cfg: Config, c: Call, a: Admission, now: string)
    requires cfg.capacity > 0
    ensures Act(cfg, AfterDispatch(cfg, c, a, now, Finishing), FinishCall(0)) == AfterDispatch(cfg, c, a, now, Done)
  {
  }

  /** Nothing but a full queue, a zero limit or an invalid record stands in the way: on an idle
      controller a call passes all its steps, its record is QUEUED, its permit is with its job. */
  lemma OneCallGoesThrough(cfg: Config, c: Call, a: Admission, now: string)
    requires cfg.maxConcurrency > 0 && cfg.capacity > 0
    requires var r := NewRecord(c.intentId, c.digest, c.subjectId, a);
             cfg.checks.schema(r) && cfg.checks.schema(r.(status := Queued, updatedAt := now))
    ensures Fresh(cfg, Begin(cfg)) && FreshRun(cfg, Begin(cfg), Entering(c) + Leaving(a, now))
    ensures Run(cfg, Begin(cfg), Entering(c) + Leaving(a, now)) == AfterDispatch(cfg, c, a, now, Done)
  {
    hide Runs.Inv, NonterminalIds, Act, Run, FreshRun, AfterCommitted, AfterDispatch;
    Runs.EmptyInv(cfg.checks);
    NothingActive();
    var enter, leave := Entering(c), Leaving(a, now);
    EnteringTakesSlot(cfg, c);
    CommitGoesThrough(cfg, c, a);
    DispatchGoesThrough(cfg, c, a, now);
    FinishGoesThrough(cfg, c, a, now);
    ThreeSteps(cfg, Begin(cfg), enter, leave);
    assert leave + [] == leave;
    ThreeSteps(cfg, AfterSlot(cfg, c), leave, []);
    NoSteps(cfg, AfterDispatch(cfg, c, a, now, Done));
  }

  lemma NoSteps(cfg: Config, w: World)
    ensures Run(cfg, w, []) == w && FreshRun(cfg, w, [])
  {
  }

  // ----- a permit returned twice ---------------------------------------------

  /** Call 0 commits and is interrupted after its job was handed over; call 1 takes a slot; the job
      returns before the interrupted dispatch unwinds. */
  function Handover(a: Admission, now: string): seq<Action> {
    [CommitCall(0, a, Synced), DispatchCall(0, Interrupted, now, Synced), JobReturns(a.executionId)]
  }

  function Second(d: Call): seq<Action> { [Arrive(1, d.intentId, d.digest, d.subjectId), CheckQuota(1, true), TakeSlot(1)] }

  function AfterReturn(cfg: Config, c: Call, a: Admission, now: string): World
    requires cfg.capacity > 0
  {
    AfterDispatch(cfg, c, a, now, Recalling).(port := EmptyPort(cfg))
  }

  lemma InterruptedGoesThrough(cfg: Config, c: Call, a: Admission, now: string)
    requires cfg.capacity > 0 && cfg.checks.schema(NewRecord(c.intentId, c.digest, c.subjectId, a).(status := Queued, updatedAt := now))
    ensures Act(cfg, AfterCommitted(cfg, c, a), DispatchCall(0, Interrupted, now, Synced)) == AfterDispatch(cfg, c, a, now, Recalling)
  {
    hide Transition;
    QueuedGoesThrough(cfg, c, a, now);
  }

  lemma JobGoesBack(cfg: Config, c: Call, a: Admission, now: string)
    requires cfg.capacity > 0
    ensures Act(cfg, AfterDispatch(cfg, c, a, now, Recalling), JobReturns(a.executionId)) == AfterReturn(cfg, c, a, now)
  {
    var w := AfterDispatch(cfg, c, a, now, Recalling);
    assert w.port.jobs - {a.executionId} == map[];
  }

  function AfterSecond(cfg: Config, c: Call, a: Admission, now: string, d: Call): World
    requires cfg.capacity > 1
  {
    var w := AfterReturn(cfg, c, a, now);
    World(w.ledger.(reservations := [Reservation(d.intentId, d.digest, d.subjectId)]),
          Port(cfg.capacity, cfg.capacity - 1, {d.intentId}, map[], true),
          w.calls[1 := Call(d.intentId, d.digest, d.subjectId, "", Slotted)])
  }

  lemma OneActive(cfg: Config, c: Call, a: Admission, now: string)
    requires cfg.capacity > 0
    ensures NonterminalIds(AfterReturn(cfg, c, a, now).ledger.index) == {c.intentId}
  {
  }

  /** Call 1 at a given stage beside the interrupted call 0. */
  function Beside(cfg: Config, c: Call, a: Admission, now: string, d: Call, stage: Stage): World
    requires cfg.capacity > 1
  {
    var w := AfterReturn(cfg, c, a, now);
    w.(ledger := w.ledger.(reservations := [Reservation(d.intentId, d.digest, d.subjectId)]),
       calls := w.calls[1 := Call(d.intentId, d.digest, d.subjectId, "", stage)])
  }

  lemma SecondArrives(cfg: Config, c: Call, a: Admission, now: string, d: Call)
    requires cfg.capacity > 1 && c.intentId != d.intentId && c.digest != d.digest
    ensures Act(cfg, AfterReturn(cfg, c, a, now), Second(d)[0]) == Beside(cfg, c, a, now, d, Holding)
  {
  }

  lemma SecondPasses(cfg: Config, c: Call, a: Admission, now: string, d: Call)
    requires cfg.maxConcurrency > 1 && cfg.capacity > 1
    ensures Act(cfg, Beside(cfg, c, a, now, d, Holding), Second(d)[1]) == Beside(cfg, c, a, now, d, Passed)
  {
    hide NonterminalIds;
    OneActive(cfg, c, a, now);
    assert Position([Reservation(d.intentId, d.digest, d.subjectId)], d.intentId) == 0;
    var calls := AfterReturn(cfg, c, a, now).calls;
    assert calls[1 := Call(d.intentId, d.digest, d.subjectId, "", Holding)][1 := Call(d.intentId, d.digest, d.subjectId, "", Passed)]
        == calls[1 := Call(d.intentId, d.digest, d.subjectId, "", Passed)];
  }

  lemma SecondReserves(cfg: Config, c: Call, a: Admission, now: string, d: Call)
    requires cfg.capacity > 1
    ensures Act(cfg, Beside(cfg, c, a, now, d, Passed), Second(d)[2]) == AfterSecond(cfg, c, a, now, d)
  {
    var calls := AfterReturn(cfg, c, a, now).calls;
    assert calls[1 := Call(d.intentId, d.digest, d.subjectId, "", Passed)][1 := Call(d.intentId, d.digest, d.subjectId, "", Slotted)]
        == calls[1 := Call(d.intentId, d.digest, d.subjectId, "", Slotted)];
  }

  lemma SecondTakesSlot(cfg: Config, c: Call, a: Admission, now: string, d: Call)
    requires cfg.maxConcurrency > 1 && cfg.capacity > 1 && c.intentId != d.intentId && c.digest != d.digest
    ensures var s := Second(d);
            Act(cfg, Act(cfg, Act(cfg, AfterReturn(cfg, c, a, now), s[0]), s[1]), s[2]) == AfterSecond(cfg, c, a, now, d)
  {
    hide Act, AfterReturn, AfterSecond, Beside;
    SecondArrives(cfg, c, a, now, d);
    SecondPasses(cfg, c, a, now, d);
    SecondReserves(cfg, c, a, now, d);
  }

  lemma FreedAgain(cfg: Config, c: Call, a: Admission, now: string, d: Call)
    requires cfg.capacity > 1
    ensures var w := AfterSecond(cfg, c, a, now, d);
            && DoubleFree(w, UnwindCall(0))
            && PermitCount(Act(cfg, w, UnwindCall(0))) == cfg.capacity + 1
  {
    var w := AfterSecond(cfg, c, a, now, d);
    var after := Act(cfg, w, UnwindCall(0));
    assert Holders(after.calls) == {};
    assert |after.port.slots| == 1;
  }

  /** With room for two, this run ends with one permit more than the queue has. */
  lemma OnePermitTooMany(cfg: Config, c: Call, d: Call, a: Admission, now: string)
    requires cfg.maxConcurrency > 1 && cfg.capacity > 1 && c.intentId != d.intentId && c.digest != d.digest
    requires var r := NewRecord(c.intentId, c.digest, c.subjectId, a);
             cfg.checks.schema(r) && cfg.checks.schema(r.(status := Queued, updatedAt := now))
    ensures var actions := Entering(c) + (Handover(a, now) + (Second(d) + [UnwindCall(0)]));
            && FreshRun(cfg, Begin(cfg), actions) && FreesTwice(cfg, Begin(cfg), actions)
            && PermitCount(Run(cfg, Begin(cfg), actions)) == cfg.capacity + 1
  {
    hide Act, Run, FreshRun, AfterSlot, AfterCommitted, AfterDispatch, AfterReturn, AfterSecond, PermitCount, DoubleFree, FreesTwice;
    var last := [UnwindCall(0)];
    EnteringTakesSlot(cfg, c);
    CommitGoesThrough(cfg, c, a);
    InterruptedGoesThrough(cfg, c, a, now);
    JobGoesBack(cfg, c, a, now);
    SecondTakesSlot(cfg, c, a, now, d);
    FreedAgain(cfg, c, a, now, d);
    EmptyLogIsFresh(cfg, c, a);
    ThreeOnly(cfg, Begin(cfg), Entering(c));
    ThreeOnly(cfg, AfterSlot(cfg, c), Handover(a, now));
    ThreeOnly(cfg, AfterReturn(cfg, c, a, now), Second(d));
    ThreeSteps(cfg, Begin(cfg), Entering(c), Handover(a, now) + (Second(d) + last));
    ThreeSteps(cfg, AfterSlot(cfg, c), Handover(a, now), Second(d) + last);
    ThreeSteps(cfg, AfterReturn(cfg, c, a, now), Second(d), last);
    assert last + [] == last;
    FirstStep(cfg, AfterSecond(cfg, c, a, now, d), UnwindCall(0), []);
    NoSteps(cfg, Act(cfg, AfterSecond(cfg, c, a, now, d), UnwindCall(0)));
    LastStepFreesTwice(cfg, AfterSecond(cfg, c, a, now, d), UnwindCall(0));
    LaterFreesTwice(cfg, AfterReturn(cfg, c, a, now), Second(d), last);
    LaterFreesTwice(cfg, AfterSlot(cfg, c), Handover(a, now), Second(d) + last);
    LaterFreesTwice(cfg, Begin(cfg), Entering(c), Handover(a, now) + (Second(d) + last));
  }

  lemma ThreeOnly(cfg: Config, w: World, s: seq<Action>)
    requires |s| == 3
    ensures Run(cfg, w, s) == Act(cfg, Act(cfg, Act(cfg, w, s[0]), s[1]), s[2])
  {
    hide Act, Run, FreshRun;
    ThreeSteps(cfg, w, s, []);
    assert s + [] == s;
    NoSteps(cfg, Act(cfg, Act(cfg, Act(cfg, w, s[0]), s[1]), s[2]));
  }

  lemma EmptyLogIsFresh(cfg: Config, c: Call, a: Admission)
    requires cfg.capacity > 0
    ensures FreshAction(AfterSlot(cfg, c), CommitCall(0, a, Synced))
  {
  }

  lemma LastStepFreesTwice(cfg: Config, w: World, action: Action)
    requires DoubleFree(w, action)
    ensures FreesTwice(cfg, w, [action])
  {
  }

  lemma {:induction false} LaterFreesTwice(cfg: Config, w: World, s: seq<Action>, rest: seq<Action>)
    requires FreesTwice(cfg, Run(cfg, w, s), rest)
    ensures FreesTwice(cfg, w, s + rest)
    decreases |s|
  {
    hide Act, DoubleFree;
    if s == [] {
      assert s + rest == rest;
    } else {
      assert (s + rest)[0] == s[0] && (s + rest)[1..] == s[1..] + rest;
      LaterFreesTwice(cfg, Act(cfg, w, s[0]), s[1..], rest);
    }
  }
}
