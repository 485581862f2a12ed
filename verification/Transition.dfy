/** The pure round transition: legality of one command, and what holds over whole runs. */
module Transition {
  import opened Base
  import opened Protocol

  datatype Code =
    | RoundMismatch | HeightMismatch | ViewMismatch | UnsupportedCommand | IllegalPhase
    | TicketLimitReached | AvailabilityLimitReached | InputSetEmpty | TerminalState
    | DurableSequenceOverflow

  const FINALIZE_ROUND_CONFIG: string := "FINALIZE_ROUND_CONFIG"
  const ADVANCE_VIEW: string := "ADVANCE_VIEW"
  const ACCEPT_COMMITMENT: string := "ACCEPT_COMMITMENT"
  const ACCEPT_AVAILABILITY: string := "ACCEPT_AVAILABILITY"
  const FINALIZE_INPUT_FREEZE: string := "FINALIZE_INPUT_FREEZE"
  const FINALIZE_AGGREGATE: string := "FINALIZE_AGGREGATE"
  const CERTIFY_ABORT: string := "CERTIFY_ABORT"

  predicate Terminal(phase: RoundPhase) { phase == Aggregated || phase == Aborted }

  function Sequenced(state: RoundState): Result<RoundState, Code> {
    if state.durableSequence == TWO_64 - 1 then Err(DurableSequenceOverflow)
    else Ok(state.(durableSequence := state.durableSequence + 1))
  }

  /** `apply_command`, branch by branch in source order. */
  function ApplyCommand(state: RoundState, command: Command): Result<RoundState, Code> {
    if command.commandKind == FINALIZE_ROUND_CONFIG then
      var _ :- Require(state.phase == TicketingOpen, IllegalPhase);
      Ok(state)
    else
      var _ :- Require(!Terminal(state.phase), TerminalState);
      if command.commandKind == ADVANCE_VIEW then
        var _ :- Require(state.view != TWO_64 - 1 && command.view == state.view + 1, ViewMismatch);
        Sequenced(state.(view := command.view))
      else
        var _ :- Require(command.view == state.view, ViewMismatch);
        if command.commandKind == ACCEPT_COMMITMENT then
          var _ :- Require(state.phase == TicketingOpen || state.phase == Committed, IllegalPhase);
          var _ :- Require(state.committed < state.tickets, TicketLimitReached);
          Sequenced(state.(committed := state.committed + 1, phase := Committed))
        else if command.commandKind == ACCEPT_AVAILABILITY then
          var _ :- Require(state.phase == Committed || state.phase == Available, IllegalPhase);
          var _ :- Require(state.available < state.committed, AvailabilityLimitReached);
          Sequenced(state.(available := state.available + 1, phase := Available))
        else if command.commandKind == FINALIZE_INPUT_FREEZE then
          var _ :- Require(state.phase == Available, IllegalPhase);
          var _ :- Require(state.available > 0, InputSetEmpty);
          Sequenced(state.(phase := Eligible))
        else if command.commandKind == FINALIZE_AGGREGATE then
          var _ :- Require(state.phase == Eligible, IllegalPhase);
          Sequenced(state.(phase := Aggregated, stateRoot := command.bodyHash))
        else if command.commandKind == CERTIFY_ABORT then
          Sequenced(state.(phase := Aborted))
        else Err(UnsupportedCommand)
  }

  /** The round, height and view guards of `apply`, then the command itself. */
  function Step(state: RoundState, command: Command): Result<RoundState, Code> {
    var _ :- Require(command.roundId == state.roundId, RoundMismatch);
    var _ :- Require(command.height == state.height, HeightMismatch);
    var _ :- Require(command.commandKind == ADVANCE_VIEW || command.view == state.view, ViewMismatch);
    ApplyCommand(state, command)
  }

  // ----- runs: a rejected command leaves the state alone --------------------

  function Next(state: RoundState, command: Command): RoundState {
    if Step(state, command).Ok? then Step(state, command).value else state
  }

  function Run(state: RoundState, commands: seq<Command>): RoundState {
    if commands == [] then state
    else Next(Run(state, commands[..|commands| - 1]), commands[|commands| - 1])
  }

  /** Accepted commands of a run that satisfy `counts`. */
  function Accepted(state: RoundState, commands: seq<Command>, counts: Command -> bool): nat {
    if commands == [] then 0
    else
      var front, last := commands[..|commands| - 1], commands[|commands| - 1];
      Accepted(state, front, counts)
        + if Step(Run(state, front), last).Ok? && counts(last) then 1 else 0
  }

  predicate Fresh(state: RoundState) {
    state.phase == TicketingOpen && state.committed == 0 && state.available == 0
  }

  /** What the phase says about the counts. */
  predicate PhaseFixesCounts(state: RoundState) {
    && state.available <= state.committed <= state.tickets
    && (state.phase == TicketingOpen ==> state.committed == 0)
    && (state.phase == Committed ==> state.committed > 0 && state.available == 0)
    && (state.phase in {Available, Eligible, Aggregated} ==> state.available > 0)
  }

  lemma StepKeepsCounts(state: RoundState, command: Command)
    requires PhaseFixesCounts(state)
    ensures PhaseFixesCounts(Next(state, command))
    ensures Next(state, command).tickets == state.tickets
    ensures state.available <= Next(state, command).available && state.committed <= Next(state, command).committed
    ensures state.available > 0 ==> Next(state, command).committed == state.committed
  {
  }

  /** Every reachable state keeps available <= committed <= tickets and the phase fixes which
      counts are positive. */
  lemma {:induction false} RunKeepsCounts(start: RoundState, commands: seq<Command>)
    requires PhaseFixesCounts(start)
    ensures PhaseFixesCounts(Run(start, commands))
    ensures Run(start, commands).tickets == start.tickets
  {
    hide Next, PhaseFixesCounts;
    if commands != [] {
      RunKeepsCounts(start, commands[..|commands| - 1]);
      StepKeepsCounts(Run(start, commands[..|commands| - 1]), commands[|commands| - 1]);
    }
  }

  lemma {:induction false} RunSplits(start: RoundState, first: seq<Command>, more: seq<Command>)
    ensures Run(start, first + more) == Run(Run(start, first), more)
  {
    hide Next;
    if more == [] {
      assert first + more == first;
    } else {
      var all := first + more;
      assert all[..|all| - 1] == first + more[..|more| - 1];
      RunSplits(start, first, more[..|more| - 1]);
    }
  }

  lemma {:induction false} FrozenOnceAvailable(state: RoundState, more: seq<Command>)
    requires PhaseFixesCounts(state) && state.available > 0
    ensures Run(state, more).committed == state.committed && Run(state, more).available >= state.available
  {
    hide Next, PhaseFixesCounts;
    if more != [] {
      var front := more[..|more| - 1];
      FrozenOnceAvailable(state, front);
      RunKeepsCounts(state, front);
      StepKeepsCounts(Run(state, front), more[|more| - 1]);
    }
  }

  /** Once any availability is accepted the committed count never changes again. */
  lemma CommittedIsFrozen(start: RoundState, first: seq<Command>, more: seq<Command>)
    requires Fresh(start) && Run(start, first).available > 0
    ensures Run(start, first + more).committed == Run(start, first).committed
  {
    RunKeepsCounts(start, first);
    RunSplits(start, first, more);
    FrozenOnceAvailable(Run(start, first), more);
  }

  /** The durable sequence counts exactly the accepted commands other than config replays. */
  lemma {:induction false} SequenceCountsCommands(start: RoundState, commands: seq<Command>)
    ensures Run(start, commands).durableSequence
         == start.durableSequence + Accepted(start, commands, (c: Command) => c.commandKind != FINALIZE_ROUND_CONFIG)
  {
    if commands != [] {
      var front, last := commands[..|commands| - 1], commands[|commands| - 1];
      SequenceCountsCommands(start, front);
      SequenceStep(Run(start, front), last);
    }
  }

  lemma SequenceStep(state: RoundState, command: Command)
    ensures Next(state, command).durableSequence
         == state.durableSequence
            + if Step(state, command).Ok? && command.commandKind != FINALIZE_ROUND_CONFIG then 1 else 0
  {
  }

  predicate Substantive(c: Command) {
    c.commandKind != FINALIZE_ROUND_CONFIG && c.commandKind != ADVANCE_VIEW
  }

  /** How far a round has got: every substantive command moves it up by at least one. */
  function Progress(state: RoundState): nat {
    match state.phase
    case Eligible => state.committed + state.available + 1
    case Aggregated => state.committed + state.available + 2
    case Aborted => 2 * state.tickets + 2
    case _ => state.committed + state.available
  }

  lemma ProgressStep(state: RoundState, command: Command)
    requires PhaseFixesCounts(state)
    ensures Progress(Next(state, command)) >= Progress(state)
            + if Step(state, command).Ok? && Substantive(command) then 1 else 0
  {
  }

  lemma {:induction false} ProgressRun(start: RoundState, commands: seq<Command>)
    requires PhaseFixesCounts(start)
    ensures Accepted(start, commands, Substantive) + Progress(start) <= Progress(Run(start, commands))
  {
    hide Next, Step, PhaseFixesCounts, Progress;
    if commands != [] {
      var front, last := commands[..|commands| - 1], commands[|commands| - 1];
      ProgressRun(start, front);
      RunKeepsCounts(start, front);
      ProgressStep(Run(start, front), last);
    }
  }

  /** A round accepts at most 2 * tickets + 2 commands that are neither view changes nor config replays. */
  lemma RoundIsBounded(start: RoundState, commands: seq<Command>)
    requires Fresh(start)
    ensures Accepted(start, commands, Substantive) <= 2 * start.tickets + 2
  {
    ProgressRun(start, commands);
    RunKeepsCounts(start, commands);
  }

  // ----- the bound is attained ---------------------------------------------

  function Issue(state: RoundState, kind: string): Command {
    Command("a", "b", kind, state.height, 0, "r", state.roundId, state.view)
  }

  function Repeat(c: Command, n: nat): seq<Command> { seq(n, _ => c) }

  /** The state after `n` accepted commitments (or availabilities). */
  function Advanced(state: RoundState, kind: string, n: nat): (r: RoundState)
    requires CanRepeat(state, kind, n)
    ensures n == 0 ==> r == state
  {
    if n == 0 then state
    else if kind == ACCEPT_COMMITMENT then
      state.(committed := state.committed + n, phase := Committed, durableSequence := state.durableSequence + n)
    else
      state.(available := state.available + n, phase := Available, durableSequence := state.durableSequence + n)
  }

  predicate CanRepeat(state: RoundState, kind: string, n: nat) {
    && PhaseFixesCounts(state) && state.durableSequence + n < TWO_64
    && (|| (kind == ACCEPT_COMMITMENT && state.phase in {TicketingOpen, Committed} && state.committed + n <= state.tickets)
        || (kind == ACCEPT_AVAILABILITY && state.phase in {Committed, Available} && state.available + n <= state.committed))
  }

  lemma AdvancedStep(state: RoundState, kind: string, n: nat)
    requires n > 0 && CanRepeat(state, kind, n)
    ensures Step(Advanced(state, kind, n - 1), Issue(state, kind)) == Ok(Advanced(state, kind, n))
    ensures Substantive(Issue(state, kind))
  {
  }

  lemma {:induction false} RepeatAccepted(state: RoundState, kind: string, n: nat)
    requires CanRepeat(state, kind, n)
    ensures Accepted(state, Repeat(Issue(state, kind), n), Substantive) == n
    ensures Run(state, Repeat(Issue(state, kind), n)) == Advanced(state, kind, n)
  {
    hide Step, Substantive, Advanced;
    if n > 0 {
      var c := Issue(state, kind);
      assert Repeat(c, n)[..n - 1] == Repeat(c, n - 1);
      RepeatAccepted(state, kind, n - 1);
      AdvancedStep(state, kind, n);
    }
  }

  lemma {:induction false} AcceptedSplits(start: RoundState, first: seq<Command>, more: seq<Command>, counts: Command -> bool)
    ensures Accepted(start, first + more, counts)
         == Accepted(start, first, counts) + Accepted(Run(start, first), more, counts)
  {
    hide Step, Next;
    if more == [] {
      assert first + more == first;
    } else {
      var all, front := first + more, more[..|more| - 1];
      assert all[..|all| - 1] == first + front;
      AcceptedSplits(start, first, front, counts);
      RunSplits(start, first, front);
    }
  }

  /** For every positive ticket count some run accepts exactly 2 * tickets + 2 of them. */
  lemma BoundIsAttained(start: RoundState)
    requires Fresh(start) && start.tickets > 0 && start.durableSequence + 2 * start.tickets + 2 < TWO_64
    ensures exists commands :: Accepted(start, commands, Substantive) == 2 * start.tickets + 2
  {
    hide Step, Next, Accepted, Run;
    var n := start.tickets;
    var commits := Repeat(Issue(start, ACCEPT_COMMITMENT), n);
    RepeatAccepted(start, ACCEPT_COMMITMENT, n);
    var committed := Run(start, commits);
    var proofs := Repeat(Issue(committed, ACCEPT_AVAILABILITY), n);
    RepeatAccepted(committed, ACCEPT_AVAILABILITY, n);
    var available := Run(committed, proofs);
    var closing := [Issue(available, FINALIZE_INPUT_FREEZE), Issue(available, FINALIZE_AGGREGATE)];
    ClosingAccepted(available);
    AcceptedSplits(start, commits, proofs, Substantive);
    AcceptedSplits(start, commits + proofs, closing, Substantive);
    RunSplits(start, commits, proofs);
  }

  lemma ClosingAccepted(state: RoundState)
    requires state.phase == Available && state.available > 0 && state.durableSequence + 2 < TWO_64
    ensures Accepted(state, [Issue(state, FINALIZE_INPUT_FREEZE), Issue(state, FINALIZE_AGGREGATE)], Substantive) == 2
  {
    var a, b := Issue(state, FINALIZE_INPUT_FREEZE), Issue(state, FINALIZE_AGGREGATE);
    assert FINALIZE_INPUT_FREEZE[9] != FINALIZE_ROUND_CONFIG[9];
    var frozen := state.(phase := Eligible, durableSequence := state.durableSequence + 1);
    assert Step(state, a) == Ok(frozen);
    assert Step(frozen, b).Ok?;
    assert [a, b][..1] == [a] && [a][..0] == [];
    assert Run(state, []) == state && Accepted(state, [], Substantive) == 0;
    assert Run(state, [a]) == frozen && Accepted(state, [a], Substantive) == 1;
  }
}
