# A verified model of DeltaReduce

DeltaReduce aggregates model updates under Byzantine fault tolerance. A C++ validator runtime
journals commands and votes durably before it exposes them; a layer of codecs, certificates and exact
integer arithmetic sits below it; a Python controller admits executions through a ledger, a quota and
a bounded worker queue. This project models those parts in Dafny and proves what they promise over
all inputs, all runs and all interleavings.

`dafny verify dfyconfig.toml` checks everything.

| file | what it models |
|---|---|
| `Base`, `Identity` | words, bytes, string order, content identifiers |
| `Canonical`, `CanonicalIO` | the canonical binary codec as functions, and its cursor and buffer as classes |
| `Protocol` | typed records carried in canonical envelopes |
| `Transition` | the round state machine |
| `Consensus` | vote journal and quorum validation |
| `Wal`, `Runtime`, `RuntimeRuns`, `ValidatorCore` | frames, the single-writer reactor, its runs with crashes, and the real core under it |
| `WalFaults`, `RuntimeFaults`, `ValidatorFaults` | a log written on after a failed append: what is read, what the reactor serves, and the real validator in every run |
| `VoteReplay` | repeated votes under the real core |
| `Ledger`, `LedgerRuns` | the idempotency ledger and its runs |
| `Dispatch`, `Gate`, `GateRuns`, `GateScenarios` | the worker queue, the gate's calls interleaving over ledger and queue, and two single runs |
| `Json`, `Merkle`, `Certificates`, `Lineage`, `Membership` | the JSON printer, the aggregate Merkle tree, the certificates of a round, the chain verifier, and when an input set has an accepted eligibility certificate |
| `Arithmetic`, `Bounds`, `DirectQ`, `Apply`, `Engine` | two-limb integers, bound certificates, the accumulator, weighted rounding, the update and its candidate |
| `Shards`, `Pointer`, `PointerFaults` | the shard planner, the current-pointer store, and its log written on after a failed append |

Conventions. SHA-256 is a parameter `sha`. No lemma assumes it injective everywhere, which no function
to 32 bytes is; a lemma that needs it assumes that the finitely many strings hashed in its own
statement do not collide (`Base.CollisionFree`). Exceptions are `Err` results with the code the source
throws. A failed write is a crash: the process ends and the store is opened again, except where
a module says that the writer goes on. Each lock-protected
block of the controller is one atomic step. The specification functions carry the source's branches;
the classes and methods that update state in place are proved equal to them, and the lemmas then state
what those functions mean.

Where the code does not do what one would expect, the model follows the code, shows an input, and proves
exactly when the expectation holds:

- Products. `checked_multiply` on `Int128` accepts some products of 2^128 and more with a wrong value,
  because the overflow test compares high limbs only. `Arithmetic.MultiplyOutcome` gives the exact
  operands, `Arithmetic.MaximumTimesThree` one pair. `DirectQ.AllDeclaredAcceptedIffTrusted` carries the
  consequence to the accumulator bound, with `Bounds.UntrustedProofValidates` as the instance.
- Reload. An append that loses only its line break is read back, but the next append then makes one line of
  two objects. `LedgerRuns.ReloadRebuilds` gives the condition, `LedgerRuns.HealthyButUnreadable` the run of
  a healthy ledger whose file cannot be opened.
- Permits. A dispatch interrupted after it handed its job over gives the permit back although the job may
  have done so. `GateRuns.PermitsAreConserved` gives the condition, `GateScenarios.OnePermitTooMany` the run.
- Writing on after a failed append. The reactor does not stop on a plain I/O error, and its sequence does not
  move. The next entry is read from its own frame if and only if the failed append left nothing or its whole
  frame (`WalFaults.SecondIsReadIff`), and in the latter case both entries carry one sequence and reopening
  refuses the log. So reopening serves the next entry from its own frame if and only if nothing was left
  (`RuntimeFaults.AfterFailedAppend`, for the real validator in every run
  `ValidatorFaults.ValidatorAfterFailedAppend`). `WalFaults.ContinuedOutcome` gives the outcome for every
  number of bytes left; one is a silent truncation that loses a receipt already exposed
  (`RuntimeFaults.SwallowedIsLost`), with `ValidatorFaults.VoteIsSilentlyLost` as the instance.
- The pointer store runs on in the same way. It opens again if and only if the failed append left nothing, or a
  whole line whose checkpoint is its own parent and whose height is below the next one (`PointerFaults.OpensIff`).
- Repeated votes. A vote repeated with the same context and body is answered if and only if its bytes are the
  recorded ones (`VoteReplay.RepeatedVoteNeedsSameBytes`); `VoteReplay.ReencodedVoteIsRefused` is a refused one.
- Shard votes. A vote's context does not contain the shard key, so a validator's journal takes one shard
  certificate per view (`Lineage.SecondShardVoteConflicts`), and a root over two or more cells cannot be
  certified in one view while at most f validators sign outside their journals (`Lineage.WideRootNeedsFaults`).
- Input sets. Their order admits one ticket with two commitments (`Lineage.InputOrderAllowsRepeats`);
  `Membership.EligibleIffDistinct` says exactly when an eligibility certificate for the set can be verified.

## Model

| member | source | states |
|---|---|---|
| `Canonical.ValueRoundTrip` | delta-core-cpp/src/canonical.cpp:108-164 | whatever value the printer accepts, the parser reads back from its bytes followed by any tail, through nested arrays and ordered maps, under any limits and depth |
| `Canonical.ValueExact` | delta-core-cpp/src/canonical.cpp:247-306 | whatever bytes the parser consumes are the bytes the printer prints for the value read |
| `Canonical.EnvelopeRoundTrip` | delta-core-cpp/src/canonical.cpp:353-371 | decoding an encoded envelope returns it, for any limits |
| `Canonical.EnvelopeExact` | delta-core-cpp/src/canonical.cpp:373-400 | encoding a decoded envelope returns the bytes, for any limits |
| `Canonical.CodecIsBijective` | delta-core-cpp/src/canonical.cpp:353-400 | bytes decode to an envelope if and only if the envelope encodes to those bytes |
| `CanonicalIO.Reader.ReadValue` | delta-core-cpp/src/canonical.cpp:247-306 | the cursor consumes exactly what the parser function consumes and yields its value or its error |
| `CanonicalIO.Output.AppendValue` | delta-core-cpp/src/canonical.cpp:108-164 | the buffer grows by exactly the printed bytes, or the same error is reported |
| `CanonicalIO.DecodeEnvelope` | delta-core-cpp/src/canonical.cpp:373-400 | the cursor-based decoder computes the decoder function |
| `CanonicalIO.EncodeEnvelope` | delta-core-cpp/src/canonical.cpp:353-371 | the buffer-based encoder computes the encoder function |
| `Identity.DigestOfId` | delta-core-cpp/src/certificates/contracts.cpp:112-130 | reading the digest bytes out of an identifier undoes printing it |
| `Identity.IdInjective` | delta-core-cpp/src/certificates/contracts.cpp:100-110 | equal identifiers name equal digests |
| `Protocol.DecimalRoundTrip` | delta-core-cpp/src/protocol.cpp:285-308 | a string parses to a 64-bit number if and only if it is that number's canonical decimal |
| `Protocol.CommandRoundTrip` | delta-core-cpp/src/protocol.cpp:338-371 | bytes parse to a command if and only if the command encodes to them |
| `Protocol.RoundStateRoundTrip` | delta-core-cpp/src/protocol.cpp:373-416 | the same for round states |
| `Protocol.VoteRoundTrip` | delta-core-cpp/src/protocol.cpp:478-518 | the same for votes |
| `Protocol.EffectBatchRoundTrip` | delta-core-cpp/src/protocol.cpp:565-603 | the same for effect batches, through their ordered effect list |
| `Protocol.WalRecordRoundTrip` | delta-core-cpp/src/protocol.cpp:605-637 | the same for WAL records |
| `Transition.RunKeepsCounts` | delta-core-cpp/src/transition.cpp:34-107 | in every run from a fresh round, available ≤ committed ≤ tickets and the phase fixes which counts are positive |
| `Transition.CommittedIsFrozen` | delta-core-cpp/src/transition.cpp:34-107 | after the first availability no continuation changes the committed count |
| `Transition.SequenceCountsCommands` | delta-core-cpp/src/transition.cpp:26-107 | the durable sequence grows by exactly the accepted commands other than a configuration replay |
| `Transition.RoundIsBounded` | delta-core-cpp/src/transition.cpp:34-107 | at most 2·tickets + 2 accepted commands are neither view changes nor configuration replays |
| `Transition.BoundIsAttained` | delta-core-cpp/src/transition.cpp:34-107 | a run that attains the bound exists for every fresh round |
| `Consensus.KeysIdentifyContexts` | delta-core-cpp/src/consensus.cpp:45-54 | two votes have equal keys if and only if all seven components agree |
| `Consensus.RecordDecides` | delta-core-cpp/src/consensus.cpp:110-127 | a vote is recorded if and only if its key is absent, replayed if present with its body, conflicting otherwise |
| `Consensus.RecordKeepsSorted` | delta-core-cpp/src/consensus.cpp:110-127 | recording keeps the vector sorted by key and adds that vote only |
| `Consensus.VoteJournal.RecordVote` | delta-core-cpp/src/consensus.cpp:110-127 | the journal object computes the same outcome; a rejection changes nothing |
| `Consensus.JournalHoldsOneBody` | delta-core-cpp/src/consensus.cpp:110-127 | no sequence of attempts makes a journal hold two votes for one context |
| `Consensus.ValidateQuorum` | delta-core-cpp/src/consensus.cpp:129-173 | the checking loops accept exactly the certificates that meet every condition of the policy |
| `Consensus.QuorumsIntersect` | delta-core-cpp/src/consensus.cpp:129-173 | two accepted certificates under one 3f+1 policy share at least f+1 signers |
| `Consensus.ConflictNeedsFaults` | delta-core-cpp/src/consensus.cpp:110-173 | two accepted certificates for one context with different bodies need more than f validators that signed outside their journals |
| `Wal.EntryRoundTrip` | delta-runtime-cpp/src/wal.cpp:138-258 | a framed entry decodes to itself |
| `Wal.EntryExact` | delta-runtime-cpp/src/wal.cpp:209-258 | a frame that decodes is the frame of its entry |
| `Wal.RecoverExact` | delta-runtime-cpp/src/wal.cpp:356-391 | entries followed by any proper prefix of one more frame recover to exactly those entries and their length, torn exactly when the prefix is not empty |
| `Wal.RecoverSound` | delta-runtime-cpp/src/wal.cpp:356-391 | for every file that recovers, the durable prefix is the encoding of the recovered entries |
| `Wal.BuildFrame` | delta-runtime-cpp/src/wal.cpp:138-158 | building the frame in place and patching its size yields the frame function |
| `Wal.RecoverFile` | delta-runtime-cpp/src/wal.cpp:356-391 | the cursor loop computes the recovery function |
| `Wal.SnapshotRoundTrip` | delta-runtime-cpp/src/wal.cpp:315-327 | an encoded snapshot reads back as itself |
| `WalFaults.ContinuedOutcome` | delta-runtime-cpp/src/wal.cpp:356-391 | behind any durable log, for every number of bytes of one frame (none to all) followed by another complete frame and any further bytes: recovered without the first, recovered with both, refused, silently truncated, or refused unless the bytes up to the announced size form a frame |
| `WalFaults.ReachingTheEndIsCorrupt` | delta-runtime-cpp/src/wal.cpp:209-258 | when the announced size ends with the second frame the log is refused, unless the two strings hashed collide |
| `WalFaults.SecondIsReadIff` | delta-runtime-cpp/src/wal.cpp:275-312 | behind any durable log, the entry appended after a failed append is read from its own frame if and only if the failed append left nothing or its whole frame, and what follows recovers |
| `RuntimeFaults.BothFramesAreRefused` | delta-runtime-cpp/src/runtime.cpp:374-401 | when the failed append left its whole frame, reopening after the next append fails on the sequence, whatever snapshot there is |
| `RuntimeFaults.SwallowedMeans` | delta-runtime-cpp/src/wal.cpp:356-391 | with twelve bytes left or more, the next frame is taken for a torn tail exactly when the failed frame is longer than all that was written from its first missing byte on |
| `RuntimeFaults.SwallowedIsLost` | delta-runtime-cpp/src/runtime.cpp:374-401 | then reopening succeeds with the memory and the file from before both appends |
| `RuntimeFaults.AfterFailedAppend` | delta-runtime-cpp/src/runtime.cpp:374-401 | for two requests planned from one memory, the first append failing with any part of its frame left: the second receipt is served from its own frame after reopening if and only if nothing was left; the whole frame makes reopening fail on the sequence; a swallowed frame makes it succeed without the exposed receipt |
| `RuntimeFaults.LeftoverIsNeverServed` | delta-runtime-cpp/src/runtime.cpp:374-401 | once anything was left, no further bytes in the file bring the second entry's own frame back |
| `ValidatorFaults.ValidatorAfterFailedAppend` | delta-runtime-cpp/src/runtime.cpp:374-401 | the same for the real codec and transition after every run, unless two votes collide |
| `ValidatorFaults.VoteIsSilentlyLost` | delta-runtime-cpp/src/runtime.cpp:317-401 | a vote whose append fails after twelve bytes and a shorter vote that is answered: reopening succeeds and does not know the answered vote |
| `Runtime.Reactor.ReplayEntries` | delta-runtime-cpp/src/runtime.cpp:159-240 | the replay loop over the recovered entries computes the replay function on the reactor's fields |
| `Runtime.Reactor.RecoverState` | delta-runtime-cpp/src/runtime.cpp:159-240 | recovery cuts a torn tail and leaves exactly the reopened memory and file |
| `Runtime.Reactor.AppendAndSync` | delta-runtime-cpp/src/wal.cpp:401-405 | the file grows by the whole frame, or by what the crash left of it |
| `Runtime.Reactor.ProcessSubmit` | delta-runtime-cpp/src/runtime.cpp:242-315 | plan, append, commit, expose, at every crash point, on the reactor's fields and file |
| `Runtime.Reactor.ProcessVote` | delta-runtime-cpp/src/runtime.cpp:317-363 | the same for votes |
| `Runtime.Reactor.ProcessSnapshot` | delta-runtime-cpp/src/runtime.cpp:365-372 | writes the snapshot of the current state and changes nothing else |
| `RuntimeRuns.SubmitIsReplay` | delta-runtime-cpp/src/runtime.cpp:242-315 | the memory a submission commits is what replaying its entry produces |
| `RuntimeRuns.VoteIsReplay` | delta-runtime-cpp/src/runtime.cpp:317-363 | the memory a vote commits is what replaying its entry produces |
| `RuntimeRuns.RepeatedVoteNeedsSameFrame` | delta-runtime-cpp/src/runtime.cpp:317-363 | a vote that repeats a journalled context and body is answered if and only if its frame identifier is stored |
| `RuntimeRuns.RepeatedVoteNeedsDurableFrame` | delta-runtime-cpp/src/runtime.cpp:317-363 | in every run, such a vote is answered if and only if its own bytes are durable, unless identifiers collide |
| `RuntimeRuns.ReopenRebuilds` | delta-runtime-cpp/src/runtime.cpp:159-240 | reopening any log with any torn tail and any earlier snapshot succeeds with the replay of the durable entries |
| `RuntimeRuns.RunKeepsInv` | delta-runtime-cpp/src/runtime.cpp:159-372 | every submit, vote, snapshot, crash and reopen keeps memory, file, snapshot and exposed receipts in agreement |
| `RuntimeRuns.RecoveryTheorem` | delta-runtime-cpp/src/runtime.cpp:159-363 | after every run, reopening succeeds, the rebuilt state, journal, cache and sequence are the replay of the durable entries, and every receipt ever exposed is served again unchanged |
| `ValidatorCore.FramesFit` | delta-core-cpp/src/transition.cpp:143-193 | every frame the real core produces stays within the 64 MiB that recovery accepts, although encoding does not check it |
| `ValidatorCore.RealCoreOk` | delta-core-cpp/src/transition.cpp:143-193 | the byte-level transition meets everything the runtime theorem asks of a core |
| `ValidatorCore.ValidatorRecovers` | delta-runtime-cpp/src/runtime.cpp:159-363 | the recovery theorem for the real codec and transition, for every initial state that parses, unless two votes of the run collide |
| `VoteReplay.RepeatedVoteNeedsSameBytes` | delta-runtime-cpp/src/runtime.cpp:317-363 | under the real core, in every run, another frame of a durable vote's context and body is answered if and only if its bytes are the durable ones, and refused otherwise |
| `VoteReplay.ShortVoteEncodes` | delta-core-cpp/src/protocol.cpp:711-733 | every valid vote with short printable names encodes |
| `VoteReplay.ReencodedVoteIsRefused` | delta-runtime-cpp/src/runtime.cpp:317-363 | after a vote is recorded, the same vote under another durable sequence is refused |
| `Ledger.IdempotencyLedger.LoadFromDisk` | delta-controller-python/src/deltacontroller/idempotency.py:352-401 | line-by-line loading yields the indexes of the log, also when the last line lacks its break, or fails when a line is not one object |
| `Ledger.IdempotencyLedger.AcquireOrCheck` | delta-controller-python/src/deltacontroller/idempotency.py:433-567 | one locked pass answers committed, reserved or wait, or refuses, and changes the reservations only |
| `Ledger.IdempotencyLedger.CountActive` | delta-controller-python/src/deltacontroller/idempotency.py:891-910 | the loop over reservations counts active records plus the reservations ahead |
| `Ledger.IdempotencyLedger.CommitAdmission` | delta-controller-python/src/deltacontroller/idempotency.py:569-619 | durable commit on all fields; a failed append poisons the ledger and leaves nothing, part of the object, the object without its break, or the line |
| `Ledger.IdempotencyLedger.ReleaseReservation` | delta-controller-python/src/deltacontroller/idempotency.py:621-631 | removes that reservation only, nothing once poisoned |
| `Ledger.IdempotencyLedger.TransitionExecution` | delta-controller-python/src/deltacontroller/idempotency.py:760-846 | compare-and-set on one record, refusing an empty expectation, with the same append outcomes |
| `LedgerRuns.RunKeepsInv` | delta-controller-python/src/deltacontroller/idempotency.py:352-846 | every interleaving keeps the three indexes consistent with each other and with the log, and reservations apart from records |
| `LedgerRuns.ReloadRebuilds` | delta-controller-python/src/deltacontroller/idempotency.py:352-431 | the file of any run reloads if and only if no append was cut inside its object and none followed the opening of a file without a final line break; for a healthy ledger the second condition alone decides, and reload gives back its three indexes |
| `LedgerRuns.GarbledIff` | delta-controller-python/src/deltacontroller/idempotency.py:403-410 | from any state, the file becomes unreadable exactly by those two kinds of append |
| `LedgerRuns.HealthyButUnreadable` | delta-controller-python/src/deltacontroller/idempotency.py:352-410 | a commit that loses its line break, a restart and one failed orphan leave a healthy ledger whose file cannot be opened |
| `LedgerRuns.HistoryClimbs` | delta-controller-python/src/deltacontroller/idempotency.py:271-302 | later lines of an intent have strictly higher status, the same execution and digest, and follow no terminal line |
| `LedgerRuns.AtMostFourLines` | delta-controller-python/src/deltacontroller/idempotency.py:760-846 | in every run an intent has at most four lines |
| `LedgerRuns.OneOwnerPerDigest` | delta-controller-python/src/deltacontroller/idempotency.py:433-631 | in every run, failed appends included, committed records and reservations together give a digest one owner |
| `LedgerRuns.ReservedIffUnowned` | delta-controller-python/src/deltacontroller/idempotency.py:433-567 | in every run a caller gets the reservation exactly when the ledger is healthy and intent and digest are unowned |
| `LedgerRuns.CommitIffHolder` | delta-controller-python/src/deltacontroller/idempotency.py:569-619 | in every run a commit succeeds exactly for the holder with a valid record and a durable append, and "committed while reserved" never occurs |
| `LedgerRuns.TerminalIsFinal` | delta-controller-python/src/deltacontroller/idempotency.py:760-846 | no continuation, restart included, changes a terminal record |
| `LedgerRuns.OneTerminalOutcome` | delta-controller-python/src/deltacontroller/idempotency.py:760-846 | the terminal record reached by any run survives every continuation unchanged, so a cancel/complete race has one winner |
| `Dispatch.WorkerPort.Reserve` | delta-controller-python/src/deltacontroller/dispatch.py:539-549 | takes one permit for one intent or refuses and changes nothing |
| `Dispatch.WorkerPort.ReleaseReservation` | delta-controller-python/src/deltacontroller/dispatch.py:551-558 | gives back a reserved permit, raising when the semaphore is full, or does nothing |
| `Dispatch.WorkerPort.BeginDispatch` | delta-controller-python/src/deltacontroller/dispatch.py:560-601 | the locked block: consume the reservation or a permit, publish when queued, say whether to unwind |
| `Dispatch.WorkerPort.UnwindDispatch` | delta-controller-python/src/deltacontroller/dispatch.py:602-609 | withdraws this job only and returns the permit, raising when the semaphore is full |
| `Dispatch.WorkerPort.Finish` | delta-controller-python/src/deltacontroller/dispatch.py:631-636 | only the job still published returns its permit, raising when the semaphore is full |
| `GateRuns.StandingAfterCommit` | delta-controller-python/src/deltacontroller/idempotency.py:891-910 | the inductive step of the quota: a commit keeps every passed reservation within the limit, whichever side of it it stood on |
| `GateRuns.RunKeepsInv` | delta-controller-python/src/deltacontroller/gate.py:305-443 | every interleaving of gate calls, jobs, cancellations, interrupted dispatches, shutdown and restarts keeps calls, reservations, slots, jobs and file in agreement |
| `GateRuns.ConcurrencyIsBounded` | delta-controller-python/src/deltacontroller/quota.py:83-95 | active records plus calls that passed the check never exceed the concurrency limit, across restarts |
| `GateRuns.PermitsAreConserved` | delta-controller-python/src/deltacontroller/dispatch.py:539-636 | free + reserved + published + held permits equal the capacity throughout a run if and only if no dispatch interrupted after handing its job over unwinds when that job has returned its permit |
| `GateRuns.RestartIsFresh` | delta-controller-python/src/deltacontroller/idempotency.py:352-401 | after any run, failed appends included, a restart that can open the file begins within the concurrency limit again |
| `GateRuns.ReleaseFreesOwnSlot` | delta-controller-python/src/deltacontroller/gate.py:386-443 | a call's release never frees the slot of another call, and is a no-op once dispatch consumed its own |
| `GateRuns.OneHolderPerIntent` | delta-controller-python/src/deltacontroller/gate.py:305-443 | at most one live call per intent, whatever fails |
| `GateRuns.CommittedKeepsItsSlot` | delta-controller-python/src/deltacontroller/dispatch.py:574-583 | a committed call always finds its slot, also after shutdown began; a passed call never finds its intent already reserved |
| `GateScenarios.OneCallGoesThrough` | delta-controller-python/src/deltacontroller/gate.py:305-443 | on an idle controller with room, a call with valid records passes every step: its record is QUEUED and its permit is with its job |
| `GateScenarios.OnePermitTooMany` | delta-controller-python/src/deltacontroller/dispatch.py:597-609 | with room for two, a run ends with one permit more than the queue has |
| `Json.PrintEnds` | delta-core-cpp/src/certificates/contracts.cpp:37-93 | equal texts, whatever follows them, were printed from equal values, so a printed value ends where it ends |
| `Json.DocumentInjective` | delta-core-cpp/src/certificates/contracts.cpp:37-98 | equal JSON documents print equal values |
| `Merkle.FringeIsLeafList` | delta-core-cpp/src/certificates/contracts.cpp:553-567 | the tree of the level loop has the leaf list as its fringe, odd nodes promoted |
| `Merkle.LeafJsonInjective` | delta-core-cpp/src/certificates/contracts.cpp:542-551 | valid leaves with equal JSON documents are equal |
| `Merkle.DomainsDiffer` | delta-core-cpp/src/certificates/contracts.cpp:100-110 | no leaf input is a node input |
| `Merkle.EqualDigestsEqualTrees` | delta-core-cpp/src/certificates/contracts.cpp:538-569 | trees of any two shapes with one digest are equal, unless the strings hashed collide |
| `Merkle.EqualRootsEqualLeaves` | delta-core-cpp/src/certificates/contracts.cpp:538-569 | equal roots imply equal leaf lists, also of different lengths, unless the strings hashed collide |
| `Merkle.AggregateMerkleRoot` | delta-core-cpp/src/certificates/contracts.cpp:538-569 | the two loops accept exactly bounded lists of valid leaves and return the root of that tree |
| `Certificates.InputSetInjective` | delta-core-cpp/src/certificates/contracts.cpp:240-276 | the JSON of an input set determines it |
| `Certificates.EligibilityInjective` | delta-core-cpp/src/certificates/contracts.cpp:341-382 | the JSON of an eligibility certificate determines it |
| `Certificates.PlanInjective` | delta-core-cpp/src/certificates/contracts.cpp:384-436 | the JSON of a plan determines it |
| `Certificates.ShardQcInjective` | delta-core-cpp/src/certificates/contracts.cpp:438-480 | the JSON of a shard certificate determines it |
| `Certificates.RootQcInjective` | delta-core-cpp/src/certificates/contracts.cpp:482-536 | the JSON of a root certificate determines it |
| `Certificates.CandidateInjective` | delta-core-cpp/src/certificates/contracts.cpp:607-647 | the JSON of a candidate determines it |
| `Certificates.SameShardQc` | delta-core-cpp/src/certificates/contracts.cpp:706-733 | shard certificates with one identifier are equal, unless the two strings hashed collide |
| `Lineage.AcceptedTickets` | delta-core-cpp/src/certificates/verifier.cpp:33-42 | the collector returns the accepted tickets in order |
| `Lineage.SortOfSorted` | delta-core-cpp/src/certificates/verifier.cpp:44-53 | sorting a canonical bucket list changes nothing |
| `Lineage.EntriesIffDistinct` | delta-core-cpp/src/certificates/contracts.cpp:341-358 | entries in canonical form for a canonical input set exist if and only if its tickets are pairwise distinct |
| `Membership.AcceptingAllLength` | delta-core-cpp/src/certificates/contracts.cpp:240-382 | the certificate that accepts every member prints 111 bytes a member fewer than the input set, and 204 bytes more once |
| `Membership.EligibleIffDistinct` | delta-core-cpp/src/certificates/verifier.cpp:176-213 | a verified input set has an eligibility certificate that the verifier accepts if and only if its tickets are pairwise distinct and the norm evidence has a content identifier |
| `Lineage.InputOrderAllowsRepeats` | delta-core-cpp/src/certificates/contracts.cpp:245-248 | a canonical input set with one ticket twice exists |
| `Lineage.VerifiedTicketsAreDistinct` | delta-core-cpp/src/certificates/verifier.cpp:186-213 | verified eligibility makes the input tickets pairwise distinct |
| `Lineage.PlanCoversAccepted` | delta-core-cpp/src/certificates/verifier.cpp:215-240 | a verified plan gives each accepted input exactly one bucket and one weight, and no other ticket either |
| `Lineage.RootMatchesMatrix` | delta-core-cpp/src/certificates/verifier.cpp:262-314 | an accepted root matches the required matrix cell by cell, without repeats, every shard named by its leaf and under the same three parents |
| `Lineage.RootPinsLineage` | delta-core-cpp/src/certificates/verifier.cpp:186-314 | two verified chains with one Merkle root have the same matrix, shards, plan, eligibility and input set, unless strings hashed for them collide |
| `Lineage.ApplyPinsLineage` | delta-core-cpp/src/certificates/verifier.cpp:316-344 | two accepted apply certificates for one candidate identifier have the same candidate and the same whole ancestry, unless strings hashed for them collide |
| `Lineage.SecondShardVoteConflicts` | delta-core-cpp/src/certificates/verifier.cpp:85-110 | a journal with a validator's vote for one shard certificate of a view takes its vote for another if and only if it is the same certificate |
| `Lineage.TwoShardsNeedFaults` | delta-core-cpp/src/certificates/verifier.cpp:85-156 | two verified shard certificates of one view with different identifiers need more than f validators that signed outside their journals |
| `Lineage.WideRootNeedsFaults` | delta-core-cpp/src/certificates/verifier.cpp:262-314 | so does an accepted root over two or more cells, unless two shard certificates collide |
| `Arithmetic.Compare` | delta-core-cpp/src/arithmetic.cpp:146-153 | limb comparison orders by signed value |
| `Arithmetic.AddUnsigned` | delta-core-cpp/src/arithmetic.cpp:40-44 | limb addition with carry is addition modulo 2^128 |
| `Arithmetic.Negate` | delta-core-cpp/src/arithmetic.cpp:56-60 | complement and add one is negation modulo 2^128 |
| `Arithmetic.CheckedAdd` | delta-core-cpp/src/arithmetic.cpp:155-163 | exact if and only if the sum fits 128 bits |
| `Arithmetic.CheckedAdd64` | delta-core-cpp/src/arithmetic.cpp:173-178 | exact if and only if the sum fits 64 bits |
| `Arithmetic.MultiplyMagnitude` | delta-core-cpp/src/arithmetic.cpp:72-93 | the shift-and-add loop on limbs computes its arithmetic specification |
| `Arithmetic.ShiftAddExact` | delta-core-cpp/src/arithmetic.cpp:72-93 | from any loop state: the exact total within the limit, the total less 2^128 in the unseen-carry case, a rejection otherwise |
| `Arithmetic.Multiply` | delta-core-cpp/src/arithmetic.cpp:165-171 | signs, limit and loop together compute the signed product function |
| `Arithmetic.MultiplyOutcome` | delta-core-cpp/src/arithmetic.cpp:165-171 | exact in range; out of range accepted if and only if the operands wrap unseen, and then wrong |
| `Arithmetic.RejectionsAreGenuine` | delta-core-cpp/src/arithmetic.cpp:72-93 | every rejection is a true overflow, and below 2^128 acceptance is exactness |
| `Arithmetic.MaximumTimesThree` | delta-core-cpp/src/arithmetic.cpp:79-81 | the largest Int128 times three is accepted as 2^127 − 3 |
| `Arithmetic.Narrow` | delta-core-cpp/src/arithmetic.cpp:125-137 | narrowing succeeds if and only if the value fits 64 bits, and keeps it |
| `Arithmetic.Multiply64Exact` | delta-core-cpp/src/arithmetic.cpp:180-182 | the 64-bit product is exact if and only if it fits |
| `Bounds.BoundOutcome` | delta-core-cpp/src/arithmetic.cpp:189-226 | a bound is granted exactly when the reported sum plus headroom is within the width |
| `Bounds.ProofOutcome` | delta-core-cpp/src/fixedpoint/bounds.cpp:99-129 | the same for a proof request, in terms of its largest product |
| `Bounds.TrustedBound` | delta-core-cpp/src/fixedpoint/bounds.cpp:99-129 | a validated proof whose product did not wrap bounds every sum it admits |
| `Bounds.FewContributionsAreTrusted` | delta-core-cpp/src/fixedpoint/bounds.cpp:99-129 | up to 2^49 contributions the product never wraps |
| `Bounds.UntrustedProofValidates` | delta-core-cpp/src/fixedpoint/bounds.cpp:99-129 | a proof for 2^53 + 1 contributions validates although its true bound exceeds 2^128 |
| `Bounds.DeclaredBoundsAreExact` | delta-core-cpp/src/fixedpoint/bounds.cpp:192-215 | the declared bounds of an accepted, trusted instance are the true products and sums, within the widths |
| `Bounds.DivideByTen` | delta-core-cpp/src/fixedpoint/bounds.cpp:45-54 | bit-by-bit long division yields quotient and remainder |
| `Bounds.DecimalOf` | delta-core-cpp/src/fixedpoint/bounds.cpp:36-59 | prints the canonical decimal of a non-negative 128-bit number |
| `DirectQ.BuildRow` | delta-core-cpp/src/fixedpoint/direct_q.cpp:119-131 | the coordinate loop over the copy computes the row, or its first error |
| `DirectQ.DirectQAccumulator.Validated` | delta-core-cpp/src/fixedpoint/direct_q.cpp:92-102 | an accepted instance takes every declared run if and only if its product did not wrap, and then its declared bounds are the true ones |
| `DirectQ.DirectQAccumulator.AddContribution` | delta-core-cpp/src/fixedpoint/direct_q.cpp:104-134 | adds one contribution to the fields; a rejected one changes nothing |
| `DirectQ.AcceptedIsExact` | delta-core-cpp/src/fixedpoint/direct_q.cpp:104-134 | any accepted run holds the exact sum of coefficient·q at every coordinate, and its count |
| `DirectQ.DeclaredIsAccepted` | delta-core-cpp/src/fixedpoint/direct_q.cpp:104-134 | under a true bound every run within the declared ranges is accepted, product by product and prefix by prefix |
| `DirectQ.AllDeclaredAcceptedIffTrusted` | delta-core-cpp/src/fixedpoint/direct_q.cpp:92-134 | for a validated proof, all declared runs are accepted if and only if the proof's product did not wrap |
| `DirectQ.UntrustedProofRejects` | delta-core-cpp/src/fixedpoint/direct_q.cpp:92-134 | a validated proof with a declared run that is rejected |
| `DirectQ.OrderDoesNotMatter` | delta-core-cpp/src/fixedpoint/direct_q.cpp:104-134 | any two accepted orders leave the same accumulator |
| `Apply.RoundHalfExact` | delta-core-cpp/src/apply/engine.cpp:111-138 | rounding is floor((2n+d)/(2d)) and rejects only d = 0 or INT64_MIN over 1 |
| `Apply.RoundHalfIsRound` | delta-core-cpp/src/apply/engine.cpp:111-138 | that is half-up rounding of the exact quotient |
| `Apply.CommonIsMultiple` | delta-core-cpp/src/apply/engine.cpp:77-87 | every denominator divides the common one |
| `Apply.WeightedCoordinate` | delta-core-cpp/src/apply/engine.cpp:73-107 | the two loops compute the weighted coordinate function |
| `Apply.WeightedExact` | delta-core-cpp/src/apply/engine.cpp:73-107 | when accepted, the coordinate is floor(Σ v·π + 1/2) over exact rationals, rounded once |
| `Apply.WeightedIgnoresOrder` | delta-core-cpp/src/apply/engine.cpp:73-107 | any two accepted orders of the domains agree |
| `Apply.NextCoordinateExact` | delta-core-cpp/src/apply/engine.cpp:173-182 | an accepted coordinate is the Nesterov step over the exact gradient with one rounding per scaling and no wrap-around |
| `Engine.ValuesHash` | delta-core-cpp/src/apply/engine.cpp:53-71 | the transcript loop hashes the printed vector |
| `Engine.EqualHashesEqualVectors` | delta-core-cpp/src/apply/engine.cpp:53-71 | equal vector hashes name equal vectors, unless the two transcripts collide |
| `Engine.ComputeVectors` | delta-core-cpp/src/apply/engine.cpp:151-182 | accepted exactly when shapes and domains match and every coordinate is accepted, with those coordinates |
| `Engine.ComputeCandidate` | delta-core-cpp/src/apply/engine.cpp:140-204 | accepted exactly when identifiers, profile, shapes, coverage, every coordinate and the candidate's own form and size pass, with that candidate |
| `Engine.CandidateFormMeans` | delta-core-cpp/src/apply/engine.cpp:184-203 | of the candidate's form only its context and the bound of 100,000 coordinates can fail |
| `Engine.CandidateIsExact` | delta-core-cpp/src/apply/engine.cpp:173-182 | the candidate's vectors are the exact Nesterov step coordinate by coordinate |
| `Shards.PlanShards` | delta-core-cpp/src/shards/plan.cpp:27-73 | succeeds exactly on canonical tables within the limits; the shards tile all elements in order, stay in their segment, are full except a segment's last, and number Σ ceil(count/per_shard) |
| `Shards.CutSegment` | delta-core-cpp/src/shards/plan.cpp:49-67 | one segment is cut exactly, or the count limit is truly exceeded |
| `Shards.ExactlyOneShard` | delta-core-cpp/src/shards/plan.cpp:27-73 | every element is in exactly one shard |
| `Pointer.CurrentPointerStore.Recovered` | delta-runtime-cpp/src/certificate_runtime.cpp:107-159 | opening checks the initial state, cuts a torn tail and reads the complete lines |
| `Pointer.CurrentPointerStore.AdvancePointer` | delta-runtime-cpp/src/certificate_runtime.cpp:161-217 | advance on state and file at every crash point |
| `Pointer.ReadLines` | delta-runtime-cpp/src/certificate_runtime.cpp:135-158 | the line loop computes the recovery function |
| `Pointer.AdvancesIffExtends` | delta-runtime-cpp/src/certificate_runtime.cpp:161-217 | an authorized command moves the pointer exactly when its ApplyQC is new and its record extends the state, by exactly one line |
| `Pointer.RecoveryIsExact` | delta-runtime-cpp/src/certificate_runtime.cpp:119-159 | complete lines followed by any newline-free tail recover to the state after the last line, and the file is cut back to it |
| `Pointer.ProperPrefixIsTorn` | delta-runtime-cpp/src/certificate_runtime.cpp:199-202 | every proper prefix of a line is such a tail |
| `Pointer.HeightsClimb` | delta-runtime-cpp/src/certificate_runtime.cpp:150-157 | heights strictly increase and each parent is the checkpoint before it |
| `Pointer.EveryRunRecovers` | delta-runtime-cpp/src/certificate_runtime.cpp:119-217 | after every run with crashes, recovery succeeds, the log is such a chain ending in the current state, and reopening again changes nothing |
| `Pointer.LastQcIsReplayed` | delta-runtime-cpp/src/certificate_runtime.cpp:179-187 | resubmitting the last ApplyQC is a replay that appends nothing |
| `PointerFaults.ContinuedOutcome` | delta-runtime-cpp/src/certificate_runtime.cpp:119-159 | behind any log, for every part of one accepted line (none to all) followed by another accepted line: the second is the state, the file is refused, or the second is the state exactly when it extends the first as well, unless two digests coincide |
| `PointerFaults.OpensIff` | delta-runtime-cpp/src/certificate_runtime.cpp:199-202 | so the store opens again if and only if nothing was left, or a whole line with a checkpoint equal to its own parent and a smaller height than the next |
| `PointerFaults.RunningStoreAcceptsBoth` | delta-runtime-cpp/src/certificate_runtime.cpp:161-217 | a command the store would accept is accepted behind any leftover too, and its line is glued to it |

## Left out

- SHA-256 itself, signatures, the authenticator, RFC 8785 serialisation and JSON schemas: the hash, the receipt check and the schema check are parameters.
- `Bounds.ValidateConcrete`: the metadata comparison and the content identity comparison are inputs, since they compare constants and one more printed JSON document.
- Files, directories, fsync, threads, futures and queues: a file is a byte or character sequence, or a list of records with the way it ends, and a request is one step.
- `RuntimeRuns.RecoveryTheorem`: runs of fewer than 2^64 steps, because the journal sequence is a 64-bit counter; an append that fails is a crash; a failed append after which the reactor runs on, and one more request, are in `WalFaults`, `RuntimeFaults` and `ValidatorFaults`; of longer such runs only that `RuntimeFaults.LeftoverIsNeverServed`.
- `Pointer.EveryRunRecovers`: a failed append is a crash; a store that runs on is in `PointerFaults`, for one further line.
- `Membership.EligibleIffDistinct`: existence for a set of one member is promised only where its JSON is at least 93 bytes below the size limit, because the certificate prints longer than the set.
- `LedgerRuns.RunKeepsInv`: execution identifiers are fresh at commit, which the code leaves to uuid4; the expected producer commit is the same on every reload.
- `GateRuns.RunKeepsInv`: the gate is a state machine of its locked blocks rather than one method, because other calls act between them; a restart that cannot open the file leaves the old process in place.
- Typed records other than Command, RoundState, Vote, EffectBatch and WalRecord, and the lookup of fields by name: after the field-set check the fields stand in schema order.
- The input ledger of `consensus.cpp`, seed, norm and timer verification, shard envelopes, piece distribution, adapter reduction and scheduling: they would add easier members of the same kinds.
- HTTP host, TLS, process spawning, audit redaction, FFI, user interface, fuzz drivers and compile-time mutants.
- Liveness, time-outs and fairness.
