/** The single-writer validator runtime: plan a request, append its frame, commit, expose.
    The pure validator core is a record of functions; ValidatorCore.dfy supplies the real one. */
module Runtime {
  import opened Base
  import opened Wal
  import P = Protocol
  import C = Consensus
  import T = Transition

  datatype Failure =
    | ParseFailed(parse: P.Error)
    | TransitionFailed(transition: T.Code)
    | VoteRefused(consensus: C.Code)
    | RuntimeFailed(code: ErrorCode)

  type Outcome<+X> = Result<X, Failure>

  /** The bytes and identifiers `core::transition::apply` returns. */
  datatype Applied = Applied(
    nextState: Bytes, effectBatch: Bytes, walRecord: Bytes,
    commandId: string, nextStateId: string, effectBatchId: string, walRecordId: string)

  /** What the reactor asks of the deterministic core. */
  datatype Core = Core(
    checkState: Bytes -> Outcome<()>,
    requestId: Bytes -> Outcome<string>,
    commandId: Bytes -> string,
    apply: (Bytes, Bytes) -> Outcome<Applied>,
    parseVote: Bytes -> Outcome<P.Vote>,
    voteId: Bytes -> string)

  datatype SubmitReceipt = SubmitReceipt(
    nextState: Bytes, effectBatch: Bytes, walRecord: Bytes,
    nextStateId: string, effectBatchId: string, walRecordId: string,
    sequence: u64, replay: bool)

  datatype VoteReceipt = VoteReceipt(voteId: string, sequence: u64, replay: bool)

  datatype CachedRequest = CachedRequest(commandId: string, receipt: SubmitReceipt)

  /** The reactor's fields. */
  datatype Memory = Memory(
    state: Bytes,
    sequence: u64,
    votes: seq<P.Vote>,
    voteSequences: map<string, u64>,
    requests: map<string, CachedRequest>)

  datatype Disk = Disk(wal: Bytes, snapshot: Option<Bytes>)

  /** Where the process dies; `written` bytes of the frame reached the file before it did. */
  datatype CrashPoint =
    | NoCrash | BeforeWalAppend | DuringWalAppend(written: nat) | AfterAppendBeforeDurability
    | AfterDurabilityBeforeCommit | AfterCommitBeforeEffectReturn | AfterEffectCopyBeforeReturn

  function Blank(initial: Bytes): Memory { Memory(initial, 0, [], map[], map[]) }

  function NextSequence(m: Memory): u64 { (m.sequence + 1) % TWO_64 }

  function Receipt(a: Applied, sequence: u64): SubmitReceipt {
    SubmitReceipt(a.nextState, a.effectBatch, a.walRecord, a.nextStateId, a.effectBatchId, a.walRecordId, sequence, false)
  }

  function Emplace(m: map<string, u64>, key: string, value: u64): map<string, u64> {
    if key in m then m else m[key := value]
  }

  // ----- planning a request ------------------------------------------------

  datatype Plan<R> = Answer(answer: R) | Append(entry: JournalEntry, next: Memory, reply: R)

  /** `process_submit` up to the append. */
  function PlanSubmit(core: Core, m: Memory, command: Bytes): Outcome<Plan<SubmitReceipt>> {
    var request :- core.requestId(command);
    if request in m.requests then
      var cached := m.requests[request];
      var _ :- Require(cached.commandId == core.commandId(command), RuntimeFailed(RequestConflict));
      Ok(Answer(cached.receipt.(replay := true)))
    else
      var a :- core.apply(m.state, command);
      var sequence := NextSequence(m);
      var receipt := Receipt(a, sequence);
      Ok(Append(
        JournalEntry(sequence, Transition, command, a.nextState, a.effectBatch, a.walRecord),
        m.(state := a.nextState, sequence := sequence,
           requests := m.requests[request := CachedRequest(core.commandId(command), receipt)]),
        receipt))
  }

  function Recorded(votes: seq<P.Vote>, vote: P.Vote): Outcome<C.Outcome> {
    match C.Record(votes, vote) case Ok(o) => Ok(o) case Err(e) => Err(VoteRefused(e))
  }

  /** `process_vote` up to the append. */
  function PlanVote(core: Core, m: Memory, bytes: Bytes): Outcome<Plan<VoteReceipt>> {
    var vote :- core.parseVote(bytes);
    var id := core.voteId(bytes);
    var o :- Recorded(m.votes, vote);
    if o.disposition == C.Replay then
      var _ :- Require(id in m.voteSequences, RuntimeFailed(RecoveryMismatch));
      Ok(Answer(VoteReceipt(id, m.voteSequences[id], true)))
    else
      var sequence := NextSequence(m);
      Ok(Append(
        JournalEntry(sequence, Vote, bytes, [], [], []),
        m.(votes := o.votes, voteSequences := Emplace(m.voteSequences, id, sequence), sequence := sequence),
        VoteReceipt(id, sequence, false)))
  }

  // ----- one request with its crash points ----------------------------------

  datatype Stepped<R> = Stepped(memory: Memory, disk: Disk, crashed: bool, reply: Outcome<R>)

  function Crashed<R>(m: Memory, disk: Disk): Stepped<R> {
    Stepped(m, disk, true, Err(RuntimeFailed(SimulatedCrash)))
  }

  /** Append, cross the durability barrier, commit, then expose. */
  function Perform<R>(sha: Bytes -> Digest, m: Memory, disk: Disk, plan: Outcome<Plan<R>>, crash: CrashPoint): Stepped<R> {
    match plan
    case Err(e) => Stepped(m, disk, false, Err(e))
    case Ok(Answer(reply)) => Stepped(m, disk, false, Ok(reply))
    case Ok(Append(entry, next, reply)) =>
      if crash == BeforeWalAppend || crash == AfterAppendBeforeDurability then Crashed(m, disk)
      else
        match EncodeEntry(sha, entry)
        case Err(e) => Stepped(m, disk, false, Err(RuntimeFailed(e)))
        case Ok(frame) =>
          if crash.DuringWalAppend? && crash.written < |frame| then
            Crashed(m, disk.(wal := disk.wal + frame[..crash.written]))
          else
            var durable := disk.(wal := disk.wal + frame);
            match crash
            case NoCrash => Stepped(next, durable, false, Ok(reply))
            case DuringWalAppend(_) => Crashed(m, durable)
            case AfterDurabilityBeforeCommit => Crashed(m, durable)
            case _ => Crashed(next, durable)
  }

  function Submit(core: Core, sha: Bytes -> Digest, m: Memory, disk: Disk, command: Bytes, crash: CrashPoint): Stepped<SubmitReceipt> {
    Perform(sha, m, disk, PlanSubmit(core, m, command), crash)
  }

  function CastVote(core: Core, sha: Bytes -> Digest, m: Memory, disk: Disk, vote: Bytes, crash: CrashPoint): Stepped<VoteReceipt> {
    Perform(sha, m, disk, PlanVote(core, m, vote), crash)
  }

  /** `process_snapshot`: the new file replaces the old one atomically. */
  function TakeSnapshot(sha: Bytes -> Digest, m: Memory, disk: Disk): Outcome<Disk> {
    match EncodeSnapshot(sha, Snapshot(m.sequence, m.state))
    case Ok(b) => Ok(disk.(snapshot := Some(b)))
    case Err(e) => Err(RuntimeFailed(e))
  }

  // ----- recovery ----------------------------------------------------------

  /** What recovery does with one durable entry. */
  function ReplayEntry(core: Core, m: Memory, entry: JournalEntry): Outcome<Memory> {
    var _ :- Require(entry.sequence == NextSequence(m), RuntimeFailed(SequenceInvalid));
    match entry.kind
    case Transition =>
      var request :- core.requestId(entry.commandOrVote);
      var a :- core.apply(m.state, entry.commandOrVote);
      var _ :- Require(
        a.nextState == entry.nextState && a.effectBatch == entry.effectBatch && a.walRecord == entry.walRecord,
        RuntimeFailed(RecoveryMismatch));
      var _ :- Require(request !in m.requests, RuntimeFailed(RecoveryMismatch));
      Ok(m.(state := entry.nextState, sequence := entry.sequence,
            requests := m.requests[request := CachedRequest(a.commandId, Receipt(a, entry.sequence))]))
    case Vote =>
      var vote :- core.parseVote(entry.commandOrVote);
      var o :- Recorded(m.votes, vote);
      var _ :- Require(o.disposition == C.Recorded, RuntimeFailed(RecoveryMismatch));
      Ok(m.(votes := o.votes, sequence := entry.sequence,
            voteSequences := Emplace(m.voteSequences, core.voteId(entry.commandOrVote), entry.sequence)))
  }

  /** Does the snapshot, if it is of this point, agree with the replayed state? */
  predicate SnapshotAgrees(snapshot: Option<Snapshot>, m: Memory) {
    snapshot.Some? && snapshot.value.journalSequence == m.sequence ==> snapshot.value.stateBytes == m.state
  }

  function Replay(core: Core, snapshot: Option<Snapshot>, m: Memory, entries: seq<JournalEntry>): Outcome<Memory>
    decreases |entries|
  {
    if entries == [] then Ok(m)
    else
      var next :- ReplayEntry(core, m, entries[0]);
      var _ :- Require(SnapshotAgrees(snapshot, next), RuntimeFailed(SnapshotCorrupt));
      Replay(core, snapshot, next, entries[1..])
  }

  /** The snapshot is of the initial state or of some entry in the log. */
  predicate SnapshotMatched(snapshot: Option<Snapshot>, entries: seq<JournalEntry>) {
    || snapshot == None
    || snapshot.value.journalSequence == 0
    || exists i :: 0 <= i < |entries| && entries[i].sequence == snapshot.value.journalSequence
  }

  function LoadSnapshot(core: Core, sha: Bytes -> Digest, disk: Disk): Outcome<Option<Snapshot>> {
    match disk.snapshot
    case None => Ok(None)
    case Some(b) =>
      match ReadSnapshot(sha, b)
      case Err(e) => Err(RuntimeFailed(e))
      case Ok(s) =>
        var _ :- core.checkState(s.stateBytes);
        Ok(Some(s))
  }

  datatype Reopened = Reopened(memory: Memory, disk: Disk)

  /** `Runtime::Impl::recover`: cut the torn tail, replay every entry, check the snapshot. */
  function Reopen(core: Core, sha: Bytes -> Digest, initial: Bytes, disk: Disk): Outcome<Reopened> {
    match Recover(sha, disk.wal)
    case Err(e) => Err(RuntimeFailed(e))
    case Ok(log) =>
      var snapshot :- LoadSnapshot(core, sha, disk);
      var m :- Replay(core, snapshot, Blank(initial), log.entries);
      var _ :- Require(SnapshotMatched(snapshot, log.entries), RuntimeFailed(SnapshotCorrupt));
      var _ :- Require(snapshot.Some? ==> snapshot.value.journalSequence <= |log.entries|, RuntimeFailed(SnapshotCorrupt));
      Ok(Reopened(m, disk.(wal := disk.wal[..log.durablePrefix])))
  }

  // ----- the reactor object -------------------------------------------------

  /** The two files, shared by successive runtime objects. */
  class Files {
    var disk: Disk
    constructor ()
      ensures disk == Disk([], None)
    {
      disk := Disk([], None);
    }
  }

  class Reactor {
    const core: Core
    const sha: Bytes -> Digest
    const files: Files
    var memory: Memory
    var accepting: bool

    constructor (core: Core, sha: Bytes -> Digest, files: Files, initial: Bytes)
      ensures this.core == core && this.sha == sha && this.files == files
      ensures memory == Blank(initial) && !accepting
    {
      this.core := core;
      this.sha := sha;
      this.files := files;
      memory := Blank(initial);
      accepting := false;
    }

    /** The recovery loop; reports whether the snapshot's entry was met. */
    method ReplayEntries(snapshot: Option<Snapshot>, entries: seq<JournalEntry>) returns (r: Outcome<bool>)
      modifies this`memory
      ensures match Replay(core, snapshot, old(memory), entries)
              case Ok(m) => r == Ok(SnapshotMatched(snapshot, entries)) && memory == m
              case Err(e) => r == Err(e)
    {
      hide ReplayEntry;
      ghost var start := memory;
      var matched := snapshot == None || snapshot.value.journalSequence == 0;
      assert entries[0..] == entries;
      for index := 0 to |entries|
        invariant Replay(core, snapshot, start, entries) == Replay(core, snapshot, memory, entries[index..])
        invariant matched <==> SnapshotMatched(snapshot, entries[..index])
      {
        var entry := entries[index];
        assert entries[index..][0] == entry && entries[index..][1..] == entries[index + 1..];
        assert entries[..index + 1] == entries[..index] + [entry];
        var next := ReplayEntry(core, memory, entry);
        if next.Err? { return Err(next.error); }
        ReplayEntrySequence(core, memory, entry);
        if snapshot.Some? && entry.sequence == snapshot.value.journalSequence {
          if next.value.state != snapshot.value.stateBytes { return Err(RuntimeFailed(SnapshotCorrupt)); }
          matched := true;
        }
        memory := next.value;
      }
      assert entries[..|entries|] == entries;
      r := Ok(matched);
    }

    /** `recover`; requests are accepted only after it succeeds. */
    method RecoverState() returns (r: Outcome<()>)
      requires !accepting && memory == Blank(memory.state)
      modifies this, files
      ensures match Reopen(core, sha, old(memory.state), old(files.disk))
              case Ok(done) => r == Ok(()) && accepting && memory == done.memory && files.disk == done.disk
              case Err(e) => r == Err(e) && !accepting
    {
      hide Recover, ReadSnapshot, Replay, SnapshotMatched;
      var recovered := RecoverFile(sha, files.disk.wal);
      if recovered.Err? { return Err(RuntimeFailed(recovered.error)); }
      var log := recovered.value;
      NothingTorn(sha, files.disk.wal);
      if log.tornTail {
        files.disk := files.disk.(wal := files.disk.wal[..log.durablePrefix]);
      }
      var snapshot := LoadSnapshot(core, sha, files.disk);
      if snapshot.Err? { return Err(snapshot.error); }
      var matched := ReplayEntries(snapshot.value, log.entries);
      if matched.Err? { return Err(matched.error); }
      if !matched.value { return Err(RuntimeFailed(SnapshotCorrupt)); }
      if snapshot.value.Some? && snapshot.value.value.journalSequence > |log.entries| {
        return Err(RuntimeFailed(SnapshotCorrupt));
      }
      accepting := true;
      r := Ok(());
    }

    /** `append_and_sync`, returning whether the process survived it. */
    method AppendAndSync(entry: JournalEntry, crash: CrashPoint) returns (r: Outcome<()>)
      modifies files
      ensures match EncodeEntry(sha, entry)
              case Err(e) => r == Err(RuntimeFailed(e)) && files.disk == old(files.disk)
              case Ok(frame) =>
                if crash.DuringWalAppend? && crash.written < |frame|
                then r == Err(RuntimeFailed(SimulatedCrash))
                     && files.disk == old(files.disk).(wal := old(files.disk).wal + frame[..crash.written])
                else r == (if crash.DuringWalAppend? then Err(RuntimeFailed(SimulatedCrash)) else Ok(()))
                     && files.disk == old(files.disk).(wal := old(files.disk).wal + frame)
    {
      var built := BuildFrame(sha, entry);
      if built.Err? { return Err(RuntimeFailed(built.error)); }
      var frame := built.value;
      if crash.DuringWalAppend? && crash.written < |frame| {
        files.disk := files.disk.(wal := files.disk.wal + frame[..crash.written]);
        return Err(RuntimeFailed(SimulatedCrash));
      }
      files.disk := files.disk.(wal := files.disk.wal + frame);
      r := if crash.DuringWalAppend? then Err(RuntimeFailed(SimulatedCrash)) else Ok(());
    }

    method ProcessSubmit(command: Bytes, crash: CrashPoint) returns (r: Outcome<SubmitReceipt>)
      requires accepting
      modifies this, files
      ensures var s := Submit(core, sha, old(memory), old(files.disk), command, crash);
              memory == s.memory && files.disk == s.disk && accepting == !s.crashed && r == s.reply
    {
      hide EncodeEntry;
      var request := core.requestId(command);
      if request.Err? { return Err(request.error); }
      if request.value in memory.requests {
        var cached := memory.requests[request.value];
        if cached.commandId != core.commandId(command) { return Err(RuntimeFailed(RequestConflict)); }
        return Ok(cached.receipt.(replay := true));
      }
      var result := core.apply(memory.state, command);
      if result.Err? { return Err(result.error); }
      var a := result.value;
      var sequence := NextSequence(memory);
      var entry := JournalEntry(sequence, Transition, command, a.nextState, a.effectBatch, a.walRecord);
      if crash == BeforeWalAppend || crash == AfterAppendBeforeDurability {
        accepting := false;
        return Err(RuntimeFailed(SimulatedCrash));
      }
      var appended := AppendAndSync(entry, crash);
      if appended.Err? {
        accepting := appended.error != RuntimeFailed(SimulatedCrash);
        EncodeFailsOnlyOnSize(sha, entry);
        return Err(appended.error);
      }
      if crash == AfterDurabilityBeforeCommit {
        accepting := false;
        return Err(RuntimeFailed(SimulatedCrash));
      }
      var receipt := Receipt(a, sequence);
      memory := memory.(state := a.nextState, sequence := sequence,
                        requests := memory.requests[request.value := CachedRequest(core.commandId(command), receipt)]);
      if crash == AfterCommitBeforeEffectReturn || crash == AfterEffectCopyBeforeReturn {
        accepting := false;
        return Err(RuntimeFailed(SimulatedCrash));
      }
      r := Ok(receipt);
    }

    method ProcessVote(bytes: Bytes, crash: CrashPoint) returns (r: Outcome<VoteReceipt>)
      requires accepting
      modifies this, files
      ensures var s := CastVote(core, sha, old(memory), old(files.disk), bytes, crash);
              memory == s.memory && files.disk == s.disk && accepting == !s.crashed && r == s.reply
    {
      hide EncodeEntry, C.Record;
      var vote := core.parseVote(bytes);
      if vote.Err? { return Err(vote.error); }
      var id := core.voteId(bytes);
      var candidate := Recorded(memory.votes, vote.value);
      if candidate.Err? { return Err(candidate.error); }
      if candidate.value.disposition == C.Replay {
        if id !in memory.voteSequences { return Err(RuntimeFailed(RecoveryMismatch)); }
        return Ok(VoteReceipt(id, memory.voteSequences[id], true));
      }
      var sequence := NextSequence(memory);
      var entry := JournalEntry(sequence, Vote, bytes, [], [], []);
      if crash == BeforeWalAppend || crash == AfterAppendBeforeDurability {
        accepting := false;
        return Err(RuntimeFailed(SimulatedCrash));
      }
      var appended := AppendAndSync(entry, crash);
      if appended.Err? {
        accepting := appended.error != RuntimeFailed(SimulatedCrash);
        EncodeFailsOnlyOnSize(sha, entry);
        return Err(appended.error);
      }
      if crash == AfterDurabilityBeforeCommit {
        accepting := false;
        return Err(RuntimeFailed(SimulatedCrash));
      }
      memory := memory.(votes := candidate.value.votes, sequence := sequence,
                        voteSequences := Emplace(memory.voteSequences, id, sequence));
      if crash == AfterCommitBeforeEffectReturn || crash == AfterEffectCopyBeforeReturn {
        accepting := false;
        return Err(RuntimeFailed(SimulatedCrash));
      }
      r := Ok(VoteReceipt(id, sequence, false));
    }

    method ProcessSnapshot() returns (r: Outcome<()>)
      requires accepting
      modifies files
      ensures match TakeSnapshot(sha, memory, old(files.disk))
              case Ok(disk) => r == Ok(()) && files.disk == disk
              case Err(e) => r == Err(e) && files.disk == old(files.disk)
    {
      var encoded := EncodeSnapshot(sha, Snapshot(memory.sequence, memory.state));
      if encoded.Err? { return Err(RuntimeFailed(encoded.error)); }
      files.disk := files.disk.(snapshot := Some(encoded.value));
      r := Ok(());
    }
  }

  lemma NothingTorn(sha: Bytes -> Digest, b: Bytes)
    requires Recover(sha, b).Ok?
    ensures !Recover(sha, b).value.tornTail ==> b[..Recover(sha, b).value.durablePrefix] == b
  {
    hide EncodeAll, Recover;
    RecoverSound(sha, b);
  }

  lemma ReplayEntrySequence(core: Core, m: Memory, entry: JournalEntry)
    requires ReplayEntry(core, m, entry).Ok?
    ensures ReplayEntry(core, m, entry).value.sequence == entry.sequence
  {
  }

  lemma EncodeFailsOnlyOnSize(sha: Bytes -> Digest, e: JournalEntry)
    ensures EncodeEntry(sha, e).Err? ==> EncodeEntry(sha, e).error == IoError
  {
  }
}
