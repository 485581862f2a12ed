/** Whole runs of the runtime: any sequence of submissions, votes, snapshots, crashes and
    reopenings, with the process dying at any crash point of any request. */
module RuntimeRuns {
  import opened Base
  import opened Wal
  import opened Runtime
  import C = Consensus
  import P = Protocol

  /** What the runtime relies on the core for. */
  ghost predicate CoreOk(core: Core) {
    && (forall s, c :: core.apply(s, c).Ok? ==> CommandOk(core, c, core.apply(s, c).value))
    && (forall b :: core.parseVote(b).Ok? ==> b != [] && MINIMUM_FRAME_SIZE + |b| <= MAXIMUM_FRAME_SIZE)
  }

  predicate CommandOk(core: Core, c: Bytes, a: Applied) {
    && core.requestId(c).Ok? && a.commandId == core.commandId(c) && core.checkState(a.nextState).Ok?
    && c != [] && a.nextState != [] && a.effectBatch != [] && a.walRecord != []
    && MINIMUM_FRAME_SIZE + |c| + |a.nextState| + |a.effectBatch| + |a.walRecord| <= MAXIMUM_FRAME_SIZE
  }

  datatype Action = DoSubmit(command: Bytes, crash: CrashPoint) | DoVote(vote: Bytes, crash: CrashPoint)
                  | DoSnapshot | Die | DoReopen

  /** Files, the live process if there is one, and the history the claims are about: the entries
      whose frames became durable and the receipts callers have seen. */
  datatype System = System(
    disk: Disk,
    memory: Option<Memory>,
    durable: seq<JournalEntry>,
    submits: set<(Bytes, SubmitReceipt)>,
    votes: set<(Bytes, VoteReceipt)>)

  function Start(initial: Bytes): System { System(Disk([], None), Some(Blank(initial)), [], {}, {}) }

  /** The entry that a performed plan leaves complete in the file, if any. */
  function Durably<R>(sha: Bytes -> Digest, plan: Outcome<Plan<R>>, crash: CrashPoint): seq<JournalEntry> {
    if plan.Ok? && plan.value.Append? then
      match EncodeEntry(sha, plan.value.entry)
      case Err(_) => []
      case Ok(frame) =>
        match crash
        case BeforeWalAppend => []
        case AfterAppendBeforeDurability => []
        case DuringWalAppend(written) => if written < |frame| then [] else [plan.value.entry]
        case _ => [plan.value.entry]
    else []
  }

  function Live<R>(s: Stepped<R>): Option<Memory> { if s.crashed then None else Some(s.memory) }

  function Act(core: Core, sha: Bytes -> Digest, initial: Bytes, s: System, action: Action): System {
    match s.memory
    case None =>
      if action != DoReopen then s
      else
        (match Reopen(core, sha, initial, s.disk)
         case Ok(done) => s.(disk := done.disk, memory := Some(done.memory))
         case Err(_) => s)
    case Some(m) =>
      match action
      case DoSubmit(command, crash) =>
        var plan := PlanSubmit(core, m, command);
        var step := Perform(sha, m, s.disk, plan, crash);
        s.(disk := step.disk, memory := Live(step), durable := s.durable + Durably(sha, plan, crash),
           submits := s.submits + if step.reply.Ok? then {(command, step.reply.value)} else {})
      case DoVote(vote, crash) =>
        var plan := PlanVote(core, m, vote);
        var step := Perform(sha, m, s.disk, plan, crash);
        s.(disk := step.disk, memory := Live(step), durable := s.durable + Durably(sha, plan, crash),
           votes := s.votes + if step.reply.Ok? then {(vote, step.reply.value)} else {})
      case DoSnapshot =>
        (match TakeSnapshot(sha, m, s.disk) case Ok(disk) => s.(disk := disk) case Err(_) => s)
      case Die => s.(memory := None)
      case DoReopen => s
  }

  function Run(core: Core, sha: Bytes -> Digest, initial: Bytes, actions: seq<Action>): System {
    if actions == [] then Start(initial)
    else Act(core, sha, initial, Run(core, sha, initial, actions[..|actions| - 1]), actions[|actions| - 1])
  }

  function CastVotes(actions: seq<Action>): set<Bytes> {
    set i | 0 <= i < |actions| && actions[i].DoVote? :: actions[i].vote
  }

  /** No two distinct vote frames of the run share a content identifier. */
  ghost predicate DistinctVoteIds(core: Core, votes: set<Bytes>) {
    forall x, y :: x in votes && y in votes && core.voteId(x) == core.voteId(y) ==> x == y
  }

  // ----- replay ------------------------------------------------------------

  /** The state that the durable entries alone determine. */
  function Replayed(core: Core, initial: Bytes, entries: seq<JournalEntry>): Outcome<Memory> {
    Replay(core, None, Blank(initial), entries)
  }

  lemma {:induction false} ReplaySplits(core: Core, snapshot: Option<Snapshot>, m: Memory, first: seq<JournalEntry>, more: seq<JournalEntry>)
    requires Replay(core, snapshot, m, first).Ok?
    ensures Replay(core, snapshot, m, first + more) == Replay(core, snapshot, Replay(core, snapshot, m, first).value, more)
    decreases |first|
  {
    hide ReplayEntry, SnapshotAgrees;
    if first == [] {
      assert first + more == more;
    } else {
      assert (first + more)[1..] == first[1..] + more;
      ReplaySplits(core, snapshot, ReplayEntry(core, m, first[0]).value, first[1..], more);
    }
  }

  lemma ReplayAppend(core: Core, m: Memory, entries: seq<JournalEntry>, entry: JournalEntry)
    requires Replay(core, None, m, entries).Ok?
    ensures Replay(core, None, m, entries + [entry]) == ReplayEntry(core, Replay(core, None, m, entries).value, entry)
  {
    hide ReplayEntry;
    ReplaySplits(core, None, m, entries, [entry]);
    var last := Replay(core, None, m, entries).value;
    assert [entry][1..] == [];
    assert Replay(core, None, last, [entry]) == ReplayEntry(core, last, entry);
  }

  lemma {:induction false} ReplayPrefix(core: Core, m: Memory, entries: seq<JournalEntry>, p: nat)
    requires Replay(core, None, m, entries).Ok? && p <= |entries|
    ensures Replay(core, None, m, entries[..p]).Ok?
    decreases p
  {
    hide ReplayEntry;
    if p > 0 {
      ReplayPrefix(core, ReplayEntry(core, m, entries[0]).value, entries[1..], p - 1);
      assert entries[..p][1..] == entries[1..][..p - 1];
    }
  }

  /** What replay has established about the memory it returns. */
  ghost predicate MemoryOk(core: Core, m: Memory, entries: seq<JournalEntry>) {
    && C.SortedVotes(m.votes)
    && (|entries| < TWO_64 ==> m.sequence == |entries|)
    && core.checkState(m.state).Ok?
    && (forall i :: 0 <= i < |entries| && entries[i].kind == Vote ==>
          && core.parseVote(entries[i].commandOrVote).Ok? && core.parseVote(entries[i].commandOrVote).value in m.votes
          && core.voteId(entries[i].commandOrVote) in m.voteSequences)
    && (forall id :: id in m.voteSequences ==>
          exists i :: 0 <= i < |entries| && entries[i].kind == Vote && core.voteId(entries[i].commandOrVote) == id)
  }

  lemma EntryKeepsMemory(core: Core, m: Memory, entries: seq<JournalEntry>, entry: JournalEntry)
    requires CoreOk(core) && MemoryOk(core, m, entries) && ReplayEntry(core, m, entry).Ok?
    ensures MemoryOk(core, ReplayEntry(core, m, entry).value, entries + [entry])
  {
    hide C.Record, C.SortedVotes;
    var next := ReplayEntry(core, m, entry).value;
    var all := entries + [entry];
    if entry.kind == Vote {
      C.RecordKeepsSorted(m.votes, core.parseVote(entry.commandOrVote).value);
    }
    forall id | id in next.voteSequences
      ensures exists i :: 0 <= i < |all| && all[i].kind == Vote && core.voteId(all[i].commandOrVote) == id
    {
      if id in m.voteSequences {
        KnownStays(core, entries, entry, id);
      } else {
        assert all[|entries|] == entry;
      }
    }
  }

  lemma KnownStays(core: Core, entries: seq<JournalEntry>, entry: JournalEntry, id: string)
    requires exists i :: 0 <= i < |entries| && entries[i].kind == Vote && core.voteId(entries[i].commandOrVote) == id
    ensures var all := entries + [entry];
            exists i :: 0 <= i < |all| && all[i].kind == Vote && core.voteId(all[i].commandOrVote) == id
  {
    var i :| 0 <= i < |entries| && entries[i].kind == Vote && core.voteId(entries[i].commandOrVote) == id;
    assert (entries + [entry])[i] == entries[i];
  }

  lemma {:induction false} ReplayKeepsMemory(core: Core, initial: Bytes, entries: seq<JournalEntry>)
    requires CoreOk(core) && core.checkState(initial).Ok? && Replayed(core, initial, entries).Ok?
    ensures MemoryOk(core, Replayed(core, initial, entries).value, entries)
  {
    hide CoreOk, MemoryOk, ReplayEntry, Replay;
    if entries == [] {
      BlankIsOk(core, initial);
    } else {
      var front, last := entries[..|entries| - 1], entries[|entries| - 1];
      assert entries == front + [last];
      ReplayPrefix(core, Blank(initial), entries, |front|);
      ReplayKeepsMemory(core, initial, front);
      ReplayAppend(core, Blank(initial), front, last);
      EntryKeepsMemory(core, Replayed(core, initial, front).value, front, last);
    }
  }

  lemma BlankIsOk(core: Core, initial: Bytes)
    requires core.checkState(initial).Ok?
    ensures Replayed(core, initial, []) == Ok(Blank(initial)) && MemoryOk(core, Blank(initial), [])
  {
  }

  lemma SequencesCount(core: Core, initial: Bytes, entries: seq<JournalEntry>, i: nat)
    requires CoreOk(core) && core.checkState(initial).Ok? && Replayed(core, initial, entries).Ok?
    requires i < |entries| < TWO_64
    ensures entries[i].sequence == i + 1
  {
    hide CoreOk, Replay;
    ReplayPrefix(core, Blank(initial), entries, i);
    ReplayPrefix(core, Blank(initial), entries, i + 1);
    assert entries[..i + 1] == entries[..i] + [entries[i]];
    ReplayAppend(core, Blank(initial), entries[..i], entries[i]);
    ReplayKeepsMemory(core, initial, entries[..i]);
  }

  // ----- online commit is replay -------------------------------------------

  /** Committing a planned request does to memory exactly what recovery does with its entry. */
  lemma SubmitIsReplay(core: Core, m: Memory, command: Bytes)
    requires CoreOk(core) && PlanSubmit(core, m, command).Ok? && PlanSubmit(core, m, command).value.Append?
    ensures var p := PlanSubmit(core, m, command).value;
            Recordable(p.entry) && ReplayEntry(core, m, p.entry) == Ok(p.next)
  {
    var a := core.apply(m.state, command).value;
    assert CommandOk(core, command, a);
  }

  lemma VoteIsReplay(core: Core, m: Memory, vote: Bytes)
    requires CoreOk(core) && PlanVote(core, m, vote).Ok? && PlanVote(core, m, vote).value.Append?
    ensures var p := PlanVote(core, m, vote).value;
            Recordable(p.entry) && ReplayEntry(core, m, p.entry) == Ok(p.next)
  {
    hide C.Record;
  }

  // ----- the invariant -----------------------------------------------------

  /** The file of a dead process: the durable frames and possibly part of one more. */
  ghost predicate TornLog(sha: Bytes -> Digest, entries: seq<JournalEntry>, wal: Bytes)
    requires AllRecordable(entries)
  {
    exists next: JournalEntry, torn: Bytes :: Recordable(next) && torn < Frame(sha, next) && wal == EncodeAll(sha, entries) + torn
  }

  ghost predicate SnapshotOf(core: Core, sha: Bytes -> Digest, initial: Bytes, entries: seq<JournalEntry>, b: Bytes, k: nat) {
    && k <= |entries| && k < TWO_64
    && Replayed(core, initial, entries[..k]).Ok?
    && ReadSnapshot(sha, b) == Ok(Snapshot(k, Replayed(core, initial, entries[..k]).value.state))
  }

  ghost predicate SnapshotOk(core: Core, sha: Bytes -> Digest, initial: Bytes, entries: seq<JournalEntry>, file: Option<Bytes>) {
    file == None || exists k :: SnapshotOf(core, sha, initial, entries, file.value, k)
  }

  ghost predicate LogInv(core: Core, sha: Bytes -> Digest, initial: Bytes, disk: Disk, memory: Option<Memory>, durable: seq<JournalEntry>) {
    && AllRecordable(durable)
    && Replayed(core, initial, durable).Ok?
    && (match memory
        case Some(m) => m == Replayed(core, initial, durable).value && disk.wal == EncodeAll(sha, durable)
        case None => TornLog(sha, durable, disk.wal))
    && SnapshotOk(core, sha, initial, durable, disk.snapshot)
  }

  lemma SnapshotSurvives(core: Core, sha: Bytes -> Digest, initial: Bytes, entries: seq<JournalEntry>, entry: JournalEntry, file: Option<Bytes>)
    requires SnapshotOk(core, sha, initial, entries, file)
    ensures SnapshotOk(core, sha, initial, entries + [entry], file)
  {
    hide Replayed, ReadSnapshot;
    if file.Some? {
      var k: nat :| SnapshotOf(core, sha, initial, entries, file.value, k);
      assert (entries + [entry])[..k] == entries[..k];
      assert SnapshotOf(core, sha, initial, entries + [entry], file.value, k);
    }
  }

  lemma NoTear(sha: Bytes -> Digest, entries: seq<JournalEntry>)
    requires AllRecordable(entries)
    ensures TornLog(sha, entries, EncodeAll(sha, entries))
  {
    hide Frame, EncodeAll, EncodeEntry;
    var some := JournalEntry(1, Vote, [0], [], [], []);
    var none: Bytes := [];
    assert Recordable(some);
    assert none < Frame(sha, some);
    assert EncodeAll(sha, entries) == EncodeAll(sha, entries) + none;
  }

  lemma PerformKeepsLog<R>(core: Core, sha: Bytes -> Digest, initial: Bytes, m: Memory, disk: Disk,
                           durable: seq<JournalEntry>, plan: Outcome<Plan<R>>, crash: CrashPoint)
    requires LogInv(core, sha, initial, disk, Some(m), durable)
    requires plan.Ok? && plan.value.Append? ==>
               Recordable(plan.value.entry) && ReplayEntry(core, m, plan.value.entry) == Ok(plan.value.next)
    ensures var step := Perform(sha, m, disk, plan, crash);
            LogInv(core, sha, initial, step.disk, Live(step), durable + Durably(sha, plan, crash))
  {
    hide Replay, ReplayEntry, EncodeAll, EncodeEntry, SnapshotOf, Recordable, Frame;
    assert durable + [] == durable;
    NoTear(sha, durable);
    if plan.Ok? && plan.value.Append? {
      var entry := plan.value.entry;
      var frame := Frame(sha, entry);
      ReplayAppend(core, Blank(initial), durable, entry);
      EncodeAllAppend(sha, durable, entry);
      SnapshotSurvives(core, sha, initial, durable, entry, disk.snapshot);
      NoTear(sha, durable + [entry]);
      if crash.DuringWalAppend? && crash.written < |frame| {
        assert frame[..crash.written] < frame;
      }
    }
  }

  /** The checked replay of a reopened log returns what the plain replay returns. */
  lemma {:induction false} GoodSnapshotIsTransparent(core: Core, snapshot: Snapshot, m: Memory, entries: seq<JournalEntry>)
    requires Replay(core, None, m, entries).Ok?
    requires forall p :: 0 < p <= |entries| && Replay(core, None, m, entries[..p]).Ok? ==>
               SnapshotAgrees(Some(snapshot), Replay(core, None, m, entries[..p]).value)
    ensures Replay(core, Some(snapshot), m, entries) == Replay(core, None, m, entries)
    decreases |entries|
  {
    hide ReplayEntry, SnapshotAgrees;
    if entries != [] {
      var next := ReplayEntry(core, m, entries[0]).value;
      assert SnapshotAgrees(None, next) by { NoSnapshotAgrees(next); }
      assert entries[..1][1..] == [];
      assert Replay(core, None, m, entries[..1]) == Ok(next);
      forall p | 0 < p <= |entries[1..]| && Replay(core, None, next, entries[1..][..p]).Ok?
        ensures SnapshotAgrees(Some(snapshot), Replay(core, None, next, entries[1..][..p]).value)
      {
        assert entries[..p + 1][1..] == entries[1..][..p];
        assert Replay(core, None, m, entries[..p + 1]) == Replay(core, None, next, entries[1..][..p]);
      }
      GoodSnapshotIsTransparent(core, snapshot, next, entries[1..]);
    }
  }

  lemma NoSnapshotAgrees(m: Memory)
    ensures SnapshotAgrees(None, m)
  {
  }

  lemma SnapshotReplay(core: Core, sha: Bytes -> Digest, initial: Bytes, entries: seq<JournalEntry>, b: Bytes, k: nat)
    requires CoreOk(core) && core.checkState(initial).Ok? && |entries| < TWO_64
    requires Replayed(core, initial, entries).Ok? && SnapshotOf(core, sha, initial, entries, b, k)
    ensures var s := ReadSnapshot(sha, b).value;
            && core.checkState(s.stateBytes).Ok?
            && Replay(core, Some(s), Blank(initial), entries) == Replayed(core, initial, entries)
            && SnapshotMatched(Some(s), entries) && s.journalSequence <= |entries|
  {
    hide CoreOk, Replay, ReadSnapshot;
    var s := ReadSnapshot(sha, b).value;
    ReplayKeepsMemory(core, initial, entries[..k]);
    forall p | 0 < p <= |entries| && Replay(core, None, Blank(initial), entries[..p]).Ok?
      ensures SnapshotAgrees(Some(s), Replay(core, None, Blank(initial), entries[..p]).value)
    {
      ReplayKeepsMemory(core, initial, entries[..p]);
    }
    GoodSnapshotIsTransparent(core, s, Blank(initial), entries);
    if k > 0 { SequencesCount(core, initial, entries, k - 1); }
  }

  lemma TornLogRecovers(sha: Bytes -> Digest, durable: seq<JournalEntry>, wal: Bytes)
    requires AllRecordable(durable) && TornLog(sha, durable, wal)
    ensures var log := Recover(sha, wal);
            log.Ok? && log.value.entries == durable && wal[..log.value.durablePrefix] == EncodeAll(sha, durable)
  {
    hide Frame, EncodeAll, Recover;
    var next: JournalEntry, torn: Bytes :| Recordable(next) && torn < Frame(sha, next) && wal == EncodeAll(sha, durable) + torn;
    RecoverExact(sha, durable, next, torn);
    assert wal[..|EncodeAll(sha, durable)|] == EncodeAll(sha, durable);
  }

  /** Reopening a file from which exactly these entries are recovered rebuilds their replay. */
  lemma ReopenFrom(core: Core, sha: Bytes -> Digest, initial: Bytes, disk: Disk, entries: seq<JournalEntry>)
    requires CoreOk(core) && core.checkState(initial).Ok? && |entries| < TWO_64
    requires Recover(sha, disk.wal).Ok? && Recover(sha, disk.wal).value.entries == entries
    requires Replayed(core, initial, entries).Ok? && SnapshotOk(core, sha, initial, entries, disk.snapshot)
    ensures Reopen(core, sha, initial, disk)
         == Ok(Reopened(Replayed(core, initial, entries).value, disk.(wal := disk.wal[..Recover(sha, disk.wal).value.durablePrefix])))
  {
    hide CoreOk, Replay, ReadSnapshot, Recover, SnapshotMatched;
    if disk.snapshot.Some? {
      var k: nat :| SnapshotOf(core, sha, initial, entries, disk.snapshot.value, k);
      SnapshotReplay(core, sha, initial, entries, disk.snapshot.value, k);
    } else {
      assert SnapshotMatched(None, entries) by { NoSnapshotMatches(entries); }
    }
  }

  /** Reopening after any death succeeds and rebuilds exactly the replay of the durable entries. */
  lemma ReopenRebuilds(core: Core, sha: Bytes -> Digest, initial: Bytes, disk: Disk, durable: seq<JournalEntry>)
    requires CoreOk(core) && core.checkState(initial).Ok? && |durable| < TWO_64
    requires LogInv(core, sha, initial, disk, None, durable)
    ensures Reopen(core, sha, initial, disk)
         == Ok(Reopened(Replayed(core, initial, durable).value, disk.(wal := EncodeAll(sha, durable))))
  {
    hide CoreOk, Replay, ReadSnapshot, EncodeAll, Recover, SnapshotMatched, TornLog, Reopen, SnapshotOk;
    TornLogRecovers(sha, durable, disk.wal);
    ReopenFrom(core, sha, initial, disk, durable);
  }

  lemma NoSnapshotMatches(entries: seq<JournalEntry>)
    ensures SnapshotMatched(None, entries)
  {
  }

  lemma SnapshotTaken(core: Core, sha: Bytes -> Digest, initial: Bytes, m: Memory, disk: Disk, durable: seq<JournalEntry>)
    requires CoreOk(core) && core.checkState(initial).Ok? && |durable| < TWO_64
    requires LogInv(core, sha, initial, disk, Some(m), durable) && TakeSnapshot(sha, m, disk).Ok?
    ensures LogInv(core, sha, initial, TakeSnapshot(sha, m, disk).value, Some(m), durable)
  {
    hide CoreOk, Replay, ReadSnapshot, EncodeAll, EncodeSnapshot;
    var s := Snapshot(m.sequence, m.state);
    var b := EncodeSnapshot(sha, s).value;
    SnapshotRoundTrip(sha, s);
    ReplayKeepsMemory(core, initial, durable);
    assert durable[..|durable|] == durable;
    assert SnapshotOf(core, sha, initial, durable, b, |durable|);
  }

  // ----- receipts are served again -----------------------------------------

  /** A submission answered with this receipt gets it again, marked as a replay. */
  predicate ServesSubmit(core: Core, m: Memory, command: Bytes, receipt: SubmitReceipt) {
    PlanSubmit(core, m, command) == Ok(Answer(receipt.(replay := true)))
  }

  predicate ServesVote(core: Core, m: Memory, vote: Bytes, receipt: VoteReceipt) {
    PlanVote(core, m, vote) == Ok(Answer(receipt.(replay := true)))
  }

  lemma SubmitStaysServed(core: Core, m: Memory, entry: JournalEntry, command: Bytes, receipt: SubmitReceipt)
    requires ServesSubmit(core, m, command, receipt) && ReplayEntry(core, m, entry).Ok?
    ensures ServesSubmit(core, ReplayEntry(core, m, entry).value, command, receipt)
  {
    hide C.Record, Recorded;
  }

  lemma VoteStaysServed(core: Core, m: Memory, entry: JournalEntry, vote: Bytes, receipt: VoteReceipt)
    requires ServesVote(core, m, vote, receipt) && ReplayEntry(core, m, entry).Ok? && C.SortedVotes(m.votes)
    ensures ServesVote(core, ReplayEntry(core, m, entry).value, vote, receipt)
  {
    hide C.Record, C.SortedVotes;
    if entry.kind == Vote {
      ReplayStaysReplay(m.votes, core.parseVote(entry.commandOrVote).value, core.parseVote(vote).value);
    }
  }

  lemma ReplayStaysReplay(votes: seq<P.Vote>, added: P.Vote, v: P.Vote)
    requires C.SortedVotes(votes) && C.Record(votes, added).Ok?
    requires C.Record(votes, v).Ok? && C.Record(votes, v).value.disposition == C.Replay
    ensures var next := C.Record(votes, added).value.votes;
            C.Record(next, v).Ok? && C.Record(next, v).value.disposition == C.Replay
  {
    hide C.SortedVotes, C.LowerBound, C.VoteKey, C.CheckVote;
    var next := C.Record(votes, added).value.votes;
    var at := C.LowerBound(votes, C.VoteKey(v));
    C.RecordKeepsSorted(votes, added);
    assert votes[at] in next;
    var i :| 0 <= i < |next| && next[i] == votes[at];
    C.RecordDecides(next, v);
  }

  lemma SubmitBecomesServed(core: Core, m: Memory, command: Bytes)
    requires CoreOk(core) && PlanSubmit(core, m, command).Ok?
    ensures var p := PlanSubmit(core, m, command).value;
            if p.Answer? then ServesSubmit(core, m, command, p.answer) else ServesSubmit(core, p.next, command, p.reply)
  {
  }

  /** A fresh vote is served from then on, provided its identifier is not already taken. */
  lemma VoteBecomesServed(core: Core, m: Memory, vote: Bytes)
    requires PlanVote(core, m, vote).Ok? && C.SortedVotes(m.votes)
    requires PlanVote(core, m, vote).value.Append? ==> core.voteId(vote) !in m.voteSequences
    ensures var p := PlanVote(core, m, vote).value;
            if p.Answer? then ServesVote(core, m, vote, p.answer) else ServesVote(core, p.next, vote, p.reply)
  {
    hide C.SortedVotes, C.LowerBound, C.VoteKey, C.Record;
    var v := core.parseVote(vote).value;
    if PlanVote(core, m, vote).value.Append? {
      RecordedVoteReplays(m.votes, v);
    }
  }

  lemma RecordedVoteReplays(votes: seq<P.Vote>, v: P.Vote)
    requires C.SortedVotes(votes) && C.Record(votes, v).Ok?
    ensures var next := C.Record(votes, v).value.votes; C.Record(next, v) == Ok(C.Outcome(C.Replay, next))
  {
    hide C.SortedVotes, C.LowerBound, C.VoteKey;
    var o := C.Record(votes, v).value;
    C.RecordKeepsSorted(votes, v);
    if o.disposition == C.Recorded {
      assert v in o.votes;
      var i :| 0 <= i < |o.votes| && o.votes[i] == v;
      C.RecordDecides(o.votes, v);
    }
  }

  /** A vote that repeats a recorded context and body is answered exactly when its own frame
      identifier is known: the same vote re-encoded with another signature or sequence is refused. */
  lemma RepeatedVoteNeedsSameFrame(core: Core, m: Memory, known: P.Vote, frame: Bytes)
    requires C.SortedVotes(m.votes) && known in m.votes && core.parseVote(frame).Ok?
    requires var v := core.parseVote(frame).value;
             C.CheckVote(v).Ok? && C.SameContext(v, known) && v.bodyHash == known.bodyHash
    ensures PlanVote(core, m, frame).Ok? <==> core.voteId(frame) in m.voteSequences
    ensures PlanVote(core, m, frame).Err? ==> PlanVote(core, m, frame).error == RuntimeFailed(RecoveryMismatch)
  {
    hide C.SortedVotes, C.LowerBound, C.VoteKey, C.CheckVote, C.Record;
    var v := core.parseVote(frame).value;
    C.KeysIdentifyContexts(v, known);
    var i :| 0 <= i < |m.votes| && m.votes[i] == known;
    C.RecordDecides(m.votes, v);
  }

  /** In every run: a vote that repeats the context and body of a durable one is answered if and only if
      its own bytes are durable, unless identifiers collide. */
  lemma RepeatedVoteNeedsDurableFrame(core: Core, sha: Bytes -> Digest, initial: Bytes, actions: seq<Action>, i: nat, frame: Bytes)
    requires CoreOk(core) && core.checkState(initial).Ok? && |actions| < TWO_64
    requires DistinctVoteIds(core, CastVotes(actions) + {frame})
    requires var s := Run(core, sha, initial, actions);
             && s.memory.Some? && i < |s.durable| && s.durable[i].kind == Vote
             && core.parseVote(frame).Ok? && core.parseVote(s.durable[i].commandOrVote).Ok?
             && var v, w := core.parseVote(frame).value, core.parseVote(s.durable[i].commandOrVote).value;
                C.CheckVote(v).Ok? && C.SameContext(v, w) && v.bodyHash == w.bodyHash
    ensures var s := Run(core, sha, initial, actions);
            && (PlanVote(core, s.memory.value, frame).Ok? <==> IsDurableVote(s.durable, frame))
            && (PlanVote(core, s.memory.value, frame).Err? ==>
                  PlanVote(core, s.memory.value, frame).error == RuntimeFailed(RecoveryMismatch))
  {
    hide CoreOk, Replay, Run, PlanVote, C.SortedVotes, ServesSubmit, ServesVote;
    var s := Run(core, sha, initial, actions);
    assert DistinctVoteIds(core, CastVotes(actions)) by { FewerVotes(core, CastVotes(actions), frame); }
    RunKeepsInv(core, sha, initial, actions);
    UpMemory(core, sha, initial, s);
    var m := s.memory.value;
    RepeatedVoteNeedsSameFrame(core, m, core.parseVote(s.durable[i].commandOrVote).value, frame);
    KnownIdIsDurable(core, m, s.durable, CastVotes(actions), frame);
  }

  /** The first vote of a run, performed without a crash, is durable and its process goes on. */
  lemma FirstVoteIsDurable(core: Core, sha: Bytes -> Digest, initial: Bytes, vote: Bytes)
    requires core.parseVote(vote).Ok? && C.CheckVote(core.parseVote(vote).value).Ok?
    requires MINIMUM_FRAME_SIZE + |vote| <= MAXIMUM_FRAME_SIZE
    ensures var s := Run(core, sha, initial, [DoVote(vote, NoCrash)]);
            s.memory.Some? && |s.durable| == 1 && s.durable[0].kind == Vote && s.durable[0].commandOrVote == vote
  {
    hide Perform, EncodeEntry, C.Record;
    FirstVoteIsPlanned(core, initial, vote);
    var plan := PlanVote(core, Blank(initial), vote);
    PerformedIsDurable(sha, Blank(initial), Disk([], None), plan);
    var action := DoVote(vote, NoCrash);
    assert [action][..0] == [];
    assert Run(core, sha, initial, []) == Start(initial);
  }

  lemma FirstVoteIsPlanned(core: Core, initial: Bytes, vote: Bytes)
    requires core.parseVote(vote).Ok? && C.CheckVote(core.parseVote(vote).value).Ok?
    ensures var plan := PlanVote(core, Blank(initial), vote);
            plan.Ok? && plan.value.Append? && plan.value.entry.kind == Vote && plan.value.entry.commandOrVote == vote
            && FrameSize(plan.value.entry) == MINIMUM_FRAME_SIZE + |vote|
  {
    hide C.CheckVote, C.VoteKey;
  }

  lemma PerformedIsDurable<R>(sha: Bytes -> Digest, m: Memory, disk: Disk, plan: Outcome<Plan<R>>)
    requires plan.Ok? && plan.value.Append? && FrameSize(plan.value.entry) <= MAXIMUM_FRAME_SIZE
    ensures !Perform(sha, m, disk, plan, NoCrash).crashed && Durably(sha, plan, NoCrash) == [plan.value.entry]
  {
    hide FrameBody;
  }

  ghost predicate IsDurableVote(durable: seq<JournalEntry>, frame: Bytes) {
    exists j :: 0 <= j < |durable| && durable[j].kind == Vote && durable[j].commandOrVote == frame
  }

  lemma FewerVotes(core: Core, votes: set<Bytes>, frame: Bytes)
    requires DistinctVoteIds(core, votes + {frame})
    ensures DistinctVoteIds(core, votes)
  {
  }

  lemma KnownIdIsDurable(core: Core, m: Memory, durable: seq<JournalEntry>, cast: set<Bytes>, frame: Bytes)
    requires MemoryOk(core, m, durable) && DistinctVoteIds(core, cast + {frame})
    requires forall i :: 0 <= i < |durable| && durable[i].kind == Vote ==> durable[i].commandOrVote in cast
    ensures core.voteId(frame) in m.voteSequences <==> IsDurableVote(durable, frame)
  {
    hide C.SortedVotes;
    if core.voteId(frame) in m.voteSequences {
      var j :| 0 <= j < |durable| && durable[j].kind == Vote && core.voteId(durable[j].commandOrVote) == core.voteId(frame);
      assert durable[j].commandOrVote == frame;
    }
  }

  /** A vote that is already durable is never planned for a second append. */
  lemma DurableVoteIsAnswered(core: Core, m: Memory, entries: seq<JournalEntry>, i: nat)
    requires MemoryOk(core, m, entries) && i < |entries| && entries[i].kind == Vote
    ensures PlanVote(core, m, entries[i].commandOrVote).Ok? ==> PlanVote(core, m, entries[i].commandOrVote).value.Answer?
  {
    hide C.SortedVotes, C.LowerBound, C.VoteKey, C.CheckVote;
    var v := core.parseVote(entries[i].commandOrVote).value;
    var j :| 0 <= j < |m.votes| && m.votes[j] == v;
    if C.CheckVote(v).Ok? { C.RecordDecides(m.votes, v); }
  }

  // ----- the theorem -------------------------------------------------------

  /** Everything that every run maintains; `cast` are the vote frames handed in so far. */
  ghost predicate Inv(core: Core, sha: Bytes -> Digest, initial: Bytes, s: System, cast: set<Bytes>) {
    && LogInv(core, sha, initial, s.disk, s.memory, s.durable)
    && (forall i :: 0 <= i < |s.durable| && s.durable[i].kind == Vote ==> s.durable[i].commandOrVote in cast)
    && var m := Replayed(core, initial, s.durable).value;
       && (forall x :: x in s.submits ==> ServesSubmit(core, m, x.0, x.1))
       && (forall x :: x in s.votes ==> ServesVote(core, m, x.0, x.1))
  }

  lemma SubmitKeepsInv(core: Core, sha: Bytes -> Digest, initial: Bytes, s: System, cast: set<Bytes>, command: Bytes, crash: CrashPoint)
    requires CoreOk(core) && core.checkState(initial).Ok? && s.memory.Some?
    requires Inv(core, sha, initial, s, cast)
    ensures Inv(core, sha, initial, Act(core, sha, initial, s, DoSubmit(command, crash)), cast)
  {
    hide CoreOk, LogInv, Replay, ReplayEntry, ServesSubmit, ServesVote, PlanSubmit, EncodeEntry, Recordable, MemoryOk;
    var m := s.memory.value;
    UpMemory(core, sha, initial, s);
    var plan := PlanSubmit(core, m, command);
    var s' := Act(core, sha, initial, s, DoSubmit(command, crash));
    if plan.Ok? {
      SubmitBecomesServed(core, m, command);
      if plan.value.Append? { SubmitIsReplay(core, m, command); }
    }
    PerformKeepsLog(core, sha, initial, m, s.disk, s.durable, plan, crash);
    GrownMemory(core, sha, initial, s, plan, crash);
    PlanSubmitKind(core, m, command);
    forall x | x in s.submits ensures ServesSubmit(core, Replayed(core, initial, s'.durable).value, x.0, x.1) {
      if s'.durable != s.durable { SubmitStaysServed(core, m, plan.value.entry, x.0, x.1); }
    }
    forall x | x in s.votes ensures ServesVote(core, Replayed(core, initial, s'.durable).value, x.0, x.1) {
      if s'.durable != s.durable { VoteStaysServed(core, m, plan.value.entry, x.0, x.1); }
    }
  }

  lemma VoteKeepsInv(core: Core, sha: Bytes -> Digest, initial: Bytes, s: System, cast: set<Bytes>, vote: Bytes, crash: CrashPoint)
    requires CoreOk(core) && core.checkState(initial).Ok? && s.memory.Some?
    requires Inv(core, sha, initial, s, cast) && DistinctVoteIds(core, cast + {vote})
    ensures Inv(core, sha, initial, Act(core, sha, initial, s, DoVote(vote, crash)), cast + {vote})
  {
    hide CoreOk, LogInv, Replay, ReplayEntry, ServesSubmit, ServesVote, PlanVote, EncodeEntry, Recordable, MemoryOk;
    var m := s.memory.value;
    UpMemory(core, sha, initial, s);
    var plan := PlanVote(core, m, vote);
    var s' := Act(core, sha, initial, s, DoVote(vote, crash));
    if plan.Ok? {
      if plan.value.Append? {
        VoteIsReplay(core, m, vote);
        FreshVoteId(core, m, s.durable, cast, vote);
      }
      VoteBecomesServed(core, m, vote);
    }
    PerformKeepsLog(core, sha, initial, m, s.disk, s.durable, plan, crash);
    GrownMemory(core, sha, initial, s, plan, crash);
    PlanVoteEntry(core, m, vote);
    forall x | x in s.submits ensures ServesSubmit(core, Replayed(core, initial, s'.durable).value, x.0, x.1) {
      if s'.durable != s.durable { SubmitStaysServed(core, m, plan.value.entry, x.0, x.1); }
    }
    forall x | x in s.votes ensures ServesVote(core, Replayed(core, initial, s'.durable).value, x.0, x.1) {
      if s'.durable != s.durable { VoteStaysServed(core, m, plan.value.entry, x.0, x.1); }
    }
  }

  lemma UpMemory(core: Core, sha: Bytes -> Digest, initial: Bytes, s: System)
    requires CoreOk(core) && core.checkState(initial).Ok? && s.memory.Some?
    requires LogInv(core, sha, initial, s.disk, s.memory, s.durable)
    ensures Replayed(core, initial, s.durable) == Ok(s.memory.value)
    ensures MemoryOk(core, s.memory.value, s.durable) && C.SortedVotes(s.memory.value.votes)
  {
    hide CoreOk, Replay;
    ReplayKeepsMemory(core, initial, s.durable);
  }

  /** After a performed plan the replay of the log is either unchanged or the planned memory. */
  lemma GrownMemory<R>(core: Core, sha: Bytes -> Digest, initial: Bytes, s: System, plan: Outcome<Plan<R>>, crash: CrashPoint)
    requires s.memory.Some? && Replayed(core, initial, s.durable) == Ok(s.memory.value)
    requires plan.Ok? && plan.value.Append? ==>
               Recordable(plan.value.entry) && ReplayEntry(core, s.memory.value, plan.value.entry) == Ok(plan.value.next)
    ensures var step := Perform(sha, s.memory.value, s.disk, plan, crash);
            var all := s.durable + Durably(sha, plan, crash);
            && (all == s.durable ==> Replayed(core, initial, all) == Ok(s.memory.value))
            && (all != s.durable ==> plan.Ok? && plan.value.Append? && all == s.durable + [plan.value.entry]
                                     && Replayed(core, initial, all) == Ok(plan.value.next))
            && (step.reply.Ok? ==> plan.Ok? && step.reply.value == (if plan.value.Answer? then plan.value.answer else plan.value.reply)
                                   && (all != s.durable <==> plan.value.Append?))
  {
    hide Replay, ReplayEntry;
    assert s.durable + [] == s.durable;
    if plan.Ok? && plan.value.Append? {
      ReplayAppend(core, Blank(initial), s.durable, plan.value.entry);
      assert |s.durable + [plan.value.entry]| != |s.durable|;
    }
  }

  lemma PlanSubmitKind(core: Core, m: Memory, command: Bytes)
    ensures var p := PlanSubmit(core, m, command); p.Ok? && p.value.Append? ==> p.value.entry.kind == Transition
  {
  }

  lemma PlanVoteEntry(core: Core, m: Memory, vote: Bytes)
    ensures var p := PlanVote(core, m, vote);
            p.Ok? && p.value.Append? ==> p.value.entry.kind == Vote && p.value.entry.commandOrVote == vote
  {
  }

  lemma FreshVoteId(core: Core, m: Memory, durable: seq<JournalEntry>, cast: set<Bytes>, vote: Bytes)
    requires MemoryOk(core, m, durable) && DistinctVoteIds(core, cast + {vote})
    requires forall i :: 0 <= i < |durable| && durable[i].kind == Vote ==> durable[i].commandOrVote in cast
    requires PlanVote(core, m, vote).Ok? && PlanVote(core, m, vote).value.Append?
    ensures core.voteId(vote) !in m.voteSequences
  {
    hide PlanVote, C.SortedVotes;
    if core.voteId(vote) in m.voteSequences {
      var i :| 0 <= i < |durable| && durable[i].kind == Vote && core.voteId(durable[i].commandOrVote) == core.voteId(vote);
      DurableVoteIsAnswered(core, m, durable, i);
    }
  }

  lemma OtherKeepsInv(core: Core, sha: Bytes -> Digest, initial: Bytes, s: System, cast: set<Bytes>, action: Action)
    requires CoreOk(core) && core.checkState(initial).Ok? && |s.durable| < TWO_64
    requires Inv(core, sha, initial, s, cast)
    requires s.memory.None? || action.DoSnapshot? || action.Die? || action.DoReopen?
    ensures Inv(core, sha, initial, Act(core, sha, initial, s, action), cast)
  {
    hide CoreOk, Replay, ReplayEntry, ServesSubmit, ServesVote, EncodeAll, Reopen, SnapshotOf, TakeSnapshot;
    if s.memory.None? {
      if action.DoReopen? { ReopenRebuilds(core, sha, initial, s.disk, s.durable); }
    } else if action.DoSnapshot? {
      if TakeSnapshot(sha, s.memory.value, s.disk).Ok? {
        SnapshotTaken(core, sha, initial, s.memory.value, s.disk, s.durable);
      }
    } else if action.Die? {
      NoTear(sha, s.durable);
    }
  }

  lemma ActGrowsByOne(core: Core, sha: Bytes -> Digest, initial: Bytes, s: System, action: Action)
    ensures |Act(core, sha, initial, s, action).durable| <= |s.durable| + 1
  {
    hide PlanSubmit, PlanVote, Perform, Reopen, EncodeEntry;
  }

  lemma {:induction false} RunKeepsInv(core: Core, sha: Bytes -> Digest, initial: Bytes, actions: seq<Action>)
    requires CoreOk(core) && core.checkState(initial).Ok? && |actions| < TWO_64
    requires DistinctVoteIds(core, CastVotes(actions))
    ensures Inv(core, sha, initial, Run(core, sha, initial, actions), CastVotes(actions))
    ensures |Run(core, sha, initial, actions).durable| <= |actions|
  {
    hide CoreOk, Inv, Act;
    if actions == [] {
      StartKeepsInv(core, sha, initial);
      assert CastVotes(actions) == {};
    } else {
      var front, last := actions[..|actions| - 1], actions[|actions| - 1];
      if last.DoVote? {
        assert CastVotes(actions) == CastVotes(front) + {last.vote};
      } else {
        assert CastVotes(actions) == CastVotes(front);
      }
      RunKeepsInv(core, sha, initial, front);
      var s := Run(core, sha, initial, front);
      ActGrowsByOne(core, sha, initial, s, last);
      if s.memory.Some? && last.DoSubmit? {
        SubmitKeepsInv(core, sha, initial, s, CastVotes(front), last.command, last.crash);
      } else if s.memory.Some? && last.DoVote? {
        VoteKeepsInv(core, sha, initial, s, CastVotes(front), last.vote, last.crash);
      } else {
        OtherKeepsInv(core, sha, initial, s, CastVotes(front), last);
        InvWidens(core, sha, initial, Act(core, sha, initial, s, last), CastVotes(front), CastVotes(actions));
      }
    }
  }

  lemma InvWidens(core: Core, sha: Bytes -> Digest, initial: Bytes, s: System, small: set<Bytes>, large: set<Bytes>)
    requires Inv(core, sha, initial, s, small) && small <= large
    ensures Inv(core, sha, initial, s, large)
  {
    hide LogInv, Replayed, ServesSubmit, ServesVote;
  }

  lemma StartKeepsInv(core: Core, sha: Bytes -> Digest, initial: Bytes)
    requires core.checkState(initial).Ok?
    ensures Inv(core, sha, initial, Start(initial), {})
  {
    BlankIsOk(core, initial);
  }

  /** Persist before expose, over every run: reopening after the run succeeds, the rebuilt state,
      journal, request cache and sequence are the replay of the durable entries, a live process
      already holds exactly that, and every receipt ever returned is served again unchanged. */
  lemma RecoveryTheorem(core: Core, sha: Bytes -> Digest, initial: Bytes, actions: seq<Action>)
    requires CoreOk(core) && core.checkState(initial).Ok? && |actions| < TWO_64
    requires DistinctVoteIds(core, CastVotes(actions))
    ensures var s := Run(core, sha, initial, actions);
            var replayed := Replayed(core, initial, s.durable);
            var dead := Act(core, sha, initial, s, Die);
            && replayed.Ok?
            && (s.memory.Some? ==> s.memory == Some(replayed.value))
            && Act(core, sha, initial, dead, DoReopen).memory == Some(replayed.value)
            && (forall x :: x in s.submits ==> ServesSubmit(core, replayed.value, x.0, x.1))
            && (forall x :: x in s.votes ==> ServesVote(core, replayed.value, x.0, x.1))
  {
    hide CoreOk, Replay, Run, EncodeAll, Reopen, ServesSubmit, ServesVote, SnapshotOf;
    RunKeepsInv(core, sha, initial, actions);
    var s := Run(core, sha, initial, actions);
    OtherKeepsInv(core, sha, initial, s, CastVotes(actions), Die);
    var dead := Act(core, sha, initial, s, Die);
    ReopenRebuilds(core, sha, initial, dead.disk, dead.durable);
  }
}
