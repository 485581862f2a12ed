/** The reactor after an append that failed with a plain I/O error: it keeps running on an unchanged
    memory, and the next request is appended behind whatever the failed one left in the file. */
module RuntimeFaults {
  import opened Base
  import opened Wal
  import opened WalFaults
  import opened Runtime
  import opened RuntimeRuns
  import C = Consensus

  datatype Request = Submission(command: Bytes) | Ballot(vote: Bytes)

  datatype Planned = Planned(entry: JournalEntry, next: Memory)

  /** The entry a request wants to append, and the memory it commits afterwards. */
  function PlanOf(core: Core, m: Memory, q: Request): Option<Planned> {
    match q
    case Submission(c) =>
      var p := PlanSubmit(core, m, c);
      if p.Ok? && p.value.Append? then Some(Planned(p.value.entry, p.value.next)) else None
    case Ballot(v) =>
      var p := PlanVote(core, m, v);
      if p.Ok? && p.value.Append? then Some(Planned(p.value.entry, p.value.next)) else None
  }

  /** The receipt exposed for the request when it was performed on `m` is served again on `at`. */
  predicate ServedAgain(core: Core, m: Memory, q: Request, at: Memory)
    requires PlanOf(core, m, q).Some?
  {
    match q
    case Submission(c) => ServesSubmit(core, at, c, PlanSubmit(core, m, c).value.reply)
    case Ballot(v) => ServesVote(core, at, v, PlanVote(core, m, v).value.reply)
  }

  /** The identifier of a vote is not taken by another frame. */
  predicate FreshBallot(core: Core, m: Memory, q: Request) { q.Ballot? ==> core.voteId(q.vote) !in m.voteSequences }

  lemma PlanIsReplay(core: Core, m: Memory, q: Request)
    requires CoreOk(core) && PlanOf(core, m, q).Some?
    ensures var p := PlanOf(core, m, q).value;
            && Recordable(p.entry) && ReplayEntry(core, m, p.entry) == Ok(p.next)
            && p.entry.sequence == NextSequence(m) == p.next.sequence
  {
    hide CoreOk, ReplayEntry, Recordable;
    match q
    case Submission(c) => SubmitIsReplay(core, m, c);
    case Ballot(v) => VoteIsReplay(core, m, v);
  }

  lemma PlanBecomesServed(core: Core, m: Memory, q: Request)
    requires CoreOk(core) && PlanOf(core, m, q).Some? && C.SortedVotes(m.votes) && FreshBallot(core, m, q)
    ensures ServedAgain(core, m, q, PlanOf(core, m, q).value.next) && !ServedAgain(core, m, q, m)
  {
    hide CoreOk, C.SortedVotes, C.Record;
    match q
    case Submission(c) => SubmitBecomesServed(core, m, c);
    case Ballot(v) => VoteBecomesServed(core, m, v);
  }

  /** The file after the failed append of one request, the append of another and whatever follows. */
  function DiskAfter(sha: Bytes -> Digest, disk: Disk, first: JournalEntry, second: JournalEntry, k: nat, after: Bytes): Disk
    requires Recordable(first) && Recordable(second) && k <= FrameSize(first)
  {
    disk.(wal := disk.wal + Continued(sha, first, second, k, after))
  }

  // ----- both frames in the file ---------------------------------------------

  lemma {:induction false} ReplayStops(core: Core, snapshot: Option<Snapshot>, m: Memory, first: seq<JournalEntry>, more: seq<JournalEntry>)
    requires Replay(core, snapshot, m, first).Err?
    ensures Replay(core, snapshot, m, first + more) == Err(Replay(core, snapshot, m, first).error)
    decreases |first|
  {
    hide ReplayEntry, SnapshotAgrees;
    if first != [] {
      assert (first + more)[1..] == first[1..] + more && (first + more)[0] == first[0];
      if ReplayEntry(core, m, first[0]).Ok? && SnapshotAgrees(snapshot, ReplayEntry(core, m, first[0]).value) {
        ReplayStops(core, snapshot, ReplayEntry(core, m, first[0]).value, first[1..], more);
      }
    }
  }

  lemma SequenceTwice(core: Core, snapshot: Option<Snapshot>, m: Memory, e: JournalEntry)
    requires e.sequence == m.sequence
    ensures Replay(core, snapshot, m, [e]) == Err(RuntimeFailed(SequenceInvalid))
  {
    assert e.sequence != NextSequence(m);
  }

  /** Two entries planned from one memory carry one sequence; their replay stops at the second. */
  lemma ReplayOfBothStops(core: Core, snapshot: Option<Snapshot>, initial: Bytes, durable: seq<JournalEntry>,
                          first: JournalEntry, next: Memory, second: JournalEntry, more: seq<JournalEntry>)
    requires Replay(core, snapshot, Blank(initial), durable + [first]) == Ok(next) && second.sequence == next.sequence
    ensures Replay(core, snapshot, Blank(initial), durable + [first, second] + more) == Err(RuntimeFailed(SequenceInvalid))
  {
    hide Replay;
    SequenceTwice(core, snapshot, next, second);
    ReplaySplits(core, snapshot, Blank(initial), durable + [first], [second]);
    assert durable + [first] + [second] == durable + [first, second];
    ReplayStops(core, snapshot, Blank(initial), durable + [first, second], more);
  }

  /** What the snapshot, if there is one, does to the replay of the log and one more entry: nothing. */
  lemma SnapshotIsTransparent(core: Core, sha: Bytes -> Digest, initial: Bytes, disk: Disk, entries: seq<JournalEntry>)
    requires CoreOk(core) && core.checkState(initial).Ok? && |entries| < TWO_64
    requires Replayed(core, initial, entries).Ok? && SnapshotOk(core, sha, initial, entries, disk.snapshot)
    ensures LoadSnapshot(core, sha, disk).Ok?
    ensures Replay(core, LoadSnapshot(core, sha, disk).value, Blank(initial), entries) == Replayed(core, initial, entries)
  {
    hide CoreOk, Replay, ReadSnapshot;
    if disk.snapshot.Some? {
      var k: nat :| SnapshotOf(core, sha, initial, entries, disk.snapshot.value, k);
      SnapshotReplay(core, sha, initial, entries, disk.snapshot.value, k);
    }
  }

  lemma ReopenStops(core: Core, sha: Bytes -> Digest, initial: Bytes, disk: Disk, entries: seq<JournalEntry>, e: Failure)
    requires Recover(sha, disk.wal).Ok? && Recover(sha, disk.wal).value.entries == entries && LoadSnapshot(core, sha, disk).Ok?
    requires Replay(core, LoadSnapshot(core, sha, disk).value, Blank(initial), entries) == Err(e)
    ensures Reopen(core, sha, initial, disk) == Err(e)
  {
    hide Recover, LoadSnapshot, Replay;
  }

  lemma ReopenRefuses(core: Core, sha: Bytes -> Digest, initial: Bytes, disk: Disk)
    requires Recover(sha, disk.wal).Err?
    ensures Reopen(core, sha, initial, disk).Err?
  {
    hide Recover;
  }

  /** The whole frame of the failed append and the next one: reopening refuses the log. */
  lemma BothFramesAreRefused(core: Core, sha: Bytes -> Digest, initial: Bytes, disk: Disk, m: Memory, durable: seq<JournalEntry>,
                             first: Request, second: Request, after: Bytes)
    requires CoreOk(core) && core.checkState(initial).Ok? && |durable| + 1 < TWO_64
    requires LogInv(core, sha, initial, disk, Some(m), durable)
    requires PlanOf(core, m, first).Some? && PlanOf(core, m, second).Some?
    requires Recordable(PlanOf(core, m, first).value.entry) && Recordable(PlanOf(core, m, second).value.entry)
    ensures var e, f := PlanOf(core, m, first).value.entry, PlanOf(core, m, second).value.entry;
            var r := Reopen(core, sha, initial, DiskAfter(sha, disk, e, f, FrameSize(e), after));
            r.Err? && (Recover(sha, after).Ok? ==> r.error == RuntimeFailed(SequenceInvalid))
  {
    hide CoreOk, Replay, Recover, EncodeAll, SnapshotOk, PlanOf, Recordable, Continued, LoadSnapshot, Reopen, ReplayEntry;
    var p, q := PlanOf(core, m, first).value, PlanOf(core, m, second).value;
    PlanIsReplay(core, m, first);
    PlanIsReplay(core, m, second);
    var disk' := DiskAfter(sha, disk, p.entry, q.entry, FrameSize(p.entry), after);
    ContinuedOutcome(sha, durable, p.entry, q.entry, FrameSize(p.entry), after);
    if Recover(sha, after).Ok? {
      ReplayAppend(core, Blank(initial), durable, p.entry);
      SnapshotSurvives(core, sha, initial, durable, p.entry, disk.snapshot);
      SnapshotIsTransparent(core, sha, initial, disk', durable + [p.entry]);
      ReplayOfBothStops(core, LoadSnapshot(core, sha, disk').value, initial, durable, p.entry, p.next, q.entry,
                        Recover(sha, after).value.entries);
      ReopenStops(core, sha, initial, disk', durable + [p.entry, q.entry] + Recover(sha, after).value.entries, RuntimeFailed(SequenceInvalid));
    } else {
      ReopenRefuses(core, sha, initial, disk');
    }
  }

  // ----- nothing left ---------------------------------------------------------

  lemma NothingLeftIsServed(core: Core, sha: Bytes -> Digest, initial: Bytes, disk: Disk, m: Memory, durable: seq<JournalEntry>,
                            first: Request, second: Request)
    requires CoreOk(core) && core.checkState(initial).Ok? && |durable| + 1 < TWO_64
    requires LogInv(core, sha, initial, disk, Some(m), durable)
    requires PlanOf(core, m, first).Some? && PlanOf(core, m, second).Some?
    requires Recordable(PlanOf(core, m, first).value.entry) && Recordable(PlanOf(core, m, second).value.entry)
    ensures var e, q := PlanOf(core, m, first).value.entry, PlanOf(core, m, second).value;
            var after := DiskAfter(sha, disk, e, q.entry, 0, []);
            Reopen(core, sha, initial, after) == Ok(Reopened(q.next, after))
  {
    hide CoreOk, Replay, Recover, EncodeAll, SnapshotOk, PlanOf, Recordable, Reopen, Continued, ReplayEntry;
    var e, q := PlanOf(core, m, first).value.entry, PlanOf(core, m, second).value;
    PlanIsReplay(core, m, second);
    var after := DiskAfter(sha, disk, e, q.entry, 0, []);
    ContinuedOutcome(sha, durable, e, q.entry, 0, []);
    EmptyRecovers(sha);
    assert durable + [q.entry] + [] == durable + [q.entry];
    ReplayAppend(core, Blank(initial), durable, q.entry);
    SnapshotSurvives(core, sha, initial, durable, q.entry, disk.snapshot);
    ReopenFrom(core, sha, initial, after, durable + [q.entry]);
    assert after.wal[..|after.wal|] == after.wal;
  }

  lemma EmptyRecovers(sha: Bytes -> Digest)
    ensures Recover(sha, []) == Ok(RecoveryLog([], 0, false))
  {
  }

  // ----- silent truncation ----------------------------------------------------

  /** The header in front of the second frame announces more bytes than there are. */
  predicate Swallowed(sha: Bytes -> Digest, first: JournalEntry, second: JournalEntry, k: nat, after: Bytes)
    requires Recordable(first) && Recordable(second) && k <= FrameSize(first)
  {
    var b := Continued(sha, first, second, k, after);
    9 <= k < FrameSize(first) && MINIMUM_FRAME_SIZE <= Number(b[8..12]) <= MAXIMUM_FRAME_SIZE && Number(b[8..12]) > |b|
  }

  /** With twelve bytes or more that is exactly: the first frame is longer than all that follows its cut. */
  lemma SwallowedMeans(sha: Bytes -> Digest, first: JournalEntry, second: JournalEntry, k: nat, after: Bytes)
    requires Recordable(first) && Recordable(second) && 12 <= k < FrameSize(first)
    ensures Swallowed(sha, first, second, k, after) <==> k + FrameSize(second) + |after| < FrameSize(first)
  {
    hide Number, Recover, Continued, Recordable;
    AnnouncesFirst(sha, first, second, k, after);
    SizeFits(first);
  }

  lemma SwallowedIsLost(core: Core, sha: Bytes -> Digest, initial: Bytes, disk: Disk, m: Memory, durable: seq<JournalEntry>,
                        first: Request, second: Request, k: nat, after: Bytes)
    requires CoreOk(core) && core.checkState(initial).Ok? && |durable| < TWO_64
    requires LogInv(core, sha, initial, disk, Some(m), durable)
    requires PlanOf(core, m, first).Some? && PlanOf(core, m, second).Some?
    requires Recordable(PlanOf(core, m, first).value.entry) && Recordable(PlanOf(core, m, second).value.entry)
    requires k <= FrameSize(PlanOf(core, m, first).value.entry)
    requires Swallowed(sha, PlanOf(core, m, first).value.entry, PlanOf(core, m, second).value.entry, k, after)
    ensures var e, f := PlanOf(core, m, first).value.entry, PlanOf(core, m, second).value.entry;
            Reopen(core, sha, initial, DiskAfter(sha, disk, e, f, k, after)) == Ok(Reopened(m, disk))
  {
    hide CoreOk, Replay, Recover, EncodeAll, SnapshotOk, PlanOf, Recordable, Reopen, Number;
    var e, f := PlanOf(core, m, first).value.entry, PlanOf(core, m, second).value.entry;
    var disk' := DiskAfter(sha, disk, e, f, k, after);
    ContinuedOutcome(sha, durable, e, f, k, after);
    ReopenFrom(core, sha, initial, disk', durable);
    assert disk'.wal[..|disk.wal|] == disk.wal;
  }

  // ----- the conclusion --------------------------------------------------------

  /** What reopening makes of a failed append that left k bytes and a successful one behind it:
      the second entry is read from its own frame if and only if nothing was left, and then its receipt
      is served again;
      the whole frame makes reopening fail on the sequence;
      a swallowed second frame makes it succeed with the memory from before, where the exposed receipt
      is not served. */
  ghost predicate Outcomes(core: Core, sha: Bytes -> Digest, initial: Bytes, disk: Disk, m: Memory, first: Request, second: Request, k: nat) {
    && PlanOf(core, m, first).Some? && PlanOf(core, m, second).Some?
    && var e, q := PlanOf(core, m, first).value.entry, PlanOf(core, m, second).value;
       && Recordable(e) && Recordable(q.entry) && k <= FrameSize(e)
       && var after := DiskAfter(sha, disk, e, q.entry, k, []);
          var r := Reopen(core, sha, initial, after);
          && (r.Ok? && ReadsAt(sha, after.wal, |disk.wal| + k) <==> k == 0)
          && (k == 0 ==> r == Ok(Reopened(q.next, after)) && ServedAgain(core, m, second, q.next))
          && (k == FrameSize(e) ==> r == Err(RuntimeFailed(SequenceInvalid)))
          && (Swallowed(sha, e, q.entry, k, []) ==> r == Ok(Reopened(m, disk)) && !ServedAgain(core, m, second, m))
  }

  /** Two requests planned from one memory over an intact log; the first append fails and leaves k bytes,
      none to all of its frame, the second succeeds and its receipt is exposed. */
  lemma AfterFailedAppend(core: Core, sha: Bytes -> Digest, initial: Bytes, disk: Disk, m: Memory, durable: seq<JournalEntry>,
                          first: Request, second: Request, k: nat)
    requires CoreOk(core) && core.checkState(initial).Ok? && |durable| + 1 < TWO_64
    requires LogInv(core, sha, initial, disk, Some(m), durable)
    requires PlanOf(core, m, first).Some? && PlanOf(core, m, second).Some? && FreshBallot(core, m, second)
    requires k <= FrameSize(PlanOf(core, m, first).value.entry)
    ensures Outcomes(core, sha, initial, disk, m, first, second, k)
  {
    hide CoreOk, Replay, Recover, EncodeAll, SnapshotOk, PlanOf, Recordable, Reopen, Continued, ReadsAt, ServedAgain, Swallowed, FreshBallot, C.SortedVotes,
      ReplayEntry;
    var e, q := PlanOf(core, m, first).value.entry, PlanOf(core, m, second).value;
    PlanIsReplay(core, m, first);
    PlanIsReplay(core, m, second);
    ReplayKeepsMemory(core, initial, durable);
    PlanBecomesServed(core, m, second);
    SecondIsReadIff(sha, durable, e, q.entry, k, []);
    EmptyRecovers(sha);
    if k == 0 {
      NothingLeftIsServed(core, sha, initial, disk, m, durable, first, second);
    } else if k == FrameSize(e) {
      BothFramesAreRefused(core, sha, initial, disk, m, durable, first, second, []);
    }
    if Swallowed(sha, e, q.entry, k, []) { SwallowedIsLost(core, sha, initial, disk, m, durable, first, second, k, []); }
    SizeFits(e);
  }

  /** Whatever is appended afterwards, reopening never reads the second entry from its own frame once
      anything of the first is in front of it. */
  lemma LeftoverIsNeverServed(core: Core, sha: Bytes -> Digest, initial: Bytes, disk: Disk, m: Memory, durable: seq<JournalEntry>,
                              first: Request, second: Request, k: nat, after: Bytes)
    requires CoreOk(core) && core.checkState(initial).Ok? && |durable| + 1 < TWO_64
    requires LogInv(core, sha, initial, disk, Some(m), durable)
    requires PlanOf(core, m, first).Some? && PlanOf(core, m, second).Some?
    requires Recordable(PlanOf(core, m, first).value.entry) && Recordable(PlanOf(core, m, second).value.entry)
    requires 0 < k <= FrameSize(PlanOf(core, m, first).value.entry)
    ensures var e, f := PlanOf(core, m, first).value.entry, PlanOf(core, m, second).value.entry;
            var later := DiskAfter(sha, disk, e, f, k, after);
            !(Reopen(core, sha, initial, later).Ok? && ReadsAt(sha, later.wal, |disk.wal| + k))
  {
    hide CoreOk, Replay, Recover, EncodeAll, SnapshotOk, PlanOf, Recordable, Reopen, Continued, ReadsAt;
    var e, f := PlanOf(core, m, first).value.entry, PlanOf(core, m, second).value.entry;
    SecondIsReadIff(sha, durable, e, f, k, after);
    if k == FrameSize(e) { BothFramesAreRefused(core, sha, initial, disk, m, durable, first, second, after); }
  }
}
