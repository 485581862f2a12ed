/** What recovery makes of a log whose writer went on after a failed append: some prefix of one frame,
    directly followed by the complete frame of another entry. */
module WalFaults {
  import opened Base
  import opened Wal

  /** The file behind the last durable entry: k bytes of the first frame, none to all of them, then the
      second frame and whatever was written after it. */
  function Continued(sha: Bytes -> Digest, first: JournalEntry, second: JournalEntry, k: nat, after: Bytes): (b: Bytes)
    requires Recordable(first) && Recordable(second) && k <= FrameSize(first)
    ensures |b| == k + FrameSize(second) + |after|
  {
    Frame(sha, first)[..k] + (Frame(sha, second) + after)
  }

  /** The first eight bytes of every frame. */
  const OPENING: Bytes := [0x44, 0x52, 0x57, 0x31, 0, 1, 0, 0]

  lemma FrameOpens(sha: Bytes -> Digest, e: JournalEntry)
    requires Recordable(e)
    ensures Frame(sha, e)[..8] == OPENING
  {
    hide Sections, Number;
    var frame, size := Frame(sha, e), FrameSize(e);
    assert Big(FORMAT_VERSION, 2) == [0, 1] by { TwoBytes(FORMAT_VERSION); }
    assert Big(0, 2) == [0, 0] by { TwoBytes(0); }
    assert frame[..12] == FrameHeader(size);
    assert FrameHeader(size)[..8] == OPENING;
    assert frame[..8] == frame[..12][..8];
  }

  lemma TwoBytes(n: byte)
    ensures Big(n, 2) == [0, n]
  {
    assert Big(n, 1) == Big(n / 256, 0) + [n % 256];
    assert Big(n / 256, 1) == Big(0, 0) + [0];
    assert Big(n, 2) == Big(n / 256, 1) + [n % 256];
  }

  lemma TwoByteNumber(b: Bytes)
    requires |b| == 2
    ensures var x: int, y: int := b[0], b[1]; Number(b) == 256 * x + y
  {
    assert b[..1] == [b[0]] && b[..1][..0] == [];
    assert Number(b[..1]) == b[0];
  }

  lemma FourByteNumber(b: Bytes)
    requires |b| == 4
    ensures var x: int := b[0]; Number(b) >= 0x100_0000 * x
  {
    TwoByteNumber(b[..2]);
    assert b[..3][..2] == b[..2] && b[..3][2] == b[2];
    assert Number(b[..3]) == Number(b[..2]) * 256 + b[2];
  }

  /** The bytes of the two openings, one shifted by k. */
  lemma ContinuedBytes(sha: Bytes -> Digest, first: JournalEntry, second: JournalEntry, k: nat, after: Bytes)
    requires Recordable(first) && Recordable(second) && k <= FrameSize(first)
    ensures var b := Continued(sha, first, second, k, after);
            && (forall i :: 0 <= i < k && i < 8 ==> b[i] == OPENING[i])
            && (forall i :: k <= i < k + 8 ==> b[i] == OPENING[i - k])
  {
    hide Frame;
    FrameOpens(sha, first);
    FrameOpens(sha, second);
    assert (Frame(sha, second) + after)[..8] == Frame(sha, second)[..8];
    Spliced(Frame(sha, first), Frame(sha, second) + after, k, OPENING);
  }

  lemma Spliced(f: Bytes, g: Bytes, k: nat, o: Bytes)
    requires |o| == 8 && |f| >= 8 && |g| >= 8 && k <= |f| && f[..8] == o && g[..8] == o
    ensures forall i :: 0 <= i < k && i < 8 ==> (f[..k] + g)[i] == o[i]
    ensures forall i :: k <= i < k + 8 ==> (f[..k] + g)[i] == o[i - k]
  {
    assert forall i :: 0 <= i < 8 ==> f[i] == f[..8][i] && g[i] == g[..8][i];
  }

  /** Up to eight bytes of the first frame: the second opening is read as part of the first header. */
  lemma ShortPrefixIsCorrupt(sha: Bytes -> Digest, first: JournalEntry, second: JournalEntry, k: nat, after: Bytes)
    requires Recordable(first) && Recordable(second) && 1 <= k <= 8
    ensures Recover(sha, Continued(sha, first, second, k, after)) == Err(WalCorrupt)
  {
    hide Number, Continued, DecodeEntry;
    var b := Continued(sha, first, second, k, after);
    ContinuedBytes(sha, first, second, k, after);
    if k <= 3 {
      assert b[..4][k] == 0x44 && WAL_MAGIC[k] != 0x44;
    } else if k <= 5 {
      TwoByteNumber(b[4..6]);
      assert k == 4 ==> b[4..6][0] == 0x44;
      assert k == 5 ==> b[4..6][1] == 0x44;
    } else if k <= 7 {
      TwoByteNumber(b[6..8]);
      assert k == 6 ==> b[6..8][0] == 0x44;
      assert k == 7 ==> b[6..8][1] == 0x44;
    } else {
      FourByteNumber(b[8..12]);
      assert b[8..12][0] == 0x44;
    }
  }

  /** With nine bytes or more the header is legible and announces some size. */
  lemma LongPrefixIsLegible(sha: Bytes -> Digest, first: JournalEntry, second: JournalEntry, k: nat, after: Bytes)
    requires Recordable(first) && Recordable(second) && 9 <= k < FrameSize(first)
    ensures var b := Continued(sha, first, second, k, after);
            HeaderMatches(b) && (k >= 12 ==> Number(b[8..12]) == FrameSize(first))
  {
    hide Number, Continued, Frame;
    var b := Continued(sha, first, second, k, after);
    ContinuedBytes(sha, first, second, k, after);
    assert b[..4] == WAL_MAGIC;
    assert b[4..6] == [0, 1] && b[6..8] == [0, 0];
    TwoByteNumber(b[4..6]);
    TwoByteNumber(b[6..8]);
    if k >= 12 { AnnouncesFirst(sha, first, second, k, after); }
  }

  lemma AnnouncesFirst(sha: Bytes -> Digest, first: JournalEntry, second: JournalEntry, k: nat, after: Bytes)
    requires Recordable(first) && Recordable(second) && 12 <= k <= FrameSize(first)
    ensures Number(Continued(sha, first, second, k, after)[8..12]) == FrameSize(first)
  {
    hide Number, Frame;
    var b := Continued(sha, first, second, k, after);
    assert b[..12] == Frame(sha, first)[..12];
    FrameHeaderLegible(sha, first, b);
  }

  ghost predicate IsFrame(sha: Bytes -> Digest, b: Bytes) {
    exists e :: Recordable(e) && Frame(sha, e) == b
  }

  lemma FrameIffDecodes(sha: Bytes -> Digest, b: Bytes)
    requires |b| <= MAXIMUM_FRAME_SIZE
    ensures IsFrame(sha, b) <==> DecodeEntry(sha, b).Ok?
  {
    hide DecodeEntry, Frame;
    if DecodeEntry(sha, b).Ok? { DecodedIsFrame(sha, b); }
    if e :| Recordable(e) && Frame(sha, e) == b { EntryRoundTrip(sha, e); }
  }

  lemma DecodeErrors(sha: Bytes -> Digest, b: Bytes)
    ensures DecodeEntry(sha, b).Err? ==> DecodeEntry(sha, b).error == WalCorrupt
  {
    hide Number, HeaderMatches;
  }

  /** Recovery at a legible header, by the announced size. */
  lemma RecoverBySize(sha: Bytes -> Digest, b: Bytes)
    requires |b| >= WAL_HEADER_SIZE && HeaderMatches(b)
    ensures var size, r := Number(b[8..12]), Recover(sha, b);
            if !(MINIMUM_FRAME_SIZE <= size <= MAXIMUM_FRAME_SIZE) then r == Err(WalCorrupt)
            else if size > |b| then r == Ok(RecoveryLog([], 0, true))
            else if !IsFrame(sha, b[..size]) then r == Err(WalCorrupt)
            else r.Ok? <==> Recover(sha, b[size..]).Ok?
  {
    hide Number, DecodeEntry, IsFrame, HeaderMatches;
    var size := Number(b[8..12]);
    if MINIMUM_FRAME_SIZE <= size <= MAXIMUM_FRAME_SIZE && size <= |b| {
      FrameIffDecodes(sha, b[..size]);
      DecodeErrors(sha, b[..size]);
    }
  }

  /** Recovery behind complete frames is recovery of what follows them. */
  lemma {:induction false} RecoverBehind(sha: Bytes -> Digest, prior: seq<JournalEntry>, b: Bytes)
    requires AllRecordable(prior)
    ensures Recover(sha, EncodeAll(sha, prior) + b) == Resume(prior, |EncodeAll(sha, prior)|, Recover(sha, b))
    decreases |prior|
  {
    hide Recover, Frame, Recordable, Resume;
    if prior == [] {
      assert [] + b == b;
      Resumed0(Recover(sha, b));
    } else {
      var rest := EncodeAll(sha, prior[1..]) + b;
      Window(Frame(sha, prior[0]), EncodeAll(sha, prior[1..]), b);
      RecoverBehindOne(sha, prior[0], rest);
      RecoverBehind(sha, prior[1..], b);
      ResumedBoth(prior[0], FrameSize(prior[0]), prior[1..], |EncodeAll(sha, prior[1..])|, Recover(sha, b));
      assert [prior[0]] + prior[1..] == prior;
    }
  }

  lemma ResumedBoth(e: JournalEntry, size: nat, more: seq<JournalEntry>, length: nat, rest: Result<RecoveryLog, ErrorCode>)
    ensures Resume([e], size, Resume(more, length, rest)) == Resume([e] + more, size + length, rest)
  {
    assert rest.Ok? ==> [e] + (more + rest.value.entries) == ([e] + more) + rest.value.entries;
  }

  lemma RecoverBehindOne(sha: Bytes -> Digest, e: JournalEntry, rest: Bytes)
    requires Recordable(e)
    ensures Recover(sha, Frame(sha, e) + rest) == Resume([e], FrameSize(e), Recover(sha, rest))
  {
    hide Recover, Frame, Number, DecodeEntry, HeaderMatches;
    var b := Frame(sha, e) + rest;
    if Recover(sha, rest).Ok? {
      RecoverFrame(sha, e, rest);
    } else {
      assert b[..12] == Frame(sha, e)[..12];
      FrameHeaderLegible(sha, e, b);
      EntryRoundTrip(sha, e);
      assert b[..FrameSize(e)] == Frame(sha, e) && b[FrameSize(e)..] == rest;
      RecoverFails(sha, b, FrameSize(e));
    }
  }

  lemma RecoverFails(sha: Bytes -> Digest, b: Bytes, size: nat)
    requires |b| >= WAL_HEADER_SIZE && HeaderMatches(b) && Number(b[8..12]) == size && size <= |b|
    requires MINIMUM_FRAME_SIZE <= size <= MAXIMUM_FRAME_SIZE && DecodeEntry(sha, b[..size]).Ok? && Recover(sha, b[size..]).Err?
    ensures Recover(sha, b) == Err(Recover(sha, b[size..]).error)
  {
    hide Number, DecodeEntry, HeaderMatches;
  }

  /** Every outcome, behind every durable log, for every prefix length, every pair of entries and
      whatever is written afterwards:
      nothing left - the second entry is recovered;
      one to eight bytes - the log is refused;
      nine to eleven - the header announces a size made of both frames;
      twelve or more - it announces the first frame's size;
      the whole frame - both entries are recovered.
      An announced size out of range refuses the log. One beyond the end of the file makes recovery
      succeed without the second entry: it is silently truncated as a torn tail. Otherwise the log is
      refused unless the bytes up to the announced size happen to form a frame. */
  lemma ContinuedOutcome(sha: Bytes -> Digest, prior: seq<JournalEntry>, first: JournalEntry, second: JournalEntry, k: nat, after: Bytes)
    requires AllRecordable(prior) && Recordable(first) && Recordable(second) && k <= FrameSize(first)
    ensures var b, n := Continued(sha, first, second, k, after), |EncodeAll(sha, prior)|;
            var size, r := Number(b[8..12]), Recover(sha, EncodeAll(sha, prior) + b);
            && (k == 0 ==> r == Resume(prior + [second], n + FrameSize(second), Recover(sha, after)))
            && (k == FrameSize(first) ==> r == Resume(prior + [first, second], n + k + FrameSize(second), Recover(sha, after)))
            && (1 <= k <= 8 ==> r == Err(WalCorrupt))
            && (k >= 12 ==> size == FrameSize(first))
            && (9 <= k < FrameSize(first) ==>
                  if !(MINIMUM_FRAME_SIZE <= size <= MAXIMUM_FRAME_SIZE) then r == Err(WalCorrupt)
                  else if size > |b| then r == Ok(RecoveryLog(prior, n, true))
                  else if !IsFrame(sha, b[..size]) then r == Err(WalCorrupt)
                  else r.Ok? <==> Recover(sha, b[size..]).Ok?)
  {
    hide Number, Continued, Recover, IsFrame, Frame, HeaderMatches, EncodeAll, Recordable;
    var b := Continued(sha, first, second, k, after);
    SizeFits(first);
    if k == 0 {
      NothingOfFirst(sha, prior, first, second, after);
    } else if k == FrameSize(first) {
      AllOfFirst(sha, prior, first, second, after);
      AnnouncesFirst(sha, first, second, k, after);
    } else if k <= 8 {
      RecoverBehind(sha, prior, b);
      ShortPrefixIsCorrupt(sha, first, second, k, after);
    } else {
      RecoverBehind(sha, prior, b);
      LongPrefixIsLegible(sha, first, second, k, after);
      RecoverBySize(sha, b);
      assert prior + [] == prior;
    }
  }

  lemma Appended(sha: Bytes -> Digest, prior: seq<JournalEntry>, e: JournalEntry, rest: Bytes)
    requires AllRecordable(prior) && Recordable(e)
    ensures AllRecordable(prior + [e]) && |EncodeAll(sha, prior + [e])| == |EncodeAll(sha, prior)| + FrameSize(e)
    ensures EncodeAll(sha, prior) + (Frame(sha, e) + rest) == EncodeAll(sha, prior + [e]) + rest
  {
    hide EncodeAll, Frame, Recordable;
    EncodeAllAppend(sha, prior, e);
    Window(EncodeAll(sha, prior), Frame(sha, e), rest);
  }

  lemma NothingOfFirst(sha: Bytes -> Digest, prior: seq<JournalEntry>, first: JournalEntry, second: JournalEntry, after: Bytes)
    requires AllRecordable(prior) && Recordable(first) && Recordable(second)
    ensures Recover(sha, EncodeAll(sha, prior) + Continued(sha, first, second, 0, after))
         == Resume(prior + [second], |EncodeAll(sha, prior)| + FrameSize(second), Recover(sha, after))
  {
    hide Recover, Frame, EncodeAll, Recordable, Resume;
    assert Frame(sha, first)[..0] + (Frame(sha, second) + after) == Frame(sha, second) + after;
    Appended(sha, prior, second, after);
    RecoverBehind(sha, prior + [second], after);
  }

  lemma AllOfFirst(sha: Bytes -> Digest, prior: seq<JournalEntry>, first: JournalEntry, second: JournalEntry, after: Bytes)
    requires AllRecordable(prior) && Recordable(first) && Recordable(second)
    ensures Recover(sha, EncodeAll(sha, prior) + Continued(sha, first, second, FrameSize(first), after))
         == Resume(prior + [first, second], |EncodeAll(sha, prior)| + FrameSize(first) + FrameSize(second), Recover(sha, after))
  {
    hide Recover, Frame, EncodeAll, Recordable, Resume;
    var f := Frame(sha, first);
    assert f[..FrameSize(first)] == f;
    Appended(sha, prior, first, Frame(sha, second) + after);
    Appended(sha, prior + [first], second, after);
    assert prior + [first] + [second] == prior + [first, second];
    RecoverBehind(sha, prior + [first, second], after);
  }

  /** When the announced size ends exactly with the second frame, the two would have to share a
      checksum, so the log is refused unless the two strings hashed collide. */
  lemma ReachingTheEndIsCorrupt(sha: Bytes -> Digest, prior: seq<JournalEntry>, first: JournalEntry, second: JournalEntry, k: nat, after: Bytes)
    requires AllRecordable(prior) && Recordable(first) && Recordable(second) && 12 <= k && FrameSize(first) == k + FrameSize(second)
    requires CollisionFree(sha, {(Frame(sha, first)[..k] + Frame(sha, second))[..FrameSize(first) - DIGEST_SIZE],
                                 Frame(sha, second)[..FrameSize(second) - DIGEST_SIZE]})
    ensures Recover(sha, EncodeAll(sha, prior) + Continued(sha, first, second, k, after)) == Err(WalCorrupt)
  {
    hide Number, Recover, IsFrame, Frame, CollisionFree, Recordable, FrameSize, EncodeAll;
    ContinuedOutcome(sha, prior, first, second, k, after);
    NoFrameEndsInAnother(sha, first, second, k);
    Window([], Frame(sha, first)[..k] + Frame(sha, second), after);
    Window(Frame(sha, first)[..k], Frame(sha, second), after);
    var b := Continued(sha, first, second, k, after);
    assert [] + b == b;
    SizeFits(first);
    SizeFits(second);
  }

  lemma NoFrameEndsInAnother(sha: Bytes -> Digest, first: JournalEntry, second: JournalEntry, k: nat)
    requires Recordable(first) && Recordable(second) && 0 < k < FrameSize(first)
    requires var whole := Frame(sha, first)[..k] + Frame(sha, second);
             CollisionFree(sha, {whole[..|whole| - DIGEST_SIZE], Frame(sha, second)[..FrameSize(second) - DIGEST_SIZE]})
    ensures !IsFrame(sha, Frame(sha, first)[..k] + Frame(sha, second))
  {
    hide Frame, Recordable, Checked, CollisionFree;
    ChecksumOf(sha, second);
    OneChecksum(sha, Frame(sha, first)[..k], Frame(sha, second));
    if e :| Recordable(e) && Frame(sha, e) == Frame(sha, first)[..k] + Frame(sha, second) { ChecksumOf(sha, e); }
  }

  /** The bytes end in the digest of what stands before it. */
  predicate Checked(sha: Bytes -> Digest, b: Bytes) {
    |b| >= DIGEST_SIZE && b[|b| - DIGEST_SIZE..] == sha(b[..|b| - DIGEST_SIZE])
  }

  lemma OneChecksum(sha: Bytes -> Digest, p: Bytes, g: Bytes)
    requires p != [] && Checked(sha, g)
    requires CollisionFree(sha, {(p + g)[..|p + g| - DIGEST_SIZE], g[..|g| - DIGEST_SIZE]})
    ensures !Checked(sha, p + g)
  {
    hide CollisionFree;
    var n, m := |p + g| - DIGEST_SIZE, |g| - DIGEST_SIZE;
    EndOfBoth(p, g, m);
    DifferentLengths(sha, (p + g)[..n], g[..m]);
  }

  lemma EndOfBoth(p: Bytes, g: Bytes, m: nat)
    requires m <= |g|
    ensures (p + g)[|p| + m..] == g[m..]
  {
  }

  lemma DifferentLengths(sha: Bytes -> Digest, x: Bytes, y: Bytes)
    requires CollisionFree(sha, {x, y}) && |x| != |y|
    ensures sha(x) != sha(y)
  {
  }

  lemma ChecksumOf(sha: Bytes -> Digest, e: JournalEntry)
    requires Recordable(e)
    ensures Checked(sha, Frame(sha, e))
  {
    hide FrameBody;
    var f, n := Frame(sha, e), FrameSize(e) - DIGEST_SIZE;
    var body := FrameBody(e, FrameSize(e));
    assert f[..n] == body && f[n..] == sha(body);
  }

  // ----- when the second entry is recovered -----------------------------------

  /** Recovery reads some entry from a frame that starts at this offset. */
  ghost predicate ReadsAt(sha: Bytes -> Digest, b: Bytes, offset: nat) {
    Recover(sha, b).Ok? && StartsAt(sha, Recover(sha, b).value.entries, offset)
  }

  ghost predicate StartsAt(sha: Bytes -> Digest, entries: seq<JournalEntry>, offset: nat)
    decreases |entries|
  {
    AllRecordable(entries) && entries != []
    && (offset == 0 || (FrameSize(entries[0]) <= offset && StartsAt(sha, entries[1..], offset - FrameSize(entries[0]))))
  }

  lemma FirstSize(sha: Bytes -> Digest, b: Bytes)
    requires Recover(sha, b).Ok? && Recover(sha, b).value.entries != []
    ensures |b| >= WAL_HEADER_SIZE && FrameSize(Recover(sha, b).value.entries[0]) == Number(b[8..12]) >= MINIMUM_FRAME_SIZE
  {
    hide Recover, DecodeEntry, Frame, Number;
    RecoverFirst(sha, b);
    DecodedIsFrame(sha, b[..Number(b[8..12])]);
  }

  lemma SizeFits(e: JournalEntry)
    requires Recordable(e)
    ensures MINIMUM_FRAME_SIZE <= FrameSize(e) <= MAXIMUM_FRAME_SIZE
  {
  }

  /** Part of a frame hides the one behind it: no entry is read from the offset where it starts. */
  lemma PartialHidesSecond(sha: Bytes -> Digest, first: JournalEntry, second: JournalEntry, k: nat, after: Bytes)
    requires Recordable(first) && Recordable(second) && 0 < k < FrameSize(first)
    ensures !ReadsAt(sha, Continued(sha, first, second, k, after), k)
  {
    hide Recover, Number, Continued, Recordable, IsFrame, EncodeAll;
    var b := Continued(sha, first, second, k, after);
    NoPrior(sha, b);
    ContinuedOutcome(sha, [], first, second, k, after);
    if ReadsAt(sha, b, k) { FirstSize(sha, b); }
  }

  lemma NoPrior(sha: Bytes -> Digest, b: Bytes)
    ensures AllRecordable([]) && EncodeAll(sha, []) + b == b
  {
  }

  lemma ReadsBehindFrame(sha: Bytes -> Digest, e: JournalEntry, rest: Bytes, offset: nat)
    requires Recordable(e)
    ensures ReadsAt(sha, Frame(sha, e) + rest, FrameSize(e) + offset) <==> ReadsAt(sha, rest, offset)
  {
    hide Recover, Frame, Recordable;
    RecoverBehindOne(sha, e, rest);
    if Recover(sha, rest).Ok? {
      var entries := Recover(sha, rest).value.entries;
      assert ([e] + entries)[1..] == entries && ([e] + entries)[0] == e;
      RecoverSound(sha, rest);
      assert AllRecordable([e] + entries);
      PositiveSize(e);
    }
  }

  lemma PositiveSize(e: JournalEntry)
    ensures FrameSize(e) > 0
  {
  }

  lemma {:induction false} ReadsBehind(sha: Bytes -> Digest, prior: seq<JournalEntry>, rest: Bytes, offset: nat)
    requires AllRecordable(prior)
    ensures ReadsAt(sha, EncodeAll(sha, prior) + rest, |EncodeAll(sha, prior)| + offset) <==> ReadsAt(sha, rest, offset)
    decreases |prior|
  {
    hide Recover, Frame, Recordable, ReadsAt;
    if prior == [] {
      assert [] + rest == rest;
    } else {
      Window(Frame(sha, prior[0]), EncodeAll(sha, prior[1..]), rest);
      ReadsBehindFrame(sha, prior[0], EncodeAll(sha, prior[1..]) + rest, |EncodeAll(sha, prior[1..])| + offset);
      ReadsBehind(sha, prior[1..], rest, offset);
    }
  }

  lemma ReadsFirst(sha: Bytes -> Digest, e: JournalEntry, rest: Bytes)
    requires Recordable(e)
    ensures ReadsAt(sha, Frame(sha, e) + rest, 0) <==> Recover(sha, rest).Ok?
  {
    hide Recover, Frame, Recordable;
    RecoverBehindOne(sha, e, rest);
    if Recover(sha, rest).Ok? { RecoverSound(sha, rest); }
  }

  /** Behind any durable log and whatever follows it, an entry appended after a failed append is read
      from its own frame if and only if the failed append left nothing or its whole frame, and what
      follows is readable. */
  lemma SecondIsReadIff(sha: Bytes -> Digest, prior: seq<JournalEntry>, first: JournalEntry, second: JournalEntry, k: nat, after: Bytes)
    requires AllRecordable(prior) && Recordable(first) && Recordable(second) && k <= FrameSize(first)
    ensures ReadsAt(sha, EncodeAll(sha, prior) + Continued(sha, first, second, k, after), |EncodeAll(sha, prior)| + k)
       <==> (k == 0 || k == FrameSize(first)) && Recover(sha, after).Ok?
  {
    hide Recover, Frame, Recordable, ReadsAt, EncodeAll;
    var b := Continued(sha, first, second, k, after);
    ReadsBehind(sha, prior, b, k);
    if 0 < k < FrameSize(first) {
      PartialHidesSecond(sha, first, second, k, after);
    } else {
      var f, g := Frame(sha, first), Frame(sha, second);
      ReadsFirst(sha, second, after);
      if k == 0 {
        assert f[..0] + (g + after) == g + after;
      } else {
        assert f[..k] == f;
        ReadsBehindFrame(sha, first, g + after, 0);
      }
    }
  }
}
