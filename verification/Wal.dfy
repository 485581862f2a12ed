/** The runtime's write-ahead log and snapshot file formats. */
module Wal {
  import opened Base
  import opened CanonicalIO

  datatype ErrorCode =
    | InvalidConfig | QueueFull | Closed | IoError | WalCorrupt | SnapshotCorrupt
    | SequenceInvalid | RequestConflict | RecoveryMismatch | SimulatedCrash

  datatype JournalKind = Transition | Vote

  datatype JournalEntry = JournalEntry(
    sequence: u64,
    kind: JournalKind,
    commandOrVote: Bytes,
    nextState: Bytes,
    effectBatch: Bytes,
    walRecord: Bytes)

  datatype RecoveryLog = RecoveryLog(entries: seq<JournalEntry>, durablePrefix: nat, tornTail: bool)

  const WAL_MAGIC: Bytes := [0x44, 0x52, 0x57, 0x31]
  const SNAPSHOT_MAGIC: Bytes := [0x44, 0x52, 0x53, 0x31]
  const FORMAT_VERSION: nat := 1
  const WAL_HEADER_SIZE: nat := 12
  const DIGEST_SIZE: nat := 32
  const MAXIMUM_FRAME_SIZE: nat := 64 * 1024 * 1024
  const MINIMUM_FRAME_SIZE: nat := 72

  function KindByte(kind: JournalKind): byte {
    match kind case Transition => 1 case Vote => 2
  }

  // ----- frames -----------------------------------------------------------

  function Section(s: Bytes): Bytes { Big(|s|, 4) + s }

  function Sections(e: JournalEntry): Bytes {
    Section(e.commandOrVote) + (Section(e.nextState) + (Section(e.effectBatch) + Section(e.walRecord)))
  }

  /** The twelve header bytes that `recover` reads before it trusts anything else. */
  function FrameHeader(size: nat): (h: Bytes)
    ensures |h| == WAL_HEADER_SIZE
  {
    WAL_MAGIC + (Big(FORMAT_VERSION, 2) + (Big(0, 2) + Big(size, 4)))
  }

  /** Everything in front of the checksum. */
  function FrameBody(e: JournalEntry, size: nat): Bytes {
    FrameHeader(size) + (Big(e.sequence, 8) + ([KindByte(e.kind), 0, 0, 0] + Sections(e)))
  }

  function FrameSize(e: JournalEntry): nat {
    MINIMUM_FRAME_SIZE + |e.commandOrVote| + |e.nextState| + |e.effectBatch| + |e.walRecord|
  }

  function EncodeEntry(sha: Bytes -> Digest, e: JournalEntry): (r: Result<Bytes, ErrorCode>)
    ensures r.Ok? ==> |r.value| == FrameSize(e)
  {
    if FrameSize(e) >= TWO_32 then Err(IoError)
    else Ok(FrameBody(e, FrameSize(e)) + sha(FrameBody(e, FrameSize(e))))
  }

  /** The shape `decode_entry` demands of each journal kind. */
  predicate WellShaped(e: JournalEntry) {
    && e.commandOrVote != []
    && (e.kind == Transition ==> e.nextState != [] && e.effectBatch != [] && e.walRecord != [])
    && (e.kind == Vote ==> e.nextState == [] && e.effectBatch == [] && e.walRecord == [])
  }

  /** The first section of `b` and what follows it. */
  function TakeSection(b: Bytes): (r: Option<(Bytes, Bytes)>)
    ensures r.Some? ==> |b| == 4 + |r.value.0| + |r.value.1|
  {
    if |b| < 4 || |b| - 4 < Number(b[..4]) then None
    else Some((b[4..4 + Number(b[..4])], b[4 + Number(b[..4])..]))
  }

  function TakeSections(b: Bytes): Option<(Bytes, Bytes, Bytes, Bytes)> {
    match TakeSection(b)
    case None => None
    case Some((s0, b1)) =>
      match TakeSection(b1)
      case None => None
      case Some((s1, b2)) =>
        match TakeSection(b2)
        case None => None
        case Some((s2, b3)) =>
          match TakeSection(b3)
          case None => None
          case Some((s3, b4)) => if b4 == [] then Some((s0, s1, s2, s3)) else None
  }

  predicate HeaderMatches(b: Bytes)
    requires |b| >= WAL_HEADER_SIZE
  {
    b[..4] == WAL_MAGIC && Number(b[4..6]) == FORMAT_VERSION && Number(b[6..8]) == 0
  }

  /** The part of `decode_entry` between the fixed header and the checksum. */
  function DecodeBody(b: Bytes): Result<JournalEntry, ErrorCode> {
    if |b| < 12 || b[9..12] != [0, 0, 0] || !(b[8] == 1 || b[8] == 2) then Err(WalCorrupt)
    else
      BigOfNumber(b[..8]);
      WordRanges();
      match TakeSections(b[12..])
      case None => Err(WalCorrupt)
      case Some((s0, s1, s2, s3)) =>
        var e := JournalEntry(Number(b[..8]), if b[8] == 1 then Transition else Vote, s0, s1, s2, s3);
        if WellShaped(e) then Ok(e) else Err(WalCorrupt)
  }

  function DecodeEntry(sha: Bytes -> Digest, frame: Bytes): Result<JournalEntry, ErrorCode> {
    if |frame| < MINIMUM_FRAME_SIZE then Err(WalCorrupt)
    else
      var body := frame[..|frame| - DIGEST_SIZE];
      if sha(body) != frame[|frame| - DIGEST_SIZE..] then Err(WalCorrupt)
      else if !HeaderMatches(body) || Number(body[8..12]) != |frame| then Err(WalCorrupt)
      else DecodeBody(body[12..])
  }

  lemma TakeSectionOf(s: Bytes, rest: Bytes)
    requires |s| < TWO_32
    ensures TakeSection(Section(s) + rest) == Some((s, rest))
  {
    WordRanges();
    NumberOfBig(|s|, 4);
    var b := Section(s) + rest;
    assert b[..4] == Big(|s|, 4);
    assert b[4..4 + |s|] == s && b[4 + |s|..] == rest;
  }

  lemma SectionOfTaken(b: Bytes)
    requires TakeSection(b).Some?
    ensures b == Section(TakeSection(b).value.0) + TakeSection(b).value.1
  {
    BigOfNumber(b[..4]);
    assert b == b[..4] + (TakeSection(b).value.0 + TakeSection(b).value.1);
  }

  lemma TakeSectionsOf(e: JournalEntry)
    requires FrameSize(e) < TWO_32
    ensures TakeSections(Sections(e)) == Some((e.commandOrVote, e.nextState, e.effectBatch, e.walRecord))
  {
    hide Section, TakeSection;
    TakeSectionOf(e.commandOrVote, Section(e.nextState) + (Section(e.effectBatch) + Section(e.walRecord)));
    TakeSectionOf(e.nextState, Section(e.effectBatch) + Section(e.walRecord));
    TakeSectionOf(e.effectBatch, Section(e.walRecord));
    TakeSectionOf(e.walRecord, []);
    assert Section(e.walRecord) + [] == Section(e.walRecord);
  }

  lemma BodyRoundTrip(e: JournalEntry)
    requires FrameSize(e) < TWO_32 && WellShaped(e)
    ensures DecodeBody(Big(e.sequence, 8) + ([KindByte(e.kind), 0, 0, 0] + Sections(e))) == Ok(e)
  {
    hide Sections, TakeSections, Number, Big;
    var b := Big(e.sequence, 8) + ([KindByte(e.kind), 0, 0, 0] + Sections(e));
    WordRanges();
    NumberOfBig(e.sequence, 8);
    TakeSectionsOf(e);
    assert b[..8] == Big(e.sequence, 8);
    assert b[12..] == Sections(e);
    assert b[9..12] == [0, 0, 0];
  }

  lemma HeaderRoundTrip(size: u32, rest: Bytes)
    ensures var b := FrameHeader(size) + rest;
            HeaderMatches(b) && Number(b[8..12]) == size && b[12..] == rest
  {
    hide Number, Big;
    var b := FrameHeader(size) + rest;
    WordRanges();
    NumberOfBig(FORMAT_VERSION, 2);
    NumberOfBig(0, 2);
    NumberOfBig(size, 4);
    assert b[..4] == WAL_MAGIC;
    assert b[4..6] == Big(FORMAT_VERSION, 2);
    assert b[6..8] == Big(0, 2);
    assert b[8..12] == Big(size, 4);
  }

  lemma HeaderOfMatching(b: Bytes)
    requires |b| >= WAL_HEADER_SIZE && HeaderMatches(b)
    ensures b[..12] == FrameHeader(Number(b[8..12])) && Number(b[8..12]) < TWO_32
  {
    hide Number, Big;
    BigOfNumber(b[4..6]);
    BigOfNumber(b[6..8]);
    BigOfNumber(b[8..12]);
    WordRanges();
    assert b[..12] == b[..4] + (b[4..6] + (b[6..8] + b[8..12]));
  }

  /** A frame decodes to the entry it was built from. */
  lemma EntryRoundTrip(sha: Bytes -> Digest, e: JournalEntry)
    requires EncodeEntry(sha, e).Ok? && WellShaped(e)
    ensures DecodeEntry(sha, EncodeEntry(sha, e).value) == Ok(e)
  {
    hide Number, Big, DecodeBody, Sections, HeaderMatches;
    var frame := EncodeEntry(sha, e).value;
    var body := FrameBody(e, FrameSize(e));
    assert frame[..|frame| - DIGEST_SIZE] == body;
    assert frame[|frame| - DIGEST_SIZE..] == sha(body);
    HeaderRoundTrip(FrameSize(e), Big(e.sequence, 8) + ([KindByte(e.kind), 0, 0, 0] + Sections(e)));
    BodyRoundTrip(e);
  }

  lemma SectionsExact(b: Bytes, e: JournalEntry)
    requires TakeSections(b) == Some((e.commandOrVote, e.nextState, e.effectBatch, e.walRecord))
    ensures b == Sections(e)
  {
    hide Section, TakeSection;
    SectionOfTaken(b);
    var b1 := TakeSection(b).value.1;
    SectionOfTaken(b1);
    var b2 := TakeSection(b1).value.1;
    SectionOfTaken(b2);
    var b3 := TakeSection(b2).value.1;
    SectionOfTaken(b3);
    assert Section(e.walRecord) + [] == Section(e.walRecord);
  }

  lemma BodyExact(b: Bytes)
    requires DecodeBody(b).Ok?
    ensures var e := DecodeBody(b).value;
            WellShaped(e) && b == Big(e.sequence, 8) + ([KindByte(e.kind), 0, 0, 0] + Sections(e))
  {
    hide Sections, TakeSections, Number, Big;
    var e := DecodeBody(b).value;
    SectionsExact(b[12..], e);
    BigOfNumber(b[..8]);
    assert b[8..12] == [b[8]] + b[9..12];
    assert b == b[..8] + (b[8..12] + b[12..]);
  }

  /** Every accepted frame is the encoding of the entry it decodes to. */
  lemma EntryExact(sha: Bytes -> Digest, frame: Bytes)
    requires DecodeEntry(sha, frame).Ok?
    ensures var e := DecodeEntry(sha, frame).value;
            WellShaped(e) && EncodeEntry(sha, e) == Ok(frame)
  {
    hide Number, Big, DecodeBody, HeaderMatches;
    var e := DecodeEntry(sha, frame).value;
    var body := frame[..|frame| - DIGEST_SIZE];
    HeaderOfMatching(body);
    BodyExact(body[12..]);
    assert body == body[..12] + body[12..];
    assert |body| == FrameSize(e) - DIGEST_SIZE;
    assert frame == body + frame[|frame| - DIGEST_SIZE..];
  }

  // ----- recovery ---------------------------------------------------------

  function Recover(sha: Bytes -> Digest, b: Bytes): (r: Result<RecoveryLog, ErrorCode>)
    ensures r.Ok? ==> r.value.durablePrefix <= |b|
  {
    if b == [] then Ok(RecoveryLog([], 0, false))
    else if |b| < WAL_HEADER_SIZE then Ok(RecoveryLog([], 0, true))
    else if !HeaderMatches(b) then Err(WalCorrupt)
    else
      var size := Number(b[8..12]);
      if !(MINIMUM_FRAME_SIZE <= size <= MAXIMUM_FRAME_SIZE) then Err(WalCorrupt)
      else if size > |b| then Ok(RecoveryLog([], 0, true))
      else
        var entry :- DecodeEntry(sha, b[..size]);
        var rest :- Recover(sha, b[size..]);
        Ok(RecoveryLog([entry] + rest.entries, size + rest.durablePrefix, rest.tornTail))
  }

  /** Entries the runtime may append: complete, and within the limit that recovery enforces. */
  predicate Recordable(e: JournalEntry) {
    WellShaped(e) && FrameSize(e) <= MAXIMUM_FRAME_SIZE
  }

  predicate AllRecordable(entries: seq<JournalEntry>) {
    forall i :: 0 <= i < |entries| ==> Recordable(entries[i])
  }

  /** The bytes of one recordable entry. */
  function Frame(sha: Bytes -> Digest, e: JournalEntry): (frame: Bytes)
    requires Recordable(e)
    ensures EncodeEntry(sha, e) == Ok(frame) && |frame| == FrameSize(e) > 0
  {
    EncodeEntry(sha, e).value
  }

  function EncodeAll(sha: Bytes -> Digest, entries: seq<JournalEntry>): Bytes
    requires AllRecordable(entries)
  {
    if entries == [] then [] else Frame(sha, entries[0]) + EncodeAll(sha, entries[1..])
  }

  lemma {:induction false} EncodeAllAppend(sha: Bytes -> Digest, entries: seq<JournalEntry>, e: JournalEntry)
    requires AllRecordable(entries) && Recordable(e)
    ensures EncodeAll(sha, entries + [e]) == EncodeAll(sha, entries) + Frame(sha, e)
  {
    hide Frame, Recordable, EncodeEntry;
    if entries != [] {
      assert (entries + [e])[1..] == entries[1..] + [e];
      EncodeAllAppend(sha, entries[1..], e);
    } else {
      assert (entries + [e])[1..] == [];
      assert Frame(sha, e) + [] == Frame(sha, e);
    }
  }

  /** The header of a frame is legible from any prefix that reaches past it. */
  lemma FrameHeaderLegible(sha: Bytes -> Digest, e: JournalEntry, b: Bytes)
    requires Recordable(e) && |b| >= WAL_HEADER_SIZE
    requires b[..12] == Frame(sha, e)[..12]
    ensures HeaderMatches(b) && Number(b[8..12]) == FrameSize(e)
  {
    hide Number, Big, Sections;
    var frame := Frame(sha, e);
    assert frame[..12] == FrameHeader(FrameSize(e));
    HeaderRoundTrip(FrameSize(e), b[12..]);
    assert b == b[..12] + b[12..];
  }

  lemma RecoverStep(sha: Bytes -> Digest, b: Bytes, e: JournalEntry, size: nat)
    requires |b| >= WAL_HEADER_SIZE && HeaderMatches(b) && Number(b[8..12]) == size
    requires MINIMUM_FRAME_SIZE <= size <= MAXIMUM_FRAME_SIZE && size <= |b|
    requires DecodeEntry(sha, b[..size]) == Ok(e) && Recover(sha, b[size..]).Ok?
    ensures var log := Recover(sha, b[size..]).value;
            Recover(sha, b) == Ok(RecoveryLog([e] + log.entries, size + log.durablePrefix, log.tornTail))
  {
    hide Number, DecodeEntry, HeaderMatches;
  }

  lemma RecoverFrame(sha: Bytes -> Digest, e: JournalEntry, rest: Bytes)
    requires Recordable(e) && Recover(sha, rest).Ok?
    ensures var log := Recover(sha, rest).value;
            Recover(sha, Frame(sha, e) + rest)
            == Ok(RecoveryLog([e] + log.entries, FrameSize(e) + log.durablePrefix, log.tornTail))
  {
    hide Number, Frame, EncodeEntry, DecodeEntry, HeaderMatches, Recover;
    var frame := Frame(sha, e);
    var b := frame + rest;
    assert b[..12] == frame[..12];
    FrameHeaderLegible(sha, e, b);
    EntryRoundTrip(sha, e);
    assert b[..FrameSize(e)] == frame && b[FrameSize(e)..] == rest;
    RecoverStep(sha, b, e, FrameSize(e));
  }

  lemma RecoverTorn(sha: Bytes -> Digest, e: JournalEntry, torn: Bytes)
    requires Recordable(e)
    requires torn < Frame(sha, e)
    ensures Recover(sha, torn) == Ok(RecoveryLog([], 0, torn != []))
  {
    hide Number, Big, Sections, FrameBody, DecodeEntry, HeaderMatches, EncodeEntry;
    if |torn| >= WAL_HEADER_SIZE {
      assert torn[..12] == Frame(sha, e)[..12];
      FrameHeaderLegible(sha, e, torn);
    }
  }

  /** Recovery of complete frames followed by any proper prefix of one more returns exactly
      those entries, their total length, and reports the torn tail iff there is one. */
  lemma {:induction false} RecoverExact(sha: Bytes -> Digest, entries: seq<JournalEntry>, next: JournalEntry, torn: Bytes)
    requires AllRecordable(entries)
    requires Recordable(next) && torn < Frame(sha, next)
    ensures Recover(sha, EncodeAll(sha, entries) + torn)
         == Ok(RecoveryLog(entries, |EncodeAll(sha, entries)|, torn != []))
  {
    hide Frame, EncodeEntry, Recover, Recordable;
    if entries == [] {
      RecoverTorn(sha, next, torn);
      assert [] + torn == torn;
    } else {
      RecoverExact(sha, entries[1..], next, torn);
      RecoverFrame(sha, entries[0], EncodeAll(sha, entries[1..]) + torn);
      assert EncodeAll(sha, entries) + torn
          == Frame(sha, entries[0]) + (EncodeAll(sha, entries[1..]) + torn);
      assert [entries[0]] + entries[1..] == entries;
    }
  }

  /** The first entry recovered is the frame whose size the header announces; recovery goes on behind it. */
  lemma RecoverFirst(sha: Bytes -> Digest, b: Bytes)
    requires Recover(sha, b).Ok? && Recover(sha, b).value.entries != []
    ensures |b| >= WAL_HEADER_SIZE && MINIMUM_FRAME_SIZE <= Number(b[8..12]) <= MAXIMUM_FRAME_SIZE && Number(b[8..12]) <= |b|
    ensures var size, log := Number(b[8..12]), Recover(sha, b).value;
            && DecodeEntry(sha, b[..size]) == Ok(log.entries[0]) && Recover(sha, b[size..]).Ok?
            && var rest := Recover(sha, b[size..]).value;
               log.entries[1..] == rest.entries && log.durablePrefix == size + rest.durablePrefix && log.tornTail == rest.tornTail
  {
    hide Number, DecodeEntry, HeaderMatches;
    var size := Number(b[8..12]);
    var e, rest := DecodeEntry(sha, b[..size]).value, Recover(sha, b[size..]).value.entries;
    assert ([e] + rest)[0] == e && ([e] + rest)[1..] == rest;
  }

  lemma RecoverNone(sha: Bytes -> Digest, b: Bytes)
    requires Recover(sha, b).Ok? && Recover(sha, b).value.entries == []
    ensures Recover(sha, b).value.durablePrefix == 0 && (Recover(sha, b).value.tornTail <==> b != [])
  {
    hide Number, DecodeEntry, HeaderMatches;
  }

  /** A decoded frame of announced size is the frame of a recordable entry. */
  lemma DecodedIsFrame(sha: Bytes -> Digest, frame: Bytes)
    requires DecodeEntry(sha, frame).Ok? && |frame| <= MAXIMUM_FRAME_SIZE
    ensures Recordable(DecodeEntry(sha, frame).value) && Frame(sha, DecodeEntry(sha, frame).value) == frame
  {
    hide DecodeEntry, EncodeEntry, WellShaped;
    EntryExact(sha, frame);
    FrameFromExact(sha, DecodeEntry(sha, frame).value, frame);
  }

  /** Conversely, whatever recovery accepts is, up to the durable prefix, a log of exactly the
      entries it returns; nothing else passes its checks. */
  lemma {:induction false} RecoverSound(sha: Bytes -> Digest, b: Bytes)
    requires Recover(sha, b).Ok?
    ensures var log := Recover(sha, b).value;
            AllRecordable(log.entries)
            && b[..log.durablePrefix] == EncodeAll(sha, log.entries)
            && (log.tornTail <==> log.durablePrefix < |b|)
    decreases |b|
  {
    hide Recover, DecodeEntry, Frame, Recordable, Number;
    var log := Recover(sha, b).value;
    if log.entries == [] {
      RecoverNone(sha, b);
    } else {
      RecoverFirst(sha, b);
      var size := Number(b[8..12]);
      var rest := Recover(sha, b[size..]).value;
      RecoverSound(sha, b[size..]);
      DecodedIsFrame(sha, b[..size]);
      assert forall i :: 0 < i < |log.entries| ==> log.entries[i] == rest.entries[i - 1];
      CutTwice(b, size, rest.durablePrefix);
    }
  }

  lemma FrameFromExact(sha: Bytes -> Digest, e: JournalEntry, frame: Bytes)
    requires EncodeEntry(sha, e) == Ok(frame)
    ensures FrameSize(e) == |frame|
  {
  }

  // ----- the loops as the program runs them --------------------------------

  method AppendSection(output: Output, s: Bytes) returns (fits: bool)
    modifies output
    ensures fits <==> |s| < TWO_32
    ensures fits ==> output.data == old(output.data) + Section(s)
  {
    fits := |s| < TWO_32;
    if fits {
      output.AppendBig(|s|, 4);
      output.Append(s);
    }
  }

  /** `encode_entry`: append every field, then patch the frame size over its placeholder. */
  method BuildFrame(sha: Bytes -> Digest, e: JournalEntry) returns (r: Result<Bytes, ErrorCode>)
    ensures r == EncodeEntry(sha, e)
  {
    hide Big, FrameBody, Section;
    var output := new Output();
    output.Append(WAL_MAGIC);
    output.AppendBig(FORMAT_VERSION, 2);
    output.AppendBig(0, 2);
    var sizeOffset := |output.data|;
    output.AppendBig(0, 4);
    output.AppendBig(e.sequence, 8);
    output.Append([KindByte(e.kind), 0, 0, 0]);
    ghost var fixed := output.data;
    var fits := AppendSection(output, e.commandOrVote);
    if !fits { return Err(IoError); }
    fits := AppendSection(output, e.nextState);
    if !fits { return Err(IoError); }
    fits := AppendSection(output, e.effectBatch);
    if !fits { return Err(IoError); }
    fits := AppendSection(output, e.walRecord);
    if !fits { return Err(IoError); }
    assert output.data == fixed + Sections(e);
    SectionsLength(e);
    var total := |output.data| + DIGEST_SIZE;
    assert total == FrameSize(e);
    if total >= TWO_32 { return Err(IoError); }
    var sized := new Output();
    sized.AppendBig(total, 4);
    var patched := output.data[..sizeOffset] + sized.data + output.data[sizeOffset + 4..];
    Patched(e, total, output.data);
    assert sized.data == Big(total, 4);
    assert patched == FrameBody(e, total);
    r := Ok(patched + sha(patched));
  }

  lemma SectionsLength(e: JournalEntry)
    ensures |Sections(e)| == FrameSize(e) - 56
  {
  }

  /** Overwriting the four placeholder bytes gives the body with its real size. */
  lemma Patched(e: JournalEntry, total: nat, draft: Bytes)
    requires draft == WAL_MAGIC + Big(FORMAT_VERSION, 2) + Big(0, 2) + Big(0, 4) + Big(e.sequence, 8)
                    + [KindByte(e.kind), 0, 0, 0] + Sections(e)
    ensures draft[..8] + Big(total, 4) + draft[12..] == FrameBody(e, total)
  {
    hide Big, Sections;
    assert draft[..8] == WAL_MAGIC + (Big(FORMAT_VERSION, 2) + Big(0, 2));
    assert draft[12..] == Big(e.sequence, 8) + ([KindByte(e.kind), 0, 0, 0] + Sections(e));
  }

  /** `Wal::recover`: walk the file frame by frame with a cursor. */
  method RecoverFile(sha: Bytes -> Digest, b: Bytes) returns (r: Result<RecoveryLog, ErrorCode>)
    ensures r == Recover(sha, b)
  {
    hide Number, DecodeEntry, HeaderMatches;
    var entries: seq<JournalEntry> := [];
    var cursor := 0;
    var torn := false;
    assert b[0..] == b;
    Resumed0(Recover(sha, b));
    while cursor < |b|
      invariant 0 <= cursor <= |b|
      invariant !torn
      invariant Recover(sha, b) == Resume(entries, cursor, Recover(sha, b[cursor..]))
      decreases |b| - cursor
    {
      var remaining := b[cursor..];
      if |remaining| < WAL_HEADER_SIZE { torn := true; break; }
      if !HeaderMatches(remaining) { return Err(WalCorrupt); }
      var size := Number(remaining[8..12]);
      if !(MINIMUM_FRAME_SIZE <= size <= MAXIMUM_FRAME_SIZE) { return Err(WalCorrupt); }
      if size > |remaining| { torn := true; break; }
      var entry := DecodeEntry(sha, remaining[..size]);
      if entry.Err? { return Err(entry.error); }
      assert b[cursor..][size..] == b[cursor + size..];
      Resumed1(entries, cursor, entry.value, size, Recover(sha, b[cursor + size..]));
      entries := entries + [entry.value];
      cursor := cursor + size;
    }
    assert entries + [] == entries;
    assert cursor == |b| ==> b[cursor..] == [];
    r := Ok(RecoveryLog(entries, cursor, torn));
  }

  /** The log found after `done` entries were already read up to `cursor`. */
  ghost function Resume(done: seq<JournalEntry>, cursor: nat, rest: Result<RecoveryLog, ErrorCode>)
    : Result<RecoveryLog, ErrorCode>
  {
    match rest
    case Ok(log) => Ok(RecoveryLog(done + log.entries, cursor + log.durablePrefix, log.tornTail))
    case Err(e) => Err(e)
  }

  lemma Resumed0(rest: Result<RecoveryLog, ErrorCode>)
    ensures Resume([], 0, rest) == rest
  {
    assert rest.Ok? ==> [] + rest.value.entries == rest.value.entries;
  }

  lemma Resumed1(done: seq<JournalEntry>, cursor: nat, e: JournalEntry, size: nat, rest: Result<RecoveryLog, ErrorCode>)
    ensures Resume(done, cursor, Resume([e], size, rest)) == Resume(done + [e], cursor + size, rest)
  {
    assert rest.Ok? ==> done + ([e] + rest.value.entries) == (done + [e]) + rest.value.entries;
  }

  // ----- snapshots --------------------------------------------------------

  datatype Snapshot = Snapshot(journalSequence: u64, stateBytes: Bytes)

  const SNAPSHOT_FIXED_SIZE: nat := 84

  function SnapshotBody(sha: Bytes -> Digest, s: Snapshot): Bytes {
    SNAPSHOT_MAGIC + (Big(FORMAT_VERSION, 2) + (Big(0, 2) + (Big(s.journalSequence, 8)
      + (Big(|s.stateBytes|, 4) + (sha(s.stateBytes) + s.stateBytes)))))
  }

  function EncodeSnapshot(sha: Bytes -> Digest, s: Snapshot): Result<Bytes, ErrorCode> {
    if |s.stateBytes| >= TWO_32 then Err(IoError)
    else Ok(SnapshotBody(sha, s) + sha(SnapshotBody(sha, s)))
  }

  function ReadSnapshot(sha: Bytes -> Digest, b: Bytes): Result<Snapshot, ErrorCode> {
    if |b| < SNAPSHOT_FIXED_SIZE then Err(SnapshotCorrupt)
    else
      var body := b[..|b| - DIGEST_SIZE];
      var state := body[52..];
      BigOfNumber(body[8..16]);
      WordRanges();
      if && sha(body) == b[|b| - DIGEST_SIZE..]
         && body[..4] == SNAPSHOT_MAGIC
         && Number(body[4..6]) == FORMAT_VERSION
         && Number(body[6..8]) == 0
         && Number(body[16..20]) == |state|
         && sha(state) == body[20..52]
      then Ok(Snapshot(Number(body[8..16]), state))
      else Err(SnapshotCorrupt)
  }

  lemma SnapshotRoundTrip(sha: Bytes -> Digest, s: Snapshot)
    requires EncodeSnapshot(sha, s).Ok?
    ensures ReadSnapshot(sha, EncodeSnapshot(sha, s).value) == Ok(s)
  {
    hide Number, Big, SnapshotBody;
    var b := EncodeSnapshot(sha, s).value;
    var body := SnapshotBody(sha, s);
    Window([], body, sha(body));
    assert [] + (body + sha(body)) == b;
    WordRanges();
    NumberOfBig(FORMAT_VERSION, 2);
    NumberOfBig(0, 2);
    NumberOfBig(s.journalSequence, 8);
    NumberOfBig(|s.stateBytes|, 4);
    SnapshotPieces(sha, s);
  }

  /** Each field of the snapshot stands at its offset. */
  lemma SnapshotPieces(sha: Bytes -> Digest, s: Snapshot)
    ensures var body := SnapshotBody(sha, s);
            && |body| == 52 + |s.stateBytes| && body[..4] == SNAPSHOT_MAGIC
            && body[4..6] == Big(FORMAT_VERSION, 2) && body[6..8] == Big(0, 2)
            && body[8..16] == Big(s.journalSequence, 8) && body[16..20] == Big(|s.stateBytes|, 4)
            && body[20..52] == sha(s.stateBytes) && body[52..] == s.stateBytes
  {
    hide Big;
    var v, z, q, n, d := Big(FORMAT_VERSION, 2), Big(0, 2), Big(s.journalSequence, 8), Big(|s.stateBytes|, 4), sha(s.stateBytes);
    var t5 := d + s.stateBytes;
    var t4 := n + t5;
    var t3 := q + t4;
    var t2 := z + t3;
    Window([], SNAPSHOT_MAGIC, v + t2);
    assert [] + (SNAPSHOT_MAGIC + (v + t2)) == SNAPSHOT_MAGIC + (v + t2);
    Window(SNAPSHOT_MAGIC, v, t2);
    Window(SNAPSHOT_MAGIC + v, z, t3);
    Window(SNAPSHOT_MAGIC + v + z, q, t4);
    Window(SNAPSHOT_MAGIC + v + z + q, n, t5);
    Window(SNAPSHOT_MAGIC + v + z + q + n, d, s.stateBytes);
  }
}
