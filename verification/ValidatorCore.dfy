/** The real validator core: canonical bytes in, canonical bytes out; and the recovery theorem
    for the runtime that runs it. */
module ValidatorCore {
  import opened Base
  import opened Canonical
  import opened Identity
  import opened Protocol
  import T = Transition
  import W = Wal
  import R = Runtime
  import Runs = RuntimeRuns

  function HashDomain(t: Type): string {
    match t
    case RoundConfigType => "deltareduce:003:round-config:v1"
    case WorkTicketType => "deltareduce:003:work-ticket:v1"
    case VoteType => "deltareduce:003:vote:v1"
    case QuorumCertificateType => "deltareduce:003:quorum-certificate:v1"
    case RoundStateType => "deltareduce:003:round-state:v1"
    case CommandType => "deltareduce:003:command:v1"
    case EffectBatchType => "deltareduce:003:effect-batch:v1"
    case WalRecordType => "deltareduce:003:wal-record:v1"
    case RuntimeDescriptorType => "deltareduce:003:runtime-descriptor:v1"
    case PreparedIntegerShardType => "deltareduce:003:prepared-integer-shard:v1"
  }

  function ContentId(sha: Bytes -> Digest, t: Type, envelope: Bytes): string {
    IdOf(sha(Separated(HashDomain(t), envelope)))
  }

  function EffectsOf(c: Command, priorStateId: string, nextStateId: string): EffectBatch {
    var prefix := "effect:" + c.requestId + ":";
    EffectBatch(
      [Effect(nextStateId, prefix + "01:persist", "PERSIST_STATE", c.actorId),
       Effect(c.bodyHash, prefix + "02:publish", "PUBLISH_CERTIFICATE", "validators")],
      nextStateId, priorStateId, c.requestId, c.roundId)
  }

  function Parsed<X>(r: Parse<X>): R.Outcome<X> {
    match r case Ok(v) => Ok(v) case Err(e) => Err(R.ParseFailed(e))
  }

  function Stepped(r: Result<RoundState, T.Code>): R.Outcome<RoundState> {
    match r case Ok(v) => Ok(v) case Err(e) => Err(R.TransitionFailed(e))
  }

  /** `core::transition::apply` on bytes. */
  function Apply(sha: Bytes -> Digest, prior: Bytes, command: Bytes): R.Outcome<R.Applied> {
    var state :- Parsed(ParseRoundState(prior, DefaultLimits));
    var c :- Parsed(ParseCommand(command, DefaultLimits));
    var next :- Stepped(T.Step(state, c));
    var nextBytes :- Parsed(EncodeRoundState(next, DefaultLimits));
    var priorId := ContentId(sha, RoundStateType, prior);
    var commandId := ContentId(sha, CommandType, command);
    var nextId := ContentId(sha, RoundStateType, nextBytes);
    var effects :- Parsed(EncodeEffectBatch(EffectsOf(c, priorId, nextId), DefaultLimits));
    var effectsId := ContentId(sha, EffectBatchType, effects);
    var record := WalRecord(commandId, effectsId, nextId, priorId, c.roundId, next.durableSequence);
    var recordBytes :- Parsed(EncodeWalRecord(record, DefaultLimits));
    Ok(R.Applied(nextBytes, effects, recordBytes, commandId, nextId, effectsId,
                 ContentId(sha, WalRecordType, recordBytes)))
  }

  function RequestId(command: Bytes): R.Outcome<string> {
    var c :- Parsed(ParseCommand(command, DefaultLimits));
    Ok(c.requestId)
  }

  function CheckState(b: Bytes): R.Outcome<()> {
    var _ :- Parsed(ParseRoundState(b, DefaultLimits));
    Ok(())
  }

  function RealCore(sha: Bytes -> Digest): R.Core {
    R.Core(
      b => CheckState(b),
      c => RequestId(c),
      c => ContentId(sha, CommandType, c),
      (s, c) => Apply(sha, s, c),
      b => Parsed(ParseVote(b, DefaultLimits)),
      b => ContentId(sha, VoteType, b))
  }

  // ----- sizes -------------------------------------------------------------

  lemma ParsedSize(b: Bytes, kind: Type, schema: seq<Field>, limits: Limits)
    requires ParseSlots(b, kind, schema, limits).Ok?
    ensures HEADER_SIZE <= |b| <= limits.envelopeBytes
  {
    hide DecodePayload, ScanFields, DecodeType;
  }

  const SMALL: nat := 122

  /** At most 32 characters of key and 80 of text, or a number. */
  predicate SmallEntry(e: Entry) {
    |e.key| <= 32 && (e.value.Unsigned? || (e.value.Text? && |e.value.text| <= 80))
  }

  lemma SmallEntrySize(e: Entry, limits: Limits, depth: nat)
    requires SmallEntry(e) && EncodeText(e.key, limits).Ok? && EncodeValue(e.value, limits, depth).Ok?
    ensures |EncodeText(e.key, limits).value| + |EncodeValue(e.value, limits, depth).value| <= SMALL
  {
  }

  /** All entries but the one at `k` are small; that one is a text of at most `limits.valueBytes`. */
  lemma {:induction false} EntriesSize(prior: Option<string>, entries: seq<Entry>, k: nat, limits: Limits, depth: nat)
    requires EncodeEntries(prior, entries, limits, depth).Ok?
    requires forall i :: 0 <= i < |entries| && i != k ==> SmallEntry(entries[i])
    requires k < |entries| ==> |entries[k].key| <= 32 && entries[k].value.Text?
    ensures |EncodeEntries(prior, entries, limits, depth).value|
         <= SMALL * |entries| + if k < |entries| then limits.valueBytes else 0
    decreases entries
  {
    hide SmallEntry, EncodeText, IsMapKey, StringLess, EncodeValue;
    if entries != [] {
      var rest := entries[1..];
      var k' := if k == 0 then |entries| else k - 1;
      forall i | 0 <= i < |rest| && i != k' ensures SmallEntry(rest[i]) { assert rest[i] == entries[i + 1]; }
      EntriesSize(Some(entries[0].key), rest, k', limits, depth);
      if k == 0 {
        TextEntrySize(entries[0], limits, depth);
      } else {
        SmallEntrySize(entries[0], limits, depth);
      }
    }
  }

  lemma TextEntrySize(e: Entry, limits: Limits, depth: nat)
    requires |e.key| <= 32 && e.value.Text? && EncodeText(e.key, limits).Ok? && EncodeValue(e.value, limits, depth).Ok?
    ensures |EncodeText(e.key, limits).value| + |EncodeValue(e.value, limits, depth).value| <= SMALL + limits.valueBytes
  {
  }

  lemma {:induction false} DecimalLength(n: nat, digits: nat)
    requires digits > 0 && n < Pow10(digits)
    ensures |Decimal(n)| <= digits
  {
    if digits > 1 && n >= 10 { DecimalLength(n / 10, digits - 1); }
  }

  function Pow10(n: nat): nat { if n == 0 then 1 else 10 * Pow10(n - 1) }

  lemma WordDecimalLength(n: u64)
    ensures |Decimal(n)| <= 20
  {
    assert Pow10(2) == 100 && Pow10(4) == 10_000 && Pow10(6) == 1_000_000 && Pow10(8) == 100_000_000;
    assert Pow10(10) == 10_000_000_000 && Pow10(12) == 1_000_000_000_000 && Pow10(14) == 100_000_000_000_000;
    assert Pow10(16) == 10_000_000_000_000_000 && Pow10(18) == 1_000_000_000_000_000_000;
    DecimalLength(n, 20);
  }

  /** A WAL record has one unbounded field, its round identifier. */
  lemma WalRecordSize(w: WalRecord)
    requires EncodeWalRecord(w, DefaultLimits).Ok?
    ensures 0 < |EncodeWalRecord(w, DefaultLimits).value| <= 5 * 1024 * 1024
  {
    hide EncodeEntries, ParseWalRecord, EncodeText, IsHexDigit, Decimal;
    var b := EncodeWalRecord(w, DefaultLimits).value;
    WalRecordRoundTrip(b, w, DefaultLimits);
    WalRecordFieldsSmall(w);
    var fields := PrintFields(WalRecordSchema, WalRecordSlots(w));
    var body := EncodeEntries(None, fields, DefaultLimits, 1);
    EntriesSize(None, fields, 6, DefaultLimits, 1);
    assert |b| == 12 + 5 + |body.value|;
  }

  lemma WalRecordFieldsSmall(w: WalRecord)
    requires EncodeWalRecord(w, DefaultLimits).Ok?
    ensures var fields := PrintFields(WalRecordSchema, WalRecordSlots(w));
            && (forall i :: 0 <= i < |fields| && i != 6 ==> SmallEntry(fields[i]))
            && |fields[6].key| <= 32 && fields[6].value.Text?
  {
    hide EncodeSlots, IsHexDigit, Decimal, ParseSlots;
    var b := EncodeWalRecord(w, DefaultLimits).value;
    WalRecordRoundTrip(b, w, DefaultLimits);
    WordDecimalLength(w.sequence);
    var fields := PrintFields(WalRecordSchema, WalRecordSlots(w));
    assert ValidWalIds(w);
    forall i | 0 <= i < |fields| && i != 6 ensures SmallEntry(fields[i]) {
      assert fields[i] == Entry(WalRecordSchema[i].name, PrintSlot(WalRecordSlots(w)[i]));
    }
  }

  /** No accepted command or vote can produce a frame above the limit that recovery enforces,
      although `encode_entry` itself does not check it. */
  lemma FramesFit(sha: Bytes -> Digest, prior: Bytes, command: Bytes)
    requires Apply(sha, prior, command).Ok?
    ensures Runs.CommandOk(RealCore(sha), command, Apply(sha, prior, command).value)
  {
    hide ParseSlots, EncodeSlots, T.Step, EffectsOf, ContentId, CommandOf, RoundStateOf, EffectBatchOf, WalRecordOf;
    var a := Apply(sha, prior, command).value;
    var state := ParseRoundState(prior, DefaultLimits).value;
    var c := ParseCommand(command, DefaultLimits).value;
    var next := T.Step(state, c).value;
    ParsedSize(command, CommandType, CommandSchema, DefaultLimits);
    ParsedSize(a.nextState, RoundStateType, RoundStateSchema, DefaultLimits);
    ParsedSize(a.effectBatch, EffectBatchType, EffectBatchSchema, DefaultLimits);
    WalRecordSize(WalRecord(a.commandId, a.effectBatchId, a.nextStateId, ContentId(sha, RoundStateType, prior),
                            c.roundId, next.durableSequence));
  }

  lemma RealCoreOk(sha: Bytes -> Digest)
    ensures Runs.CoreOk(RealCore(sha))
  {
    hide Apply, ParseVote, Runs.CommandOk;
    var core := RealCore(sha);
    forall s: Bytes, c: Bytes | core.apply(s, c).Ok? ensures Runs.CommandOk(core, c, core.apply(s, c).value) {
      FramesFit(sha, s, c);
    }
    forall b: Bytes | core.parseVote(b).Ok?
      ensures b != [] && W.MINIMUM_FRAME_SIZE + |b| <= W.MAXIMUM_FRAME_SIZE
    {
      VoteSize(b);
    }
  }

  lemma VoteSize(b: Bytes)
    requires ParseVote(b, DefaultLimits).Ok?
    ensures 0 < |b| <= 16 * 1024 * 1024
  {
    hide ParseSlots, VoteOf;
    ParsedSize(b, VoteType, VoteSchema, DefaultLimits);
  }

  /** The hash inputs of the vote identifiers of a run. */
  function VoteInputs(actions: seq<Runs.Action>): set<Bytes> {
    set v | v in Runs.CastVotes(actions) :: Separated(HashDomain(VoteType), v)
  }

  lemma VoteIdsDistinct(sha: Bytes -> Digest, actions: seq<Runs.Action>)
    requires CollisionFree(sha, VoteInputs(actions))
    ensures Runs.DistinctVoteIds(RealCore(sha), Runs.CastVotes(actions))
  {
    hide Runs.CastVotes, Separated, HashDomain;
    var core := RealCore(sha);
    forall x, y | x in Runs.CastVotes(actions) && y in Runs.CastVotes(actions) && core.voteId(x) == core.voteId(y)
      ensures x == y
    {
      var p, q := Separated(HashDomain(VoteType), x), Separated(HashDomain(VoteType), y);
      assert p in VoteInputs(actions) && q in VoteInputs(actions);
      IdInjective(sha(p), sha(q));
      SeparatedInjective(HashDomain(VoteType), x, y);
    }
  }

  /** The recovery theorem for the real core: for every well-formed initial state, every run and
      every crash, unless two votes of the run collide under SHA-256. */
  lemma ValidatorRecovers(sha: Bytes -> Digest, initial: Bytes, actions: seq<Runs.Action>)
    requires ParseRoundState(initial, DefaultLimits).Ok? && |actions| < TWO_64
    requires CollisionFree(sha, VoteInputs(actions))
    ensures var core := RealCore(sha);
            var s := Runs.Run(core, sha, initial, actions);
            var replayed := Runs.Replayed(core, initial, s.durable);
            var dead := Runs.Act(core, sha, initial, s, Runs.Die);
            && replayed.Ok?
            && (s.memory.Some? ==> s.memory == Some(replayed.value))
            && Runs.Act(core, sha, initial, dead, Runs.DoReopen).memory == Some(replayed.value)
            && (forall x :: x in s.submits ==> Runs.ServesSubmit(core, replayed.value, x.0, x.1))
            && (forall x :: x in s.votes ==> Runs.ServesVote(core, replayed.value, x.0, x.1))
  {
    hide Runs.CoreOk, Runs.Run, Runs.Replayed, Runs.Act, Runs.ServesSubmit, Runs.ServesVote, Runs.DistinctVoteIds,
      VoteInputs, ParseRoundState, Apply, ParseVote;
    RealCoreOk(sha);
    VoteIdsDistinct(sha, actions);
    Runs.RecoveryTheorem(RealCore(sha), sha, initial, actions);
  }
}
