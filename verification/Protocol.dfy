/** Typed records carried in canonical envelopes: Command, RoundState, Vote, EffectBatch, WalRecord.
    Every record is a schema (field name and shape, in key order) and a list of slots. */
module Protocol {
  import opened Base
  import opened Canonical
  import opened Identity

  datatype ContractCode =
    | EnvelopeTypeMismatch | FieldSetMismatch | FieldTypeMismatch | ConstantMismatch
    | IdentifierInvalid | DecimalNotCanonical | DecimalOutOfRange | U32OutOfRange
    | ArrayItemInvalid | ArrayNotCanonical | StateInvalid

  datatype Error = Codec(codec: Canonical.ErrorCode) | Contract(contract: ContractCode)

  type Parse<+T> = Result<T, Error>

  const SCHEMA_VERSION: string := "1.0.0"
  const FORMAL_SEMANTICS_ID: string :=
    "sha256:cc98f15ac20fc3ed" + ("265cb76682ca15a936e24660" + "a651e2b8f81638abb3265cb6")

  // ----- canonical decimals -----------------------------------------------

  predicate IsDigit(c: char) { '0' <= c <= '9' }

  predicate AllDigits(s: string) { forall i :: 0 <= i < |s| ==> IsDigit(s[i]) }

  predicate CanonicalDecimal(s: string) {
    s != "" && (s == "0" || '1' <= s[0] <= '9') && AllDigits(s)
  }

  /** `std::to_string` on an unsigned value. */
  function Decimal(n: nat): (s: string)
    ensures CanonicalDecimal(s)
    ensures n > 0 ==> s[0] != '0'
  {
    var digit := '0' + ((n % 10) as char);
    if n < 10 then [digit] else Decimal(n / 10) + [digit]
  }

  function DecimalValue(s: string): nat
    requires AllDigits(s)
  {
    if s == "" then 0
    else DecimalValue(s[..|s| - 1]) * 10 + (s[|s| - 1] as int - '0' as int)
  }

  function ParseU64(s: string): Parse<u64> {
    var _ :- Require(CanonicalDecimal(s), Contract(DecimalNotCanonical));
    var _ :- Require(DecimalValue(s) < TWO_64, Contract(DecimalOutOfRange));
    Ok(DecimalValue(s))
  }

  lemma {:induction false} DecimalValueOfDecimal(n: nat)
    ensures DecimalValue(Decimal(n)) == n
  {
    if n >= 10 {
      DecimalValueOfDecimal(n / 10);
      assert Decimal(n)[..|Decimal(n)| - 1] == Decimal(n / 10);
    } else {
      assert Decimal(n)[..0] == "";
    }
  }

  lemma {:induction false} DecimalOfValue(s: string)
    requires CanonicalDecimal(s)
    ensures Decimal(DecimalValue(s)) == s
    ensures s != "0" ==> DecimalValue(s) > 0
  {
    var front := s[..|s| - 1];
    if |s| == 1 {
      assert front == "";
    } else {
      assert front[0] == s[0];
      DecimalOfValue(front);
      var digit := s[|s| - 1] as int - '0' as int;
      assert DecimalValue(s) == DecimalValue(front) * 10 + digit && 0 <= digit < 10;
      assert DecimalValue(s) / 10 == DecimalValue(front) && DecimalValue(s) % 10 == digit;
      assert s == front + [s[|s| - 1]];
    }
  }

  /** Numbers and canonical decimals correspond one to one. */
  lemma DecimalRoundTrip(s: string, n: u64)
    ensures ParseU64(s) == Ok(n) <==> s == Decimal(n)
  {
    DecimalValueOfDecimal(n);
    if CanonicalDecimal(s) { DecimalOfValue(s); }
  }

  // ----- slots ------------------------------------------------------------

  datatype Shape = Fixed(constant: string) | Words | Number64 | Count32 | Any

  datatype Field = Field(name: string, shape: Shape)

  datatype Slot = TextSlot(text: string) | NumberSlot(number: u64) | CountSlot(count: u32) | ValueSlot(value: Value)

  predicate Fits(shape: Shape, slot: Slot) {
    match shape
    case Fixed(constant) => slot == TextSlot(constant)
    case Words => slot.TextSlot?
    case Number64 => slot.NumberSlot?
    case Count32 => slot.CountSlot?
    case Any => slot.ValueSlot?
  }

  predicate FitsAll(schema: seq<Field>, slots: seq<Slot>) {
    |slots| == |schema| && forall i :: 0 <= i < |schema| ==> Fits(schema[i].shape, slots[i])
  }

  function PrintSlot(slot: Slot): Value {
    match slot
    case TextSlot(text) => Text(text)
    case NumberSlot(n) => Text(Decimal(n))
    case CountSlot(n) => Unsigned(n)
    case ValueSlot(v) => v
  }

  function ReadSlot(shape: Shape, v: Value): Parse<Slot> {
    match shape
    case Fixed(constant) =>
      var _ :- Require(v.Text?, Contract(FieldTypeMismatch));
      var _ :- Require(v.text == constant, Contract(ConstantMismatch));
      Ok(TextSlot(v.text))
    case Words =>
      var _ :- Require(v.Text?, Contract(FieldTypeMismatch));
      Ok(TextSlot(v.text))
    case Number64 =>
      var _ :- Require(v.Text?, Contract(FieldTypeMismatch));
      var n :- ParseU64(v.text);
      Ok(NumberSlot(n))
    case Count32 =>
      var _ :- Require(v.Unsigned?, Contract(FieldTypeMismatch));
      var _ :- Require(v.unsigned < TWO_32, Contract(U32OutOfRange));
      Ok(CountSlot(v.unsigned))
    case Any => Ok(ValueSlot(v))
  }

  lemma SlotRoundTrip(shape: Shape, v: Value, slot: Slot)
    ensures ReadSlot(shape, v) == Ok(slot) <==> Fits(shape, slot) && v == PrintSlot(slot)
  {
    hide ParseU64, Decimal;
    if shape == Number64 && v.Text? && slot.NumberSlot? {
      DecimalRoundTrip(v.text, slot.number);
    } else if shape == Number64 && slot.NumberSlot? {
      DecimalRoundTrip(Decimal(slot.number), slot.number);
    }
  }

  /** `require_common`: the constant fields are compared before any other field is read. */
  function CheckConstants(schema: seq<Field>, fields: seq<Entry>): Parse<()>
    requires |schema| == |fields|
  {
    if schema == [] then Ok(())
    else
      var _ :- if schema[0].shape.Fixed? then ReadSlot(schema[0].shape, fields[0].value) else Ok(CountSlot(0));
      CheckConstants(schema[1..], fields[1..])
  }

  function ReadSlots(schema: seq<Field>, fields: seq<Entry>): Parse<seq<Slot>>
    requires |schema| == |fields|
  {
    if schema == [] then Ok([])
    else
      var head :- ReadSlot(schema[0].shape, fields[0].value);
      var tail :- ReadSlots(schema[1..], fields[1..]);
      Ok([head] + tail)
  }

  /** `require_fields`, `require_common`, then the remaining fields in key order. */
  function ScanFields(schema: seq<Field>, fields: seq<Entry>): Parse<seq<Slot>> {
    var _ :- Require(|fields| == |schema|, Contract(FieldSetMismatch));
    var _ :- Require(forall i :: 0 <= i < |schema| ==> fields[i].key == schema[i].name, Contract(FieldSetMismatch));
    var _ :- CheckConstants(schema, fields);
    ReadSlots(schema, fields)
  }

  function PrintFields(schema: seq<Field>, slots: seq<Slot>): (fields: seq<Entry>)
    requires |slots| == |schema|
    ensures |fields| == |schema|
  {
    seq(|schema|, i requires 0 <= i < |schema| => Entry(schema[i].name, PrintSlot(slots[i])))
  }

  lemma {:induction false} ReadSlotsExact(schema: seq<Field>, fields: seq<Entry>, slots: seq<Slot>)
    requires |schema| == |fields|
    ensures ReadSlots(schema, fields) == Ok(slots)
      <==> FitsAll(schema, slots) && forall i :: 0 <= i < |schema| ==> fields[i].value == PrintSlot(slots[i])
  {
    hide ReadSlot, Fits, PrintSlot;
    if schema != [] {
      if slots != [] {
        SlotRoundTrip(schema[0].shape, fields[0].value, slots[0]);
        ReadSlotsExact(schema[1..], fields[1..], slots[1..]);
        if ReadSlots(schema, fields) == Ok(slots) {
          var tail := ReadSlots(schema[1..], fields[1..]).value;
          assert slots == [slots[0]] + tail;
          assert slots[1..] == tail;
          forall i | 0 <= i < |schema|
            ensures Fits(schema[i].shape, slots[i]) && fields[i].value == PrintSlot(slots[i])
          {
            if i > 0 {
              assert schema[1..][i - 1] == schema[i] && fields[1..][i - 1] == fields[i];
            }
          }
        }
        assert [slots[0]] + slots[1..] == slots;
      }
    }
  }

  lemma {:induction false} ConstantsHold(schema: seq<Field>, fields: seq<Entry>)
    requires |schema| == |fields| && ReadSlots(schema, fields).Ok?
    ensures CheckConstants(schema, fields).Ok?
  {
    if schema != [] { ConstantsHold(schema[1..], fields[1..]); }
  }

  /** Scanning inverts printing and accepts nothing else. */
  lemma ScanExact(schema: seq<Field>, fields: seq<Entry>, slots: seq<Slot>)
    ensures ScanFields(schema, fields) == Ok(slots) <==> FitsAll(schema, slots) && fields == PrintFields(schema, slots)
  {
    hide ReadSlots, CheckConstants, PrintSlot, Fits;
    if |schema| == |fields| {
      ReadSlotsExact(schema, fields, slots);
      if ReadSlots(schema, fields).Ok? { ConstantsHold(schema, fields); }
    }
    if FitsAll(schema, slots) && ScanFields(schema, fields) == Ok(slots) {
      assert fields == PrintFields(schema, slots);
    }
  }

  // ----- typed envelopes --------------------------------------------------

  function Lift<T>(r: Coded<T>): Parse<T> {
    match r case Ok(v) => Ok(v) case Err(e) => Err(Codec(e))
  }

  function ParseSlots(b: Bytes, kind: Type, schema: seq<Field>, limits: Limits): Parse<seq<Slot>> {
    var envelope :- Lift(Decode(b, limits));
    var _ :- Require(envelope.kind == kind, Contract(EnvelopeTypeMismatch));
    ScanFields(schema, envelope.fields)
  }

  function EncodeSlots(slots: seq<Slot>, kind: Type, schema: seq<Field>, limits: Limits): Parse<Bytes>
    requires |slots| == |schema|
  {
    Lift(Encode(Envelope(kind, PrintFields(schema, slots)), limits))
  }

  lemma SlotsExact(b: Bytes, slots: seq<Slot>, kind: Type, schema: seq<Field>, limits: Limits)
    ensures ParseSlots(b, kind, schema, limits) == Ok(slots)
      <==> FitsAll(schema, slots) && EncodeSlots(slots, kind, schema, limits) == Ok(b)
  {
    hide Decode, Encode, ScanFields, PrintFields, Fits;
    if Decode(b, limits).Ok? {
      var envelope := Decode(b, limits).value;
      CodecIsBijective(b, envelope, limits);
      ScanExact(schema, envelope.fields, slots);
    }
    if FitsAll(schema, slots) {
      var envelope := Envelope(kind, PrintFields(schema, slots));
      CodecIsBijective(b, envelope, limits);
      ScanExact(schema, envelope.fields, slots);
    }
  }

  // ----- records ----------------------------------------------------------

  datatype Command = Command(
    actorId: string, bodyHash: string, commandKind: string, height: u64, logicalTick: u64,
    requestId: string, roundId: string, view: u64)

  datatype RoundPhase = TicketingOpen | Committed | Available | Eligible | Aggregated | Aborted

  datatype RoundState = RoundState(
    available: u32, committed: u32, configId: string, durableSequence: u64, height: u64,
    parentCheckpointId: string, phase: RoundPhase, roundId: string, stateRoot: string,
    tickets: u32, view: u64)

  datatype Vote = Vote(
    bodyHash: string, contextId: string, durableSequence: u64, height: u64, kind: string,
    roundId: string, signatureId: string, validatorEpochId: string, validatorId: string, view: u64)

  datatype Effect = Effect(bodyHash: string, effectId: string, kind: string, targetId: string)

  datatype EffectBatch = EffectBatch(
    effects: seq<Effect>, nextStateRoot: string, priorStateRoot: string, requestId: string, roundId: string)

  datatype WalRecord = WalRecord(
    commandId: string, effectBatchId: string, nextStateRoot: string, priorStateRoot: string,
    roundId: string, sequence: u64)

  const CommandSchema := [
    Field("actor_id", Words), Field("body_hash", Words), Field("command_kind", Words),
    Field("formal_semantics_id", Fixed(FORMAL_SEMANTICS_ID)), Field("height", Number64),
    Field("logical_tick", Number64), Field("request_id", Words), Field("round_id", Words),
    Field("schema_version", Fixed(SCHEMA_VERSION)), Field("type_name", Fixed("COMMAND")),
    Field("view", Number64)]

  function CommandSlots(c: Command): seq<Slot> {
    [TextSlot(c.actorId), TextSlot(c.bodyHash), TextSlot(c.commandKind), TextSlot(FORMAL_SEMANTICS_ID),
     NumberSlot(c.height), NumberSlot(c.logicalTick), TextSlot(c.requestId), TextSlot(c.roundId),
     TextSlot(SCHEMA_VERSION), TextSlot("COMMAND"), NumberSlot(c.view)]
  }

  function CommandOf(s: seq<Slot>): (c: Command)
    requires FitsAll(CommandSchema, s)
    ensures CommandSlots(c) == s
  {
    FitsAt(CommandSchema, s);
    Command(s[0].text, s[1].text, s[2].text, s[4].number, s[5].number, s[6].text, s[7].text, s[10].number)
  }

  function ParseCommand(b: Bytes, limits: Limits): Parse<Command> {
    var s :- ParseSlots(b, CommandType, CommandSchema, limits);
    SlotsExact(b, s, CommandType, CommandSchema, limits);
    var c := CommandOf(s);
    var _ :- Require(ValidCommand(c), Contract(IdentifierInvalid));
    Ok(c)
  }

  predicate ValidCommand(c: Command) {
    c.actorId != "" && IsContentId(c.bodyHash) && c.commandKind != "" && c.requestId != "" && c.roundId != ""
  }

  function EncodeCommand(c: Command, limits: Limits): Parse<Bytes> {
    var b :- EncodeSlots(CommandSlots(c), CommandType, CommandSchema, limits);
    var _ :- ParseCommand(b, limits);
    Ok(b)
  }

  const RoundStateSchema := [
    Field("available_ticket_count", Count32), Field("committed_ticket_count", Count32),
    Field("config_id", Words), Field("durable_sequence", Number64),
    Field("formal_semantics_id", Fixed(FORMAL_SEMANTICS_ID)), Field("height", Number64),
    Field("parent_checkpoint_id", Words), Field("phase", Words), Field("round_id", Words),
    Field("schema_version", Fixed(SCHEMA_VERSION)), Field("state_root", Words),
    Field("ticket_count", Count32), Field("type_name", Fixed("ROUND_STATE")), Field("view", Number64)]

  function PhaseName(p: RoundPhase): string {
    match p
    case TicketingOpen => "TICKETING_OPEN"
    case Committed => "COMMITTED"
    case Available => "AVAILABLE"
    case Eligible => "ELIGIBLE"
    case Aggregated => "AGGREGATED"
    case Aborted => "ABORTED"
  }

  function ParsePhase(s: string): (r: Parse<RoundPhase>)
    ensures r.Ok? ==> PhaseName(r.value) == s
    ensures (exists p :: PhaseName(p) == s) ==> r.Ok?
  {
    if s == "TICKETING_OPEN" then Ok(TicketingOpen)
    else if s == "COMMITTED" then Ok(Committed)
    else if s == "AVAILABLE" then Ok(Available)
    else if s == "ELIGIBLE" then Ok(Eligible)
    else if s == "AGGREGATED" then Ok(Aggregated)
    else if s == "ABORTED" then Ok(Aborted)
    else Err(Contract(StateInvalid))
  }

  function RoundStateSlots(r: RoundState): seq<Slot> {
    [CountSlot(r.available), CountSlot(r.committed), TextSlot(r.configId), NumberSlot(r.durableSequence),
     TextSlot(FORMAL_SEMANTICS_ID), NumberSlot(r.height), TextSlot(r.parentCheckpointId),
     TextSlot(PhaseName(r.phase)), TextSlot(r.roundId), TextSlot(SCHEMA_VERSION), TextSlot(r.stateRoot),
     CountSlot(r.tickets), TextSlot("ROUND_STATE"), NumberSlot(r.view)]
  }

  function RoundStateOf(s: seq<Slot>): (r: Parse<RoundState>)
    requires FitsAll(RoundStateSchema, s)
    ensures r.Ok? ==> RoundStateSlots(r.value) == s
  {
    FitsAt(RoundStateSchema, s);
    var phase :- ParsePhase(s[7].text);
    Ok(RoundState(s[0].count, s[1].count, s[2].text, s[3].number, s[5].number, s[6].text, phase,
                  s[8].text, s[10].text, s[11].count, s[13].number))
  }

  predicate ValidStateIds(r: RoundState) {
    IsContentId(r.configId) && IsContentId(r.parentCheckpointId) && r.roundId != "" && IsContentId(r.stateRoot)
  }

  predicate CountsConsistent(r: RoundState) { r.available <= r.committed <= r.tickets }

  function ParseRoundState(b: Bytes, limits: Limits): Parse<RoundState> {
    var s :- ParseSlots(b, RoundStateType, RoundStateSchema, limits);
    SlotsExact(b, s, RoundStateType, RoundStateSchema, limits);
    var r :- RoundStateOf(s);
    var _ :- Require(ValidStateIds(r), Contract(IdentifierInvalid));
    var _ :- Require(CountsConsistent(r), Contract(StateInvalid));
    Ok(r)
  }

  function EncodeRoundState(r: RoundState, limits: Limits): Parse<Bytes> {
    var b :- EncodeSlots(RoundStateSlots(r), RoundStateType, RoundStateSchema, limits);
    var _ :- ParseRoundState(b, limits);
    Ok(b)
  }

  const VoteSchema := [
    Field("body_hash", Words), Field("context_id", Words), Field("durable_sequence", Number64),
    Field("formal_semantics_id", Fixed(FORMAL_SEMANTICS_ID)), Field("height", Number64), Field("kind", Words),
    Field("round_id", Words), Field("schema_version", Fixed(SCHEMA_VERSION)), Field("signature_id", Words),
    Field("type_name", Fixed("VOTE")), Field("validator_epoch_id", Words), Field("validator_id", Words),
    Field("view", Number64)]

  function VoteSlots(v: Vote): seq<Slot> {
    [TextSlot(v.bodyHash), TextSlot(v.contextId), NumberSlot(v.durableSequence), TextSlot(FORMAL_SEMANTICS_ID),
     NumberSlot(v.height), TextSlot(v.kind), TextSlot(v.roundId), TextSlot(SCHEMA_VERSION),
     TextSlot(v.signatureId), TextSlot("VOTE"), TextSlot(v.validatorEpochId), TextSlot(v.validatorId),
     NumberSlot(v.view)]
  }

  function VoteOf(s: seq<Slot>): (v: Vote)
    requires FitsAll(VoteSchema, s)
    ensures VoteSlots(v) == s
  {
    FitsAt(VoteSchema, s);
    Vote(s[0].text, s[1].text, s[2].number, s[4].number, s[5].text, s[6].text, s[8].text, s[10].text,
         s[11].text, s[12].number)
  }

  predicate ValidVoteIds(v: Vote) {
    && IsContentId(v.bodyHash) && v.contextId != "" && v.kind != "" && v.roundId != ""
    && IsContentId(v.signatureId) && IsContentId(v.validatorEpochId) && v.validatorId != ""
  }

  /** `parse_vote` checks the sequence after the body and context identifiers. */
  function ParseVote(b: Bytes, limits: Limits): Parse<Vote> {
    var s :- ParseSlots(b, VoteType, VoteSchema, limits);
    SlotsExact(b, s, VoteType, VoteSchema, limits);
    var v := VoteOf(s);
    var _ :- Require(IsContentId(v.bodyHash) && v.contextId != "", Contract(IdentifierInvalid));
    var _ :- Require(v.durableSequence > 0, Contract(StateInvalid));
    var _ :- Require(ValidVoteIds(v), Contract(IdentifierInvalid));
    Ok(v)
  }

  function EncodeVote(v: Vote, limits: Limits): Parse<Bytes> {
    var b :- EncodeSlots(VoteSlots(v), VoteType, VoteSchema, limits);
    var _ :- ParseVote(b, limits);
    Ok(b)
  }

  const WalRecordSchema := [
    Field("command_id", Words), Field("effect_batch_id", Words),
    Field("formal_semantics_id", Fixed(FORMAL_SEMANTICS_ID)), Field("next_state_root", Words),
    Field("prior_state_root", Words), Field("record_kind", Words), Field("round_id", Words),
    Field("schema_version", Fixed(SCHEMA_VERSION)), Field("sequence", Number64),
    Field("type_name", Fixed("WAL_RECORD"))]

  function WalRecordSlots(w: WalRecord): seq<Slot> {
    [TextSlot(w.commandId), TextSlot(w.effectBatchId), TextSlot(FORMAL_SEMANTICS_ID),
     TextSlot(w.nextStateRoot), TextSlot(w.priorStateRoot), TextSlot("TRANSITION"), TextSlot(w.roundId),
     TextSlot(SCHEMA_VERSION), NumberSlot(w.sequence), TextSlot("WAL_RECORD")]
  }

  predicate ValidWalIds(w: WalRecord) {
    IsContentId(w.commandId) && IsContentId(w.effectBatchId) && IsContentId(w.nextStateRoot) && IsContentId(w.priorStateRoot)
  }

  function WalRecordOf(s: seq<Slot>): (w: WalRecord)
    requires FitsAll(WalRecordSchema, s)
    ensures s[5] == TextSlot("TRANSITION") ==> WalRecordSlots(w) == s
  {
    FitsAt(WalRecordSchema, s);
    WalRecord(s[0].text, s[1].text, s[3].text, s[4].text, s[6].text, s[8].number)
  }

  function ParseWalRecord(b: Bytes, limits: Limits): Parse<WalRecord> {
    var s :- ParseSlots(b, WalRecordType, WalRecordSchema, limits);
    SlotsExact(b, s, WalRecordType, WalRecordSchema, limits);
    var w := WalRecordOf(s);
    var _ :- Require(ValidWalIds(w), Contract(IdentifierInvalid));
    var _ :- Require(s[5] == TextSlot("TRANSITION"), Contract(ConstantMismatch));
    var _ :- Require(w.roundId != "", Contract(IdentifierInvalid));
    Ok(w)
  }

  function EncodeWalRecord(w: WalRecord, limits: Limits): Parse<Bytes> {
    var b :- EncodeSlots(WalRecordSlots(w), WalRecordType, WalRecordSchema, limits);
    var _ :- ParseWalRecord(b, limits);
    Ok(b)
  }

  const EffectSchema := [
    Field("body_hash", Words), Field("effect_id", Words), Field("kind", Words), Field("target_id", Words)]

  function EffectSlots(e: Effect): seq<Slot> {
    [TextSlot(e.bodyHash), TextSlot(e.effectId), TextSlot(e.kind), TextSlot(e.targetId)]
  }

  function PrintEffect(e: Effect): Value { Map(PrintFields(EffectSchema, EffectSlots(e))) }

  function ParseEffect(v: Value): (r: Parse<Effect>)
    ensures r.Ok? ==> v == PrintEffect(r.value)
  {
    var _ :- Require(v.Map?, Contract(ArrayItemInvalid));
    var s :- ScanFields(EffectSchema, v.entries);
    ScanExact(EffectSchema, v.entries, s);
    FitsAt(EffectSchema, s);
    var e := Effect(s[0].text, s[1].text, s[2].text, s[3].text);
    assert EffectSlots(e) == s;
    var _ :- Require(IsContentId(e.bodyHash) && e.effectId != "" && e.kind != "" && e.targetId != "",
                     Contract(IdentifierInvalid));
    Ok(e)
  }

  function PrintEffects(effects: seq<Effect>): (items: seq<Value>)
    ensures |items| == |effects|
  {
    seq(|effects|, i requires 0 <= i < |effects| => PrintEffect(effects[i]))
  }

  function ParseEffects(items: seq<Value>): (r: Parse<seq<Effect>>)
    ensures r.Ok? ==> items == PrintEffects(r.value)
  {
    if items == [] then Ok([])
    else
      var head :- ParseEffect(items[0]);
      var tail :- ParseEffects(items[1..]);
      assert items == [items[0]] + items[1..];
      Ok([head] + tail)
  }

  const EffectBatchSchema := [
    Field("effects", Any), Field("formal_semantics_id", Fixed(FORMAL_SEMANTICS_ID)),
    Field("next_state_root", Words), Field("prior_state_root", Words), Field("request_id", Words),
    Field("round_id", Words), Field("schema_version", Fixed(SCHEMA_VERSION)),
    Field("type_name", Fixed("EFFECT_BATCH"))]

  function EffectBatchSlots(e: EffectBatch): seq<Slot> {
    [ValueSlot(Array(PrintEffects(e.effects))), TextSlot(FORMAL_SEMANTICS_ID), TextSlot(e.nextStateRoot),
     TextSlot(e.priorStateRoot), TextSlot(e.requestId), TextSlot(e.roundId), TextSlot(SCHEMA_VERSION),
     TextSlot("EFFECT_BATCH")]
  }

  predicate EffectsOrdered(effects: seq<Effect>) {
    forall i :: 0 < i < |effects| ==> StringLess(effects[i - 1].effectId, effects[i].effectId)
  }

  function EffectBatchOf(s: seq<Slot>): (r: Parse<EffectBatch>)
    requires FitsAll(EffectBatchSchema, s)
    ensures r.Ok? ==> EffectBatchSlots(r.value) == s
  {
    FitsAt(EffectBatchSchema, s);
    var _ :- Require(IsContentId(s[2].text) && IsContentId(s[3].text) && s[4].text != "" && s[5].text != "",
                     Contract(IdentifierInvalid));
    var _ :- Require(s[0].value.Array?, Contract(FieldTypeMismatch));
    var _ :- Require(s[0].value.items != [], Contract(ArrayItemInvalid));
    var effects :- ParseEffects(s[0].value.items);
    var _ :- Require(EffectsOrdered(effects), Contract(ArrayNotCanonical));
    Ok(EffectBatch(effects, s[2].text, s[3].text, s[4].text, s[5].text))
  }

  function ParseEffectBatch(b: Bytes, limits: Limits): Parse<EffectBatch> {
    var s :- ParseSlots(b, EffectBatchType, EffectBatchSchema, limits);
    SlotsExact(b, s, EffectBatchType, EffectBatchSchema, limits);
    EffectBatchOf(s)
  }

  function EncodeEffectBatch(e: EffectBatch, limits: Limits): Parse<Bytes> {
    var b :- EncodeSlots(EffectBatchSlots(e), EffectBatchType, EffectBatchSchema, limits);
    var _ :- ParseEffectBatch(b, limits);
    Ok(b)
  }

  /** One instance of `FitsAll` per field, so that a fixed-length list can be taken apart. */
  lemma FitsAt(schema: seq<Field>, slots: seq<Slot>)
    requires FitsAll(schema, slots)
    ensures forall i :: 0 <= i < |schema| ==> Fits(schema[i].shape, slots[i])
  {
  }

  // ----- typed round trips -------------------------------------------------

  lemma CommandRoundTrip(b: Bytes, c: Command, limits: Limits)
    ensures ParseCommand(b, limits) == Ok(c) <==> EncodeCommand(c, limits) == Ok(b)
  {
    hide ParseSlots, EncodeSlots, IsContentId;
    SlotsExact(b, CommandSlots(c), CommandType, CommandSchema, limits);
    if ParseCommand(b, limits) == Ok(c) {
      SlotsExact(b, ParseSlots(b, CommandType, CommandSchema, limits).value, CommandType, CommandSchema, limits);
    }
  }

  lemma RoundStateRoundTrip(b: Bytes, r: RoundState, limits: Limits)
    ensures ParseRoundState(b, limits) == Ok(r) <==> EncodeRoundState(r, limits) == Ok(b)
  {
    hide ParseSlots, EncodeSlots, IsContentId;
    SlotsExact(b, RoundStateSlots(r), RoundStateType, RoundStateSchema, limits);
    if ParseRoundState(b, limits) == Ok(r) {
      SlotsExact(b, ParseSlots(b, RoundStateType, RoundStateSchema, limits).value, RoundStateType, RoundStateSchema, limits);
    }
  }

  lemma VoteRoundTrip(b: Bytes, v: Vote, limits: Limits)
    ensures ParseVote(b, limits) == Ok(v) <==> EncodeVote(v, limits) == Ok(b)
  {
    hide ParseSlots, EncodeSlots, IsContentId;
    SlotsExact(b, VoteSlots(v), VoteType, VoteSchema, limits);
    if ParseVote(b, limits) == Ok(v) {
      SlotsExact(b, ParseSlots(b, VoteType, VoteSchema, limits).value, VoteType, VoteSchema, limits);
    }
  }

  lemma WalRecordRoundTrip(b: Bytes, w: WalRecord, limits: Limits)
    ensures ParseWalRecord(b, limits) == Ok(w) <==> EncodeWalRecord(w, limits) == Ok(b)
  {
    hide ParseSlots, EncodeSlots, IsContentId;
    SlotsExact(b, WalRecordSlots(w), WalRecordType, WalRecordSchema, limits);
    if ParseWalRecord(b, limits) == Ok(w) {
      SlotsExact(b, ParseSlots(b, WalRecordType, WalRecordSchema, limits).value, WalRecordType, WalRecordSchema, limits);
    }
  }

  lemma PrintedEffectsDiffer(a: seq<Effect>, b: seq<Effect>)
    requires PrintEffects(a) == PrintEffects(b)
    ensures a == b
  {
    assert |PrintEffects(a)| == |PrintEffects(b)|;
    forall i | 0 <= i < |a| ensures a[i] == b[i] {
      assert PrintEffects(a)[i] == PrintEffects(b)[i];
      var x, y := PrintFields(EffectSchema, EffectSlots(a[i])), PrintFields(EffectSchema, EffectSlots(b[i]));
      assert x[0] == y[0] && x[1] == y[1] && x[2] == y[2] && x[3] == y[3];
    }
  }

  lemma EffectBatchRoundTrip(b: Bytes, e: EffectBatch, limits: Limits)
    ensures ParseEffectBatch(b, limits) == Ok(e) <==> EncodeEffectBatch(e, limits) == Ok(b)
  {
    hide ParseSlots, EncodeSlots, PrintEffects, EffectBatchOf;
    SlotsExact(b, EffectBatchSlots(e), EffectBatchType, EffectBatchSchema, limits);
    if ParseEffectBatch(b, limits).Ok? {
      var s := ParseSlots(b, EffectBatchType, EffectBatchSchema, limits).value;
      SlotsExact(b, s, EffectBatchType, EffectBatchSchema, limits);
      var e' := EffectBatchOf(s).value;
      if EncodeEffectBatch(e, limits) == Ok(b) {
        assert EffectBatchSlots(e)[0] == EffectBatchSlots(e')[0];
        PrintedEffectsDiffer(e.effects, e'.effects);
        assert EffectBatchSlots(e)[2] == EffectBatchSlots(e')[2] && EffectBatchSlots(e)[3] == EffectBatchSlots(e')[3];
        assert EffectBatchSlots(e)[4] == EffectBatchSlots(e')[4] && EffectBatchSlots(e)[5] == EffectBatchSlots(e')[5];
      }
    }
  }
}
