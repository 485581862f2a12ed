/** delta-canonical-binary-v1: the bounded typed-value codec, as functions.
    CanonicalIO.dfy holds the buffer-and-cursor form that is proved against these. */
module Canonical {
  import opened Base

  datatype ErrorCode =
    | EnvelopeTooLarge | BadMagic | UnsupportedVersion | UnknownType
    | PayloadLengthMismatch | TrailingBytes | InvalidRoot | InvalidTag | Truncated
    | ValueTooLarge | CollectionTooLarge | NestingTooDeep | InvalidAscii
    | InvalidMapKey | NoncanonicalMapOrder

  type Coded<+T> = Result<T, ErrorCode>

  datatype Type =
    | RoundConfigType | WorkTicketType | VoteType | QuorumCertificateType | RoundStateType
    | CommandType | EffectBatchType | WalRecordType | RuntimeDescriptorType
    | PreparedIntegerShardType

  datatype Value =
    | Boolean(truth: bool)
    | Unsigned(unsigned: u64)
    | Signed(signed: i64)
    | ByteString(bytes: Bytes)
    | Text(text: string)
    | Array(items: seq<Value>)
    | Map(entries: seq<Entry>)

  datatype Entry = Entry(key: string, value: Value)

  datatype Envelope = Envelope(kind: Type, fields: seq<Entry>)

  datatype Limits = Limits(envelopeBytes: nat, nestingDepth: nat, collectionMembers: nat, valueBytes: nat)

  const DefaultLimits := Limits(16 * 1024 * 1024, 32, 100_000, 4 * 1024 * 1024)

  const TAG_FALSE: byte := 0x01
  const TAG_TRUE: byte := 0x02
  const TAG_UNSIGNED: byte := 0x10
  const TAG_SIGNED: byte := 0x11
  const TAG_BYTES: byte := 0x20
  const TAG_TEXT: byte := 0x21
  const TAG_ARRAY: byte := 0x30
  const TAG_MAP: byte := 0x31
  const MAGIC: Bytes := [0x44, 0x52, 0x43, 0x31]
  const HEADER_SIZE: nat := 12

  predicate IsPrintable(s: string) {
    forall i :: 0 <= i < |s| ==> 0x20 <= s[i] as int <= 0x7e
  }

  predicate IsMapKey(s: string) {
    && s != ""
    && forall i :: 0 <= i < |s| ==> ('a' <= s[i] <= 'z') || ('0' <= s[i] <= '9') || s[i] == '_'
  }

  function TextBytes(s: string): (b: Bytes)
    requires IsPrintable(s)
    ensures |b| == |s|
  {
    seq(|s|, i requires 0 <= i < |s| => s[i] as int)
  }

  function BytesText(b: Bytes): (s: string)
    ensures |s| == |b|
    ensures forall i :: 0 <= i < |b| ==> s[i] as int == b[i]
  {
    seq(|b|, i requires 0 <= i < |b| => b[i] as char)
  }

  /** The two's-complement bits of a signed value, and `decode_signed`. */
  function SignedBits(v: i64): u64 { if v < 0 then v + TWO_64 else v }

  function DecodeSigned(bits: u64): i64 {
    if bits < TWO_63 then bits
    else if bits == TWO_63 then -TWO_63
    else -(TWO_64 - bits)
  }

  // ----- encoder ----------------------------------------------------------

  /** A tag, a u32 length and that many bytes (or members). */
  function Headed(tag: byte, count: nat, body: Bytes): Bytes {
    [tag] + Big(count, 4) + body
  }

  function EncodeText(s: string, limits: Limits): Coded<Bytes> {
    var _ :- Require(|s| <= limits.valueBytes, ValueTooLarge);
    var _ :- Require(IsPrintable(s), InvalidAscii);
    var _ :- Require(|s| < TWO_32, ValueTooLarge);
    Ok(Headed(TAG_TEXT, |s|, TextBytes(s)))
  }

  function EncodeValue(v: Value, limits: Limits, depth: nat): Coded<Bytes>
    decreases v, 1
  {
    var _ :- Require(depth <= limits.nestingDepth, NestingTooDeep);
    match v
    case Boolean(truth) => Ok([if truth then TAG_TRUE else TAG_FALSE])
    case Unsigned(u) => Ok([TAG_UNSIGNED] + Big(u, 8))
    case Signed(i) => Ok([TAG_SIGNED] + Big(SignedBits(i), 8))
    case ByteString(bytes) =>
      var _ :- Require(|bytes| <= limits.valueBytes, ValueTooLarge);
      var _ :- Require(|bytes| < TWO_32, ValueTooLarge);
      Ok(Headed(TAG_BYTES, |bytes|, bytes))
    case Text(s) => EncodeText(s, limits)
    case Array(items) =>
      var _ :- Require(|items| <= limits.collectionMembers, CollectionTooLarge);
      var _ :- Require(|items| < TWO_32, CollectionTooLarge);
      var body :- EncodeItems(items, limits, depth + 1);
      Ok(Headed(TAG_ARRAY, |items|, body))
    case Map(entries) =>
      var _ :- Require(|entries| <= limits.collectionMembers, CollectionTooLarge);
      var _ :- Require(|entries| < TWO_32, CollectionTooLarge);
      var body :- EncodeEntries(None, entries, limits, depth + 1);
      Ok(Headed(TAG_MAP, |entries|, body))
  }

  function EncodeItems(items: seq<Value>, limits: Limits, depth: nat): Coded<Bytes>
    decreases items, 0
  {
    if items == [] then Ok([])
    else
      var head :- EncodeValue(items[0], limits, depth);
      var tail :- EncodeItems(items[1..], limits, depth);
      Ok(head + tail)
  }

  /** `prior` is the key before `entries`, `None` at the first member. */
  function EncodeEntries(prior: Option<string>, entries: seq<Entry>, limits: Limits, depth: nat): Coded<Bytes>
    decreases entries, 0
  {
    if entries == [] then Ok([])
    else
      var key := entries[0].key;
      var _ :- Require(IsMapKey(key), InvalidMapKey);
      var _ :- Require(prior == None || StringLess(prior.value, key), NoncanonicalMapOrder);
      var name :- EncodeText(key, limits);
      var head :- EncodeValue(entries[0].value, limits, depth);
      var tail :- EncodeEntries(Some(key), entries[1..], limits, depth);
      Ok(name + (head + tail))
  }

  // ----- decoder ----------------------------------------------------------

  /** A decoded item and the bytes after it: the cursor position of `Reader`. */
  datatype Parsed<+T> = Parsed(item: T, rest: Bytes)

  function ReadWord(b: Bytes, width: nat): (r: Coded<Parsed<nat>>)
    ensures r.Ok? ==> |r.value.rest| + width == |b| && r.value.item < Pow256(width)
  {
    if |b| < width then Err(Truncated)
    else
      BigOfNumber(b[..width]);
      Ok(Parsed(Number(b[..width]), b[width..]))
  }

  function ReadBytes(b: Bytes, count: nat): (r: Coded<Parsed<Bytes>>)
    ensures r.Ok? ==> |r.value.rest| + count == |b|
  {
    if |b| < count then Err(Truncated) else Ok(Parsed(b[..count], b[count..]))
  }

  function DecodeTextBody(b: Bytes, limits: Limits): (r: Coded<Parsed<string>>)
    ensures r.Ok? ==> |r.value.rest| < |b|
  {
    var length :- ReadWord(b, 4);
    var _ :- Require(length.item <= limits.valueBytes, ValueTooLarge);
    var body :- ReadBytes(length.rest, length.item);
    var _ :- Require(IsPrintable(BytesText(body.item)), InvalidAscii);
    Ok(Parsed(BytesText(body.item), body.rest))
  }

  function DecodeValue(b: Bytes, limits: Limits, depth: nat): (r: Coded<Parsed<Value>>)
    ensures r.Ok? ==> |r.value.rest| < |b|
    decreases |b|, 0
  {
    var _ :- Require(depth <= limits.nestingDepth, NestingTooDeep);
    var tag :- ReadWord(b, 1);
    var rest := tag.rest;
    WordRanges();
    if tag.item == TAG_FALSE then Ok(Parsed(Boolean(false), rest))
    else if tag.item == TAG_TRUE then Ok(Parsed(Boolean(true), rest))
    else if tag.item == TAG_UNSIGNED then
      var word :- ReadWord(rest, 8);
      Ok(Parsed(Unsigned(word.item), word.rest))
    else if tag.item == TAG_SIGNED then
      var word :- ReadWord(rest, 8);
      Ok(Parsed(Signed(DecodeSigned(word.item)), word.rest))
    else if tag.item == TAG_BYTES then
      var length :- ReadWord(rest, 4);
      var _ :- Require(length.item <= limits.valueBytes, ValueTooLarge);
      var body :- ReadBytes(length.rest, length.item);
      Ok(Parsed(ByteString(body.item), body.rest))
    else if tag.item == TAG_TEXT then
      var body :- DecodeTextBody(rest, limits);
      Ok(Parsed(Text(body.item), body.rest))
    else if tag.item == TAG_ARRAY then
      var count :- ReadWord(rest, 4);
      var _ :- Require(count.item <= limits.collectionMembers, CollectionTooLarge);
      var body :- DecodeItems(count.rest, count.item, limits, depth + 1);
      Ok(Parsed(Array(body.item), body.rest))
    else if tag.item == TAG_MAP then
      var count :- ReadWord(rest, 4);
      var _ :- Require(count.item <= limits.collectionMembers, CollectionTooLarge);
      var body :- DecodeEntries(None, count.rest, count.item, limits, depth + 1);
      Ok(Parsed(Map(body.item), body.rest))
    else Err(InvalidTag)
  }

  function DecodeItems(b: Bytes, count: nat, limits: Limits, depth: nat): (r: Coded<Parsed<seq<Value>>>)
    ensures r.Ok? ==> |r.value.rest| <= |b| && |r.value.item| == count
    decreases |b|, 1, count
  {
    if count == 0 then Ok(Parsed([], b))
    else
      var head :- DecodeValue(b, limits, depth);
      var tail :- DecodeItems(head.rest, count - 1, limits, depth);
      Ok(Parsed([head.item] + tail.item, tail.rest))
  }

  function DecodeEntries(prior: Option<string>, b: Bytes, count: nat, limits: Limits, depth: nat)
    : (r: Coded<Parsed<seq<Entry>>>)
    ensures r.Ok? ==> |r.value.rest| <= |b| && |r.value.item| == count
    decreases |b|, 1, count
  {
    if count == 0 then Ok(Parsed([], b))
    else
      var tag :- ReadWord(b, 1);
      var _ :- Require(tag.item == TAG_TEXT, InvalidMapKey);
      var key :- DecodeTextBody(tag.rest, limits);
      var _ :- Require(IsMapKey(key.item), InvalidMapKey);
      var _ :- Require(prior == None || StringLess(prior.value, key.item), NoncanonicalMapOrder);
      var head :- DecodeValue(key.rest, limits, depth);
      var tail :- DecodeEntries(Some(key.item), head.rest, count - 1, limits, depth);
      Ok(Parsed([Entry(key.item, head.item)] + tail.item, tail.rest))
  }

  // ----- envelopes --------------------------------------------------------

  function TypeCode(t: Type): (code: nat)
    ensures 1 <= code <= 10
  {
    match t
    case RoundConfigType => 1
    case WorkTicketType => 2
    case VoteType => 3
    case QuorumCertificateType => 4
    case RoundStateType => 5
    case CommandType => 6
    case EffectBatchType => 7
    case WalRecordType => 8
    case RuntimeDescriptorType => 9
    case PreparedIntegerShardType => 10
  }

  function DecodeType(code: nat): (r: Coded<Type>)
    ensures r.Ok? <==> 1 <= code <= 10
    ensures r.Ok? ==> TypeCode(r.value) == code
    ensures r.Err? ==> r.error == UnknownType
  {
    if code == 1 then Ok(RoundConfigType) else if code == 2 then Ok(WorkTicketType)
    else if code == 3 then Ok(VoteType) else if code == 4 then Ok(QuorumCertificateType)
    else if code == 5 then Ok(RoundStateType) else if code == 6 then Ok(CommandType)
    else if code == 7 then Ok(EffectBatchType) else if code == 8 then Ok(WalRecordType)
    else if code == 9 then Ok(RuntimeDescriptorType)
    else if code == 10 then Ok(PreparedIntegerShardType)
    else Err(UnknownType)
  }

  /** Magic, version 1.0, type and payload length. */
  function Header(t: Type, payload: nat): (h: Bytes)
    ensures |h| == HEADER_SIZE
  {
    MAGIC + ([1, 0] + (Big(TypeCode(t), 2) + Big(payload, 4)))
  }

  function Encode(envelope: Envelope, limits: Limits): Coded<Bytes> {
    var payload :- EncodeValue(Map(envelope.fields), limits, 0);
    var _ :- Require(|payload| < TWO_32, EnvelopeTooLarge);
    var output := Header(envelope.kind, |payload|) + payload;
    var _ :- Require(|output| <= limits.envelopeBytes, EnvelopeTooLarge);
    Ok(output)
  }

  function Decode(b: Bytes, limits: Limits): Coded<Envelope> {
    var _ :- Require(|b| <= limits.envelopeBytes, EnvelopeTooLarge);
    var _ :- Require(|b| >= HEADER_SIZE, Truncated);
    var _ :- Require(b[..4] == MAGIC, BadMagic);
    var _ :- Require(b[4] == 1 && b[5] == 0, UnsupportedVersion);
    var kind :- DecodeType(Number(b[6..8]));
    var length := Number(b[8..12]);
    var _ :- Require(length <= |b| - HEADER_SIZE, PayloadLengthMismatch);
    var _ :- Require(length == |b| - HEADER_SIZE, TrailingBytes);
    var fields :- DecodePayload(b[12..], limits);
    Ok(Envelope(kind, fields))
  }

  function DecodePayload(b: Bytes, limits: Limits): Coded<seq<Entry>> {
    var root :- DecodeValue(b, limits, 0);
    var _ :- Require(root.rest == [], TrailingBytes);
    var _ :- Require(root.item.Map?, InvalidRoot);
    Ok(root.item.entries)
  }

  // ----- round trips ------------------------------------------------------

  lemma ReadWordOfBig(value: nat, width: nat, tail: Bytes)
    requires value < Pow256(width)
    ensures ReadWord(Big(value, width) + tail, width) == Ok(Parsed(value, tail))
  {
    NumberOfBig(value, width);
    var b := Big(value, width) + tail;
    assert b[..width] == Big(value, width) && b[width..] == tail;
  }

  lemma ReadTag(tag: byte, tail: Bytes)
    ensures ReadWord([tag] + tail, 1) == Ok(Parsed(tag, tail))
  {
    WordRanges();
    ReadWordOfBig(tag, 1, tail);
    assert Big(tag, 1) == [tag];
  }

  lemma BigOfWord(b: Bytes, width: nat)
    requires ReadWord(b, width).Ok?
    ensures b == Big(ReadWord(b, width).value.item, width) + ReadWord(b, width).value.rest
  {
    BigOfNumber(b[..width]);
    assert b == b[..width] + b[width..];
  }

  lemma TagOfWord(b: Bytes)
    requires ReadWord(b, 1).Ok?
    ensures ReadWord(b, 1).value.item < 0x100
    ensures b == [ReadWord(b, 1).value.item] + ReadWord(b, 1).value.rest
  {
    WordRanges();
    BigOfWord(b, 1);
    assert Big(ReadWord(b, 1).value.item, 1) == [ReadWord(b, 1).value.item];
  }

  /** The part after the tag of a headed section, split as the reader takes it. */
  lemma HeadedSplit(tag: byte, count: nat, body: Bytes, tail: Bytes)
    ensures Headed(tag, count, body) + tail == [tag] + (Big(count, 4) + (body + tail))
  {
  }

  lemma TextBodyRoundTrip(s: string, limits: Limits, tail: Bytes)
    requires EncodeText(s, limits).Ok?
    ensures DecodeTextBody(Big(|s|, 4) + (TextBytes(s) + tail), limits) == Ok(Parsed(s, tail))
  {
    WordRanges();
    ReadWordOfBig(|s|, 4, TextBytes(s) + tail);
    assert (TextBytes(s) + tail)[..|s|] == TextBytes(s);
    assert (TextBytes(s) + tail)[|s|..] == tail;
    assert BytesText(TextBytes(s)) == s;
  }

  lemma TextBodyExact(b: Bytes, limits: Limits)
    requires DecodeTextBody(b, limits).Ok?
    ensures var p := DecodeTextBody(b, limits).value;
            EncodeText(p.item, limits) == Ok(Headed(TAG_TEXT, |p.item|, TextBytes(p.item)))
            && b == Big(|p.item|, 4) + (TextBytes(p.item) + p.rest)
  {
    var p := DecodeTextBody(b, limits).value;
    WordRanges();
    BigOfWord(b, 4);
    var word := ReadWord(b, 4).value;
    SplitExact(word.rest, word.item);
    assert TextBytes(p.item) == ReadBytes(word.rest, word.item).value.item;
  }

  lemma ScalarRoundTrip(v: Value, limits: Limits, depth: nat, tail: Bytes)
    requires v.Boolean? || v.Unsigned? || v.Signed?
    requires EncodeValue(v, limits, depth).Ok?
    ensures DecodeValue(EncodeValue(v, limits, depth).value + tail, limits, depth) == Ok(Parsed(v, tail))
  {
    WordRanges();
    if v.Boolean? {
      ReadTag(if v.truth then TAG_TRUE else TAG_FALSE, tail);
    } else {
      var tag := if v.Unsigned? then TAG_UNSIGNED else TAG_SIGNED;
      var word := if v.Unsigned? then v.unsigned else SignedBits(v.signed);
      assert ([tag] + Big(word, 8)) + tail == [tag] + (Big(word, 8) + tail);
      ReadTag(tag, Big(word, 8) + tail);
      ReadWordOfBig(word, 8, tail);
    }
  }

  lemma StringRoundTrip(v: Value, limits: Limits, depth: nat, tail: Bytes)
    requires v.ByteString? || v.Text?
    requires EncodeValue(v, limits, depth).Ok?
    ensures DecodeValue(EncodeValue(v, limits, depth).value + tail, limits, depth) == Ok(Parsed(v, tail))
  {
    hide Big, Pow256;
    WordRanges();
    match v
    case ByteString(bytes) =>
      HeadedSplit(TAG_BYTES, |bytes|, bytes, tail);
      ReadTag(TAG_BYTES, Big(|bytes|, 4) + (bytes + tail));
      ReadWordOfBig(|bytes|, 4, bytes + tail);
      Window([], bytes, tail);
      assert [] + (bytes + tail) == bytes + tail;
    case Text(s) =>
      HeadedSplit(TAG_TEXT, |s|, TextBytes(s), tail);
      ReadTag(TAG_TEXT, Big(|s|, 4) + (TextBytes(s) + tail));
      TextBodyRoundTrip(s, limits, tail);
  }

  lemma ArrayRead(items: seq<Value>, limits: Limits, depth: nat, body: Bytes, tail: Bytes)
    requires depth <= limits.nestingDepth && |items| <= limits.collectionMembers && |items| < TWO_32
    requires DecodeItems(body + tail, |items|, limits, depth + 1) == Ok(Parsed(items, tail))
    ensures DecodeValue(Headed(TAG_ARRAY, |items|, body) + tail, limits, depth) == Ok(Parsed(Array(items), tail))
  {
    WordRanges();
    HeadedSplit(TAG_ARRAY, |items|, body, tail);
    ReadTag(TAG_ARRAY, Big(|items|, 4) + (body + tail));
    ReadWordOfBig(|items|, 4, body + tail);
  }

  lemma MapRead(entries: seq<Entry>, limits: Limits, depth: nat, body: Bytes, tail: Bytes)
    requires depth <= limits.nestingDepth && |entries| <= limits.collectionMembers && |entries| < TWO_32
    requires DecodeEntries(None, body + tail, |entries|, limits, depth + 1) == Ok(Parsed(entries, tail))
    ensures DecodeValue(Headed(TAG_MAP, |entries|, body) + tail, limits, depth) == Ok(Parsed(Map(entries), tail))
  {
    hide DecodeEntries;
    WordRanges();
    HeadedSplit(TAG_MAP, |entries|, body, tail);
    ReadTag(TAG_MAP, Big(|entries|, 4) + (body + tail));
    ReadWordOfBig(|entries|, 4, body + tail);
  }

  /** Decoding what was encoded yields the value and leaves the cursor right after it. */
  lemma {:induction false} ValueRoundTrip(v: Value, limits: Limits, depth: nat, tail: Bytes)
    requires EncodeValue(v, limits, depth).Ok?
    ensures DecodeValue(EncodeValue(v, limits, depth).value + tail, limits, depth) == Ok(Parsed(v, tail))
    decreases v, 1
  {
    match v {
      case Array(items) =>
        ItemsRoundTrip(items, limits, depth + 1, tail);
        ArrayRead(items, limits, depth, EncodeItems(items, limits, depth + 1).value, tail);
      case Map(entries) =>
        EntriesRoundTrip(None, entries, limits, depth + 1, tail);
        MapRead(entries, limits, depth, EncodeEntries(None, entries, limits, depth + 1).value, tail);
      case ByteString(_) => StringRoundTrip(v, limits, depth, tail);
      case Text(_) => StringRoundTrip(v, limits, depth, tail);
      case _ => ScalarRoundTrip(v, limits, depth, tail);
    }
  }

  lemma {:induction false} ItemsRoundTrip(items: seq<Value>, limits: Limits, depth: nat, tail: Bytes)
    requires EncodeItems(items, limits, depth).Ok?
    ensures DecodeItems(EncodeItems(items, limits, depth).value + tail, |items|, limits, depth)
         == Ok(Parsed(items, tail))
    decreases items, 0
  {
    if items == [] {
      assert [] + tail == tail;
    } else {
      var head := EncodeValue(items[0], limits, depth).value;
      var more := EncodeItems(items[1..], limits, depth).value;
      assert (head + more) + tail == head + (more + tail);
      ValueRoundTrip(items[0], limits, depth, more + tail);
      ItemsRoundTrip(items[1..], limits, depth, tail);
      assert [items[0]] + items[1..] == items;
    }
  }

  lemma {:induction false} EntriesRoundTrip(prior: Option<string>, entries: seq<Entry>, limits: Limits,
                                            depth: nat, tail: Bytes)
    requires EncodeEntries(prior, entries, limits, depth).Ok?
    ensures DecodeEntries(prior, EncodeEntries(prior, entries, limits, depth).value + tail, |entries|, limits, depth)
         == Ok(Parsed(entries, tail))
    decreases entries, 0
  {
    if entries == [] {
      assert [] + tail == tail;
    } else {
      var key := entries[0].key;
      var head := EncodeValue(entries[0].value, limits, depth).value;
      var more := EncodeEntries(Some(key), entries[1..], limits, depth).value;
      var name := EncodeText(key, limits).value;
      assert (name + (head + more)) + tail == name + (head + (more + tail));
      HeadedSplit(TAG_TEXT, |key|, TextBytes(key), head + (more + tail));
      ReadTag(TAG_TEXT, Big(|key|, 4) + (TextBytes(key) + (head + (more + tail))));
      TextBodyRoundTrip(key, limits, head + (more + tail));
      ValueRoundTrip(entries[0].value, limits, depth, more + tail);
      EntriesRoundTrip(Some(key), entries[1..], limits, depth, tail);
      assert [entries[0]] + entries[1..] == entries;
    }
  }

  lemma ScalarExact(b: Bytes, limits: Limits, depth: nat, v: Value, rest: Bytes)
    requires v.Boolean? || v.Unsigned? || v.Signed?
    requires DecodeValue(b, limits, depth) == Ok(Parsed(v, rest))
    ensures var e := EncodeValue(v, limits, depth); e.Ok? && b == e.value + rest
  {
    WordRanges();
    TagOfWord(b);
    if !v.Boolean? {
      BigOfWord(ReadWord(b, 1).value.rest, 8);
    }
  }

  lemma SplitExact(b: Bytes, count: nat)
    requires ReadBytes(b, count).Ok?
    ensures b == ReadBytes(b, count).value.item + ReadBytes(b, count).value.rest
  {
  }

  lemma BytesExact(b: Bytes, limits: Limits, depth: nat, bytes: Bytes, rest: Bytes)
    requires DecodeValue(b, limits, depth) == Ok(Parsed(ByteString(bytes), rest))
    ensures var e := EncodeValue(ByteString(bytes), limits, depth); e.Ok? && b == e.value + rest
  {
    WordRanges();
    TagOfWord(b);
    var body := ReadWord(b, 1).value.rest;
    BigOfWord(body, 4);
    SplitExact(ReadWord(body, 4).value.rest, |bytes|);
    HeadedSplit(TAG_BYTES, |bytes|, bytes, rest);
  }

  lemma TextExact(b: Bytes, limits: Limits, depth: nat, s: string, rest: Bytes)
    requires DecodeValue(b, limits, depth) == Ok(Parsed(Text(s), rest))
    ensures var e := EncodeValue(Text(s), limits, depth); e.Ok? && b == e.value + rest
  {
    TagOfWord(b);
    TextBodyExact(ReadWord(b, 1).value.rest, limits);
    HeadedSplit(TAG_TEXT, |s|, TextBytes(s), rest);
  }

  /** The header of an accepted collection: its tag, its count and where its members start. */
  lemma CollectionStep(b: Bytes, limits: Limits, depth: nat, v: Value, rest: Bytes) returns (body: Bytes)
    requires v.Array? || v.Map?
    requires DecodeValue(b, limits, depth) == Ok(Parsed(v, rest))
    ensures depth <= limits.nestingDepth && |body| < |b|
    ensures v.Array? ==>
      && |v.items| <= limits.collectionMembers && |v.items| < TWO_32
      && b == [TAG_ARRAY] + (Big(|v.items|, 4) + body)
      && DecodeItems(body, |v.items|, limits, depth + 1) == Ok(Parsed(v.items, rest))
    ensures v.Map? ==>
      && |v.entries| <= limits.collectionMembers && |v.entries| < TWO_32
      && b == [TAG_MAP] + (Big(|v.entries|, 4) + body)
      && DecodeEntries(None, body, |v.entries|, limits, depth + 1) == Ok(Parsed(v.entries, rest))
  {
    WordRanges();
    TagOfWord(b);
    var tag := ReadWord(b, 1).value;
    BigOfWord(tag.rest, 4);
    body := ReadWord(tag.rest, 4).value.rest;
  }

  lemma ItemsStep(b: Bytes, count: nat, limits: Limits, depth: nat, items: seq<Value>, rest: Bytes)
    returns (middle: Bytes)
    requires count > 0 && DecodeItems(b, count, limits, depth) == Ok(Parsed(items, rest))
    ensures items != [] && |middle| < |b|
    ensures DecodeValue(b, limits, depth) == Ok(Parsed(items[0], middle))
    ensures DecodeItems(middle, count - 1, limits, depth) == Ok(Parsed(items[1..], rest))
  {
    middle := DecodeValue(b, limits, depth).value.rest;
    var tail := DecodeItems(middle, count - 1, limits, depth).value.item;
    assert ([items[0]] + tail)[1..] == tail;
  }

  lemma EntriesStep(prior: Option<string>, b: Bytes, count: nat, limits: Limits, depth: nat,
                    entries: seq<Entry>, rest: Bytes)
    returns (named: Bytes, middle: Bytes)
    requires count > 0 && DecodeEntries(prior, b, count, limits, depth) == Ok(Parsed(entries, rest))
    ensures entries != [] && |named| < |b| && |middle| < |b|
    ensures IsMapKey(entries[0].key) && (prior == None || StringLess(prior.value, entries[0].key))
    ensures EncodeText(entries[0].key, limits).Ok? && b == EncodeText(entries[0].key, limits).value + named
    ensures DecodeValue(named, limits, depth) == Ok(Parsed(entries[0].value, middle))
    ensures DecodeEntries(Some(entries[0].key), middle, count - 1, limits, depth) == Ok(Parsed(entries[1..], rest))
  {
    TagOfWord(b);
    var start := ReadWord(b, 1).value.rest;
    var key := DecodeTextBody(start, limits).value;
    TextBodyExact(start, limits);
    HeadedSplit(TAG_TEXT, |key.item|, TextBytes(key.item), key.rest);
    named := key.rest;
    middle := DecodeValue(named, limits, depth).value.rest;
    var tail := DecodeEntries(Some(key.item), middle, count - 1, limits, depth).value.item;
    assert ([entries[0]] + tail)[1..] == tail;
  }

  lemma ItemsCons(items: seq<Value>, limits: Limits, depth: nat, b: Bytes, middle: Bytes, rest: Bytes)
    requires items != []
    requires EncodeValue(items[0], limits, depth).Ok? && b == EncodeValue(items[0], limits, depth).value + middle
    requires EncodeItems(items[1..], limits, depth).Ok? && middle == EncodeItems(items[1..], limits, depth).value + rest
    ensures EncodeItems(items, limits, depth).Ok? && b == EncodeItems(items, limits, depth).value + rest
  {
  }

  lemma EntriesCons(prior: Option<string>, entries: seq<Entry>, limits: Limits, depth: nat,
                    b: Bytes, named: Bytes, middle: Bytes, rest: Bytes)
    requires entries != [] && IsMapKey(entries[0].key)
    requires prior == None || StringLess(prior.value, entries[0].key)
    requires EncodeText(entries[0].key, limits).Ok? && b == EncodeText(entries[0].key, limits).value + named
    requires EncodeValue(entries[0].value, limits, depth).Ok?
    requires named == EncodeValue(entries[0].value, limits, depth).value + middle
    requires EncodeEntries(Some(entries[0].key), entries[1..], limits, depth).Ok?
    requires middle == EncodeEntries(Some(entries[0].key), entries[1..], limits, depth).value + rest
    ensures EncodeEntries(prior, entries, limits, depth).Ok?
    ensures b == EncodeEntries(prior, entries, limits, depth).value + rest
  {
  }

  lemma ArrayPrinted(items: seq<Value>, limits: Limits, depth: nat, b: Bytes, body: Bytes, rest: Bytes)
    requires depth <= limits.nestingDepth && |items| <= limits.collectionMembers && |items| < TWO_32
    requires b == [TAG_ARRAY] + (Big(|items|, 4) + body)
    requires EncodeItems(items, limits, depth + 1).Ok?
    requires body == EncodeItems(items, limits, depth + 1).value + rest
    ensures var e := EncodeValue(Array(items), limits, depth); e.Ok? && b == e.value + rest
  {
    HeadedSplit(TAG_ARRAY, |items|, EncodeItems(items, limits, depth + 1).value, rest);
  }

  lemma MapPrinted(entries: seq<Entry>, limits: Limits, depth: nat, b: Bytes, body: Bytes, rest: Bytes)
    requires depth <= limits.nestingDepth && |entries| <= limits.collectionMembers && |entries| < TWO_32
    requires b == [TAG_MAP] + (Big(|entries|, 4) + body)
    requires EncodeEntries(None, entries, limits, depth + 1).Ok?
    requires body == EncodeEntries(None, entries, limits, depth + 1).value + rest
    ensures var e := EncodeValue(Map(entries), limits, depth); e.Ok? && b == e.value + rest
  {
    HeadedSplit(TAG_MAP, |entries|, EncodeEntries(None, entries, limits, depth + 1).value, rest);
  }

  /** Whatever the decoder accepts is exactly what the encoder prints for the result. */
  lemma {:induction false} ValueExact(b: Bytes, limits: Limits, depth: nat, v: Value, rest: Bytes)
    requires DecodeValue(b, limits, depth) == Ok(Parsed(v, rest))
    ensures EncodeValue(v, limits, depth).Ok? && b == EncodeValue(v, limits, depth).value + rest
    decreases |b|, 0
  {
    hide DecodeValue, EncodeValue, DecodeItems, EncodeItems, DecodeEntries, EncodeEntries, Big;
    if v.Array? {
      var body := CollectionStep(b, limits, depth, v, rest);
      ItemsExact(body, |v.items|, limits, depth + 1, v.items, rest);
      ArrayPrinted(v.items, limits, depth, b, body, rest);
    } else if v.Map? {
      var body := CollectionStep(b, limits, depth, v, rest);
      EntriesExact(None, body, |v.entries|, limits, depth + 1, v.entries, rest);
      MapPrinted(v.entries, limits, depth, b, body, rest);
    } else if v.ByteString? {
      BytesExact(b, limits, depth, v.bytes, rest);
    } else if v.Text? {
      TextExact(b, limits, depth, v.text, rest);
    } else {
      ScalarExact(b, limits, depth, v, rest);
    }
  }

  lemma {:induction false} ItemsExact(b: Bytes, count: nat, limits: Limits, depth: nat,
                                      items: seq<Value>, rest: Bytes)
    requires DecodeItems(b, count, limits, depth) == Ok(Parsed(items, rest))
    ensures EncodeItems(items, limits, depth).Ok? && b == EncodeItems(items, limits, depth).value + rest
    decreases |b|, 1, count
  {
    if count > 0 {
      var middle := ItemsStep(b, count, limits, depth, items, rest);
      ValueExact(b, limits, depth, items[0], middle);
      ItemsExact(middle, count - 1, limits, depth, items[1..], rest);
      ItemsCons(items, limits, depth, b, middle, rest);
    }
  }

  lemma EntriesDone(prior: Option<string>, b: Bytes, limits: Limits, depth: nat, entries: seq<Entry>, rest: Bytes)
    requires DecodeEntries(prior, b, 0, limits, depth) == Ok(Parsed(entries, rest))
    ensures EncodeEntries(prior, entries, limits, depth).Ok?
    ensures b == EncodeEntries(prior, entries, limits, depth).value + rest
  {
  }

  lemma {:induction false} EntriesExact(prior: Option<string>, b: Bytes, count: nat, limits: Limits, depth: nat,
                                        entries: seq<Entry>, rest: Bytes)
    requires DecodeEntries(prior, b, count, limits, depth) == Ok(Parsed(entries, rest))
    ensures EncodeEntries(prior, entries, limits, depth).Ok?
    ensures b == EncodeEntries(prior, entries, limits, depth).value + rest
    decreases |b|, 1, count
  {
    hide *;
    if count == 0 {
      EntriesDone(prior, b, limits, depth, entries, rest);
    } else {
      var named, middle := EntriesStep(prior, b, count, limits, depth, entries, rest);
      ValueExact(named, limits, depth, entries[0].value, middle);
      EntriesExact(Some(entries[0].key), middle, count - 1, limits, depth, entries[1..], rest);
      EntriesCons(prior, entries, limits, depth, b, named, middle, rest);
    }
  }

  lemma HeaderParts(t: Type, payload: u32, tail: Bytes)
    ensures var b := Header(t, payload) + tail;
            b[..4] == MAGIC && b[4] == 1 && b[5] == 0 && b[12..] == tail
            && Number(b[6..8]) == TypeCode(t) && Number(b[8..12]) == payload
  {
    var b := Header(t, payload) + tail;
    WordRanges();
    NumberOfBig(TypeCode(t), 2);
    NumberOfBig(payload, 4);
    assert b[6..8] == Big(TypeCode(t), 2);
    assert b[8..12] == Big(payload, 4);
  }

  lemma PayloadRoundTrip(fields: seq<Entry>, limits: Limits)
    requires EncodeValue(Map(fields), limits, 0).Ok?
    ensures DecodePayload(EncodeValue(Map(fields), limits, 0).value, limits) == Ok(fields)
  {
    var payload := EncodeValue(Map(fields), limits, 0).value;
    ValueRoundTrip(Map(fields), limits, 0, []);
    assert payload + [] == payload;
  }

  lemma PayloadExact(b: Bytes, limits: Limits)
    requires DecodePayload(b, limits).Ok?
    ensures EncodeValue(Map(DecodePayload(b, limits).value), limits, 0) == Ok(b)
  {
    var fields := DecodePayload(b, limits).value;
    ValueExact(b, limits, 0, Map(fields), []);
    assert b == EncodeValue(Map(fields), limits, 0).value;
  }

  /** decode(encode(e)) = e, under any limits. */
  lemma EnvelopeRoundTrip(envelope: Envelope, limits: Limits)
    requires Encode(envelope, limits).Ok?
    ensures Decode(Encode(envelope, limits).value, limits) == Ok(envelope)
  {
    PayloadRoundTrip(envelope.fields, limits);
    Unframed(envelope, EncodeValue(Map(envelope.fields), limits, 0).value, limits);
  }

  lemma Unframed(envelope: Envelope, payload: Bytes, limits: Limits)
    requires |payload| < TWO_32 && HEADER_SIZE + |payload| <= limits.envelopeBytes
    requires DecodePayload(payload, limits) == Ok(envelope.fields)
    ensures Decode(Header(envelope.kind, |payload|) + payload, limits) == Ok(envelope)
  {
    HeaderParts(envelope.kind, |payload|, payload);
  }

  lemma HeaderExact(b: Bytes)
    requires |b| >= HEADER_SIZE && b[..4] == MAGIC && b[4] == 1 && b[5] == 0
    requires DecodeType(Number(b[6..8])).Ok? && Number(b[8..12]) == |b| - HEADER_SIZE
    ensures |b| - HEADER_SIZE < TWO_32
    ensures b == Header(DecodeType(Number(b[6..8])).value, |b| - HEADER_SIZE) + b[12..]
  {
    hide Number, Big, DecodeType, TypeCode, Pow256;
    BigOfNumber(b[6..8]);
    BigOfNumber(b[8..12]);
    WordRanges();
    HeaderPieces(b);
  }

  lemma HeaderPieces(b: Bytes)
    requires |b| >= HEADER_SIZE
    ensures b == (b[..4] + ([b[4], b[5]] + (b[6..8] + b[8..12]))) + b[12..]
  {
    Rejoin(b, 12, |b|);
    Rejoin(b, 8, 12);
    Rejoin(b, 6, 8);
    Rejoin(b, 4, 6);
    assert b[4..6] == [b[4], b[5]] && b[..|b|] == b;
    Window(b[..4], [b[4], b[5]], b[6..8]);
    Window(b[..4], [b[4], b[5]] + b[6..8], b[8..12]);
    Window([b[4], b[5]], b[6..8], b[8..12]);
  }

  /** encode(decode(b)) = b, under any limits. */
  lemma EnvelopeExact(b: Bytes, limits: Limits)
    requires Decode(b, limits).Ok?
    ensures Encode(Decode(b, limits).value, limits) == Ok(b)
  {
    HeaderExact(b);
    PayloadExact(b[12..], limits);
  }

  /** The accepted byte strings and the accepted envelopes are in one-to-one correspondence. */
  lemma CodecIsBijective(b: Bytes, envelope: Envelope, limits: Limits)
    ensures Decode(b, limits) == Ok(envelope) <==> Encode(envelope, limits) == Ok(b)
  {
    if Decode(b, limits) == Ok(envelope) { EnvelopeExact(b, limits); }
    if Encode(envelope, limits) == Ok(b) { EnvelopeRoundTrip(envelope, limits); }
  }
}
