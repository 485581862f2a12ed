/** The codec as the program runs it: an encoder that appends to an output buffer and a
    reader that advances a cursor, both proved against the functions of `Canonical`. */
module CanonicalIO {
  import opened Base
  import opened Canonical

  /** What a cursor operation must do, given what the function reads from the same bytes. */
  ghost predicate Reads<T>(outcome: Coded<T>, expected: Coded<Parsed<T>>, rest: Bytes) {
    match expected
    case Ok(p) => outcome == Ok(p.item) && rest == p.rest
    case Err(e) => outcome == Err(e)
  }

  /** `tail` continues a list whose first members `done` were already read. */
  ghost function Prepend<T>(done: seq<T>, tail: Coded<Parsed<seq<T>>>): Coded<Parsed<seq<T>>> {
    match tail
    case Ok(p) => Ok(Parsed(done + p.item, p.rest))
    case Err(e) => Err(e)
  }

  ghost function PrependBytes(done: Bytes, tail: Coded<Bytes>): Coded<Bytes> {
    match tail
    case Ok(b) => Ok(done + b)
    case Err(e) => Err(e)
  }

  class Reader {
    const input: Bytes
    var cursor: nat

    ghost predicate Valid()
      reads this
    {
      cursor <= |input|
    }

    ghost function Rest(): Bytes
      requires Valid()
      reads this
    {
      input[cursor..]
    }

    constructor (input: Bytes)
      ensures Valid() && Rest() == input && this.input == input
    {
      this.input := input;
      cursor := 0;
    }

    method ReadU8() returns (r: Coded<nat>)
      requires Valid()
      modifies this
      ensures Valid() && cursor >= old(cursor)
      ensures Reads(r, ReadWord(old(Rest()), 1), Rest())
    {
      if cursor == |input| { return Err(Truncated); }
      r := Ok(input[cursor]);
      TagOfWord(Rest());
      cursor := cursor + 1;
      assert old(Rest())[0] == input[old(cursor)];
      assert Rest() == old(Rest())[1..];
    }

    /** `read_u16`, `read_u32` and `read_u64`: shift in `width` bytes after one length check. */
    method ReadBig(width: nat) returns (r: Coded<nat>)
      requires Valid()
      modifies this
      ensures Valid() && cursor >= old(cursor)
      ensures Reads(r, ReadWord(old(Rest()), width), Rest())
    {
      if |input| - cursor < width { return Err(Truncated); }
      ghost var start := Rest();
      var value: nat := 0;
      for index := 0 to width
        invariant cursor == old(cursor) + index <= |input|
        invariant value == Number(start[..index])
      {
        value := value * 256 + input[cursor];
        cursor := cursor + 1;
        assert start[..index + 1][..index] == start[..index];
      }
      assert Rest() == start[width..];
      r := Ok(value);
    }

    method Take(count: nat) returns (r: Coded<Bytes>)
      requires Valid()
      modifies this
      ensures Valid() && cursor >= old(cursor)
      ensures Reads(r, ReadBytes(old(Rest()), count), Rest())
    {
      if |input| - cursor < count { return Err(Truncated); }
      r := Ok(input[cursor..cursor + count]);
      cursor := cursor + count;
      assert Rest() == old(Rest())[count..];
      assert input[old(cursor)..cursor] == old(Rest())[..count];
    }

    method ReadTextBody(limits: Limits) returns (r: Coded<string>)
      requires Valid()
      modifies this
      ensures Valid() && cursor >= old(cursor)
      ensures Reads(r, DecodeTextBody(old(Rest()), limits), Rest())
    {
      var length := ReadBig(4);
      if length.Err? { return Err(length.error); }
      if length.value > limits.valueBytes { return Err(ValueTooLarge); }
      var body := Take(length.value);
      if body.Err? { return Err(body.error); }
      var text := BytesText(body.value);
      if !IsPrintable(text) { return Err(InvalidAscii); }
      r := Ok(text);
    }

    /** `decode_value`: one tag byte, then the body the tag announces. */
    method ReadValue(limits: Limits, depth: nat) returns (r: Coded<Value>)
      requires Valid()
      modifies this
      ensures Valid() && cursor >= old(cursor)
      ensures Reads(r, DecodeValue(old(Rest()), limits, depth), Rest())
      decreases |input| - cursor, 0
    {
      hide DecodeItems, DecodeEntries, Number, Pow256, Big, IsPrintable, BytesText;
      WordRanges();
      if depth > limits.nestingDepth { return Err(NestingTooDeep); }
      var tag := ReadU8();
      if tag.Err? { return Err(tag.error); }
      if tag.value == TAG_FALSE {
        r := Ok(Boolean(false));
      } else if tag.value == TAG_TRUE {
        r := Ok(Boolean(true));
      } else if tag.value == TAG_UNSIGNED {
        var word := ReadBig(8);
        if word.Err? { return Err(word.error); }
        r := Ok(Unsigned(word.value));
      } else if tag.value == TAG_SIGNED {
        var word := ReadBig(8);
        if word.Err? { return Err(word.error); }
        r := Ok(Signed(DecodeSigned(word.value)));
      } else if tag.value == TAG_BYTES {
        var length := ReadBig(4);
        if length.Err? { return Err(length.error); }
        if length.value > limits.valueBytes { return Err(ValueTooLarge); }
        var body := Take(length.value);
        if body.Err? { return Err(body.error); }
        r := Ok(ByteString(body.value));
      } else if tag.value == TAG_TEXT {
        var body := ReadTextBody(limits);
        if body.Err? { return Err(body.error); }
        r := Ok(Text(body.value));
      } else if tag.value == TAG_ARRAY {
        var count := ReadBig(4);
        if count.Err? { return Err(count.error); }
        if count.value > limits.collectionMembers { return Err(CollectionTooLarge); }
        var items := ReadItems(count.value, limits, depth + 1);
        if items.Err? { return Err(items.error); }
        r := Ok(Array(items.value));
      } else if tag.value == TAG_MAP {
        var count := ReadBig(4);
        if count.Err? { return Err(count.error); }
        if count.value > limits.collectionMembers { return Err(CollectionTooLarge); }
        var entries := ReadEntries(count.value, limits, depth + 1);
        if entries.Err? { return Err(entries.error); }
        r := Ok(Map(entries.value));
      } else {
        r := Err(InvalidTag);
      }
    }

    /** The loop over array members. */
    method ReadItems(count: nat, limits: Limits, depth: nat) returns (r: Coded<seq<Value>>)
      requires Valid()
      modifies this
      ensures Valid() && cursor >= old(cursor)
      ensures Reads(r, DecodeItems(old(Rest()), count, limits, depth), Rest())
      decreases |input| - cursor, 1
    {
      hide DecodeValue, DecodeEntries;
      ghost var start := Rest();
      var values: seq<Value> := [];
      PrependNone(DecodeItems(start, count, limits, depth));
      for index := 0 to count
        invariant Valid() && cursor >= old(cursor)
        invariant DecodeItems(start, count, limits, depth)
               == Prepend(values, DecodeItems(Rest(), count - index, limits, depth))
      {
        var item := ReadValue(limits, depth);
        if item.Err? { return Err(item.error); }
        ghost var more := DecodeItems(Rest(), count - index - 1, limits, depth);
        assert more.Ok? ==> values + ([item.value] + more.value.item) == (values + [item.value]) + more.value.item;
        values := values + [item.value];
      }
      assert values + [] == values;
      r := Ok(values);
    }

    /** The loop over map members; keys must be valid and strictly increasing. */
    method ReadEntries(count: nat, limits: Limits, depth: nat) returns (r: Coded<seq<Entry>>)
      requires Valid()
      modifies this
      ensures Valid() && cursor >= old(cursor)
      ensures Reads(r, DecodeEntries(None, old(Rest()), count, limits, depth), Rest())
      decreases |input| - cursor, 1
    {
      hide DecodeValue, DecodeItems, IsMapKey, StringLess, DecodeTextBody, Number, Pow256;
      ghost var start := Rest();
      var values: seq<Entry> := [];
      var prior: Option<string> := None;
      PrependNone(DecodeEntries(None, start, count, limits, depth));
      for index := 0 to count
        invariant Valid() && cursor >= old(cursor)
        invariant DecodeEntries(None, start, count, limits, depth)
               == Prepend(values, DecodeEntries(prior, Rest(), count - index, limits, depth))
      {
        var tag := ReadU8();
        if tag.Err? { return Err(tag.error); }
        if tag.value != TAG_TEXT { return Err(InvalidMapKey); }
        var key := ReadTextBody(limits);
        if key.Err? { return Err(key.error); }
        if !IsMapKey(key.value) { return Err(InvalidMapKey); }
        if prior.Some? && !StringLess(prior.value, key.value) { return Err(NoncanonicalMapOrder); }
        var child := ReadValue(limits, depth);
        if child.Err? { return Err(child.error); }
        var entry := Entry(key.value, child.value);
        prior := Some(key.value);
        ghost var more := DecodeEntries(prior, Rest(), count - index - 1, limits, depth);
        assert more.Ok? ==> values + ([entry] + more.value.item) == (values + [entry]) + more.value.item;
        values := values + [entry];
      }
      assert values + [] == values;
      r := Ok(values);
    }
  }

  /** `decode`: header checks in source order, then one value that must be the whole payload. */
  method DecodeEnvelope(b: Bytes, limits: Limits) returns (r: Coded<Envelope>)
    ensures r == Decode(b, limits)
  {
    hide DecodeValue, Number, DecodeType;
    if |b| > limits.envelopeBytes { return Err(EnvelopeTooLarge); }
    if |b| < HEADER_SIZE { return Err(Truncated); }
    if b[..4] != MAGIC { return Err(BadMagic); }
    if !(b[4] == 1 && b[5] == 0) { return Err(UnsupportedVersion); }
    var kind := DecodeType(Number(b[6..8]));
    if kind.Err? { return Err(kind.error); }
    var length := Number(b[8..12]);
    if length > |b| - HEADER_SIZE { return Err(PayloadLengthMismatch); }
    if length != |b| - HEADER_SIZE { return Err(TrailingBytes); }
    var payload := new Reader(b[12..]);
    var root := payload.ReadValue(limits, 0);
    if root.Err? { return Err(root.error); }
    assert payload.Rest() == [] <==> payload.cursor == |payload.input|;
    if payload.cursor != |payload.input| { return Err(TrailingBytes); }
    if !root.value.Map? { return Err(InvalidRoot); }
    r := Ok(Envelope(kind.value, root.value.entries));
  }

  /** `value >> (8 * count)`. */
  function ShiftRight(value: nat, count: nat): nat {
    if count == 0 then value else ShiftRight(value, count - 1) / 256
  }

  class Output {
    var data: Bytes

    constructor ()
      ensures data == []
    {
      data := [];
    }

    method Append(more: Bytes)
      modifies this
      ensures data == old(data) + more
    {
      data := data + more;
    }

    /** `append_u16`, `append_u32`, `append_u64`: bytes from the most significant shift down to 0. */
    method AppendBig(value: nat, width: nat)
      modifies this
      ensures data == old(data) + Big(value, width)
    {
      var shift := width;
      while shift > 0
        invariant 0 <= shift <= width
        invariant data == old(data) + Big(ShiftRight(value, shift), width - shift)
      {
        shift := shift - 1;
        data := data + [ShiftRight(value, shift) % 256];
      }
    }

    method AppendText(s: string, limits: Limits) returns (failure: Option<ErrorCode>)
      modifies this
      ensures Prints(failure, EncodeText(s, limits), old(data), data)
    {
      if |s| > limits.valueBytes { return Some(ValueTooLarge); }
      if !IsPrintable(s) { return Some(InvalidAscii); }
      if |s| >= TWO_32 { return Some(ValueTooLarge); }
      AppendHead(TAG_TEXT, |s|);
      data := data + TextBytes(s);
      assert data == old(data) + Headed(TAG_TEXT, |s|, TextBytes(s));
      failure := None;
    }

    method AppendHead(tag: byte, count: u32)
      modifies this
      ensures data == old(data) + ([tag] + Big(count, 4))
    {
      data := data + [tag];
      AppendBig(count, 4);
    }

    /** `encode_value`. */
    method AppendValue(v: Value, limits: Limits, depth: nat) returns (failure: Option<ErrorCode>)
      modifies this
      ensures Prints(failure, EncodeValue(v, limits, depth), old(data), data)
      decreases v, 1
    {
      hide EncodeItems, EncodeEntries, Big, IsPrintable, TextBytes, EncodeText;
      if depth > limits.nestingDepth { return Some(NestingTooDeep); }
      match v {
        case Boolean(truth) => Append([if truth then TAG_TRUE else TAG_FALSE]); failure := None;
        case Unsigned(u) => Append([TAG_UNSIGNED]); AppendBig(u, 8); failure := None;
        case Signed(i) => Append([TAG_SIGNED]); AppendBig(SignedBits(i), 8); failure := None;
        case ByteString(bytes) =>
          if |bytes| > limits.valueBytes || |bytes| >= TWO_32 { return Some(ValueTooLarge); }
          AppendHead(TAG_BYTES, |bytes|);
          Append(bytes);
          assert data == old(data) + Headed(TAG_BYTES, |bytes|, bytes);
          failure := None;
        case Text(s) => failure := AppendText(s, limits);
        case Array(items) =>
          if |items| > limits.collectionMembers || |items| >= TWO_32 { return Some(CollectionTooLarge); }
          AppendHead(TAG_ARRAY, |items|);
          failure := AppendItems(items, limits, depth + 1);
          Regroup(old(data), TAG_ARRAY, |items|, EncodeItems(items, limits, depth + 1));
        case Map(entries) =>
          if |entries| > limits.collectionMembers || |entries| >= TWO_32 { return Some(CollectionTooLarge); }
          AppendHead(TAG_MAP, |entries|);
          failure := AppendEntries(entries, limits, depth + 1);
          Regroup(old(data), TAG_MAP, |entries|, EncodeEntries(None, entries, limits, depth + 1));
      }
    }

    method AppendItems(items: seq<Value>, limits: Limits, depth: nat) returns (failure: Option<ErrorCode>)
      modifies this
      ensures Prints(failure, EncodeItems(items, limits, depth), old(data), data)
      decreases items, 0
    {
      hide EncodeValue, EncodeEntries;
      ghost var printed: Bytes := [];
      assert items[0..] == items;
      assert data == old(data) + printed;
      PrependNothing(EncodeItems(items, limits, depth));
      for index := 0 to |items|
        invariant data == old(data) + printed
        invariant EncodeItems(items, limits, depth) == PrependBytes(printed, EncodeItems(items[index..], limits, depth))
      {
        var stopped := AppendValue(items[index], limits, depth);
        assert items[index..][0] == items[index] && items[index..][1..] == items[index + 1..];
        if stopped.Some? { return stopped; }
        ghost var head := EncodeValue(items[index], limits, depth).value;
        PrependTwice(printed, head, EncodeItems(items[index + 1..], limits, depth));
        printed := printed + head;
      }
      assert items[|items|..] == [];
      assert printed + [] == printed;
      failure := None;
    }

    method AppendEntries(entries: seq<Entry>, limits: Limits, depth: nat) returns (failure: Option<ErrorCode>)
      modifies this
      ensures Prints(failure, EncodeEntries(None, entries, limits, depth), old(data), data)
      decreases entries, 0
    {
      hide EncodeValue, EncodeItems, IsMapKey, StringLess, EncodeText;
      ghost var printed: Bytes := [];
      var prior: Option<string> := None;
      assert entries[0..] == entries;
      assert data == old(data) + printed;
      PrependNothing(EncodeEntries(None, entries, limits, depth));
      for index := 0 to |entries|
        invariant data == old(data) + printed
        invariant EncodeEntries(None, entries, limits, depth)
               == PrependBytes(printed, EncodeEntries(prior, entries[index..], limits, depth))
      {
        var entry := entries[index];
        assert entries[index..][0] == entry && entries[index..][1..] == entries[index + 1..];
        if !IsMapKey(entry.key) { return Some(InvalidMapKey); }
        if prior.Some? && !StringLess(prior.value, entry.key) { return Some(NoncanonicalMapOrder); }
        var stopped := AppendText(entry.key, limits);
        if stopped.Some? { return stopped; }
        stopped := AppendValue(entry.value, limits, depth);
        if stopped.Some? { return stopped; }
        ghost var name := EncodeText(entry.key, limits).value;
        ghost var head := EncodeValue(entry.value, limits, depth).value;
        prior := Some(entry.key);
        EntryPrinted(printed, name, head, EncodeEntries(prior, entries[index + 1..], limits, depth));
        printed := printed + (name + head);
      }
      assert entries[|entries|..] == [];
      assert printed + [] == printed;
      failure := None;
    }
  }

  /** What an appending operation must do, given what the function prints. */
  ghost predicate Prints(failure: Option<ErrorCode>, expected: Coded<Bytes>, before: Bytes, after: Bytes) {
    match expected
    case Ok(b) => failure == None && after == before + b
    case Err(e) => failure == Some(e)
  }

  lemma Regroup(before: Bytes, tag: byte, count: nat, body: Coded<Bytes>)
    ensures body.Ok? ==> (before + ([tag] + Big(count, 4))) + body.value == before + Headed(tag, count, body.value)
  {
  }

  lemma PrependNothing(tail: Coded<Bytes>)
    ensures PrependBytes([], tail) == tail
  {
    assert tail.Ok? ==> [] + tail.value == tail.value;
  }

  lemma PrependNone<T>(tail: Coded<Parsed<seq<T>>>)
    ensures Prepend([], tail) == tail
  {
    assert tail.Ok? ==> [] + tail.value.item == tail.value.item;
  }

  lemma PrependTwice(printed: Bytes, head: Bytes, tail: Coded<Bytes>)
    ensures PrependBytes(printed, PrependBytes(head, tail)) == PrependBytes(printed + head, tail)
  {
    assert tail.Ok? ==> printed + (head + tail.value) == (printed + head) + tail.value;
  }

  lemma EntryPrinted(printed: Bytes, name: Bytes, head: Bytes, tail: Coded<Bytes>)
    ensures tail.Ok? ==> printed + (name + (head + tail.value)) == (printed + (name + head)) + tail.value
  {
  }

  /** `encode`: payload first, then the header in front of it. */
  method EncodeEnvelope(envelope: Envelope, limits: Limits) returns (r: Coded<Bytes>)
    ensures r == Encode(envelope, limits)
  {
    hide EncodeValue, Big;
    var payload := new Output();
    var failure := payload.AppendValue(Map(envelope.fields), limits, 0);
    if failure.Some? { return Err(failure.value); }
    assert payload.data == EncodeValue(Map(envelope.fields), limits, 0).value;
    if |payload.data| >= TWO_32 { return Err(EnvelopeTooLarge); }
    var output := new Output();
    output.Append(MAGIC);
    output.Append([1, 0]);
    output.AppendBig(TypeCode(envelope.kind), 2);
    output.AppendBig(|payload.data|, 4);
    assert output.data == Header(envelope.kind, |payload.data|);
    output.Append(payload.data);
    if |output.data| > limits.envelopeBytes { return Err(EnvelopeTooLarge); }
    r := Ok(output.data);
  }
}
