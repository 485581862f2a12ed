/** What the real validator answers to a vote it has journalled already. */
module VoteReplay {
  import opened Base
  import opened Canonical
  import opened Identity
  import opened Protocol
  import opened ValidatorCore
  import C = Consensus
  import W = Wal
  import R = Runtime
  import Runs = RuntimeRuns

  function VoteInput(frame: Bytes): Bytes { Separated(HashDomain(VoteType), frame) }

  /** The strings hashed to identify these vote frames. */
  function InputsOf(votes: set<Bytes>): set<Bytes> { set v | v in votes :: VoteInput(v) }

  lemma SameIdSameFrame(sha: Bytes -> Digest, votes: set<Bytes>, x: Bytes, y: Bytes)
    requires CollisionFree(sha, InputsOf(votes)) && x in votes && y in votes
    requires ContentId(sha, VoteType, x) == ContentId(sha, VoteType, y)
    ensures x == y
  {
    hide Separated, HashDomain, IdOf;
    assert VoteInput(x) in InputsOf(votes) && VoteInput(y) in InputsOf(votes);
    IdInjective(sha(VoteInput(x)), sha(VoteInput(y)));
    SeparatedInjective(HashDomain(VoteType), x, y);
  }

  lemma DistinctFrames(sha: Bytes -> Digest, votes: set<Bytes>)
    requires CollisionFree(sha, InputsOf(votes))
    ensures Runs.DistinctVoteIds(RealCore(sha), votes)
  {
    hide ContentId, InputsOf, CollisionFree;
    var core := RealCore(sha);
    forall x, y | x in votes && y in votes && core.voteId(x) == core.voteId(y) ensures x == y {
      SameIdSameFrame(sha, votes, x, y);
    }
  }

  /** Two frames that parse to one vote are equal. */
  lemma OneFramePerVote(x: Bytes, y: Bytes)
    requires ParseVote(x, DefaultLimits).Ok? && ParseVote(x, DefaultLimits) == ParseVote(y, DefaultLimits)
    ensures x == y
  {
    hide ParseVote, EncodeVote;
    var v := ParseVote(x, DefaultLimits).value;
    VoteRoundTrip(x, v, DefaultLimits);
    VoteRoundTrip(y, v, DefaultLimits);
  }

  lemma ParsedVoteIsChecked(frame: Bytes)
    requires ParseVote(frame, DefaultLimits).Ok?
    ensures C.CheckVote(ParseVote(frame, DefaultLimits).value).Ok?
  {
    hide ParseSlots, VoteOf, IsContentId;
  }

  /** For the real core, in every run: once a vote frame is durable, another frame of the same context and
      body is answered if and only if its bytes are the durable ones; otherwise it is refused. */
  lemma RepeatedVoteNeedsSameBytes(sha: Bytes -> Digest, initial: Bytes, actions: seq<Runs.Action>, i: nat, frame: Bytes)
    requires ParseRoundState(initial, DefaultLimits).Ok? && |actions| < TWO_64
    requires CollisionFree(sha, InputsOf(Runs.CastVotes(actions) + {frame}))
    requires var s := Runs.Run(RealCore(sha), sha, initial, actions);
             && s.memory.Some? && i < |s.durable| && s.durable[i].kind == W.Vote
             && ParseVote(frame, DefaultLimits).Ok? && ParseVote(s.durable[i].commandOrVote, DefaultLimits).Ok?
             && var v, w := ParseVote(frame, DefaultLimits).value, ParseVote(s.durable[i].commandOrVote, DefaultLimits).value;
                C.SameContext(v, w) && v.bodyHash == w.bodyHash
    ensures var s := Runs.Run(RealCore(sha), sha, initial, actions);
            var answer := R.PlanVote(RealCore(sha), s.memory.value, frame);
            && (answer.Ok? <==> frame == s.durable[i].commandOrVote)
            && (answer.Err? ==> answer.error == R.RuntimeFailed(W.RecoveryMismatch))
  {
    hide ParseVote, ParseRoundState, Runs.Run, R.PlanVote, Runs.CoreOk, Runs.CastVotes, Runs.DistinctVoteIds, CollisionFree, InputsOf;
    var core := RealCore(sha);
    var s := Runs.Run(core, sha, initial, actions);
    var known := s.durable[i].commandOrVote;
    RealCoreOk(sha);
    DistinctFrames(sha, Runs.CastVotes(actions) + {frame});
    ParsedVoteIsChecked(frame);
    Runs.RepeatedVoteNeedsDurableFrame(core, sha, initial, actions, i, frame);
    if Runs.IsDurableVote(s.durable, frame) { DurableContextIsUnique(sha, initial, actions, i, frame); }
  }

  /** Two durable frames of one context are one frame. */
  lemma DurableContextIsUnique(sha: Bytes -> Digest, initial: Bytes, actions: seq<Runs.Action>, i: nat, frame: Bytes)
    requires ParseRoundState(initial, DefaultLimits).Ok? && |actions| < TWO_64
    requires Runs.DistinctVoteIds(RealCore(sha), Runs.CastVotes(actions) + {frame})
    requires var s := Runs.Run(RealCore(sha), sha, initial, actions);
             && s.memory.Some? && i < |s.durable| && s.durable[i].kind == W.Vote && Runs.IsDurableVote(s.durable, frame)
             && ParseVote(frame, DefaultLimits).Ok? && ParseVote(s.durable[i].commandOrVote, DefaultLimits).Ok?
             && C.SameContext(ParseVote(frame, DefaultLimits).value, ParseVote(s.durable[i].commandOrVote, DefaultLimits).value)
    ensures frame == Runs.Run(RealCore(sha), sha, initial, actions).durable[i].commandOrVote
  {
    hide ParseVote, ParseRoundState, Runs.Run, Runs.CoreOk, Runs.CastVotes, Runs.DistinctVoteIds, C.SortedVotes, C.VoteKey, Runs.LogInv;
    var core := RealCore(sha);
    var s := Runs.Run(core, sha, initial, actions);
    RealCoreOk(sha);
    Runs.FewerVotes(core, Runs.CastVotes(actions), frame);
    Runs.RunKeepsInv(core, sha, initial, actions);
    Runs.UpMemory(core, sha, initial, s);
    var votes := s.memory.value.votes;
    var v, w := ParseVote(frame, DefaultLimits).value, ParseVote(s.durable[i].commandOrVote, DefaultLimits).value;
    assert v in votes && w in votes;
    OneVotePerContext(votes, v, w);
    OneFramePerVote(frame, s.durable[i].commandOrVote);
  }

  lemma OneVotePerContext(votes: seq<Vote>, v: Vote, w: Vote)
    requires C.SortedVotes(votes) && v in votes && w in votes && C.SameContext(v, w)
    ensures v == w
  {
    hide C.SortedVotes, C.VoteKey;
    C.KeysIdentifyContexts(v, w);
    var a :| 0 <= a < |votes| && votes[a] == v;
    var b :| 0 <= b < |votes| && votes[b] == w;
    C.SortedKeysDiffer(votes, a, b);
  }

  // ----- votes that encode ---------------------------------------------------

  const SHORT: nat := 1000

  predicate ShortText(s: string) { IsPrintable(s) && |s| <= SHORT }

  /** A valid vote with short names. */
  predicate ShortVote(v: Vote) {
    && ValidVoteIds(v) && v.durableSequence > 0
    && ShortText(v.contextId) && ShortText(v.kind) && ShortText(v.roundId) && ShortText(v.validatorId)
  }

  predicate ShortEntry(e: Entry) { IsMapKey(e.key) && |e.key| <= 32 && e.value.Text? && ShortText(e.value.text) }

  predicate Ordered(prior: Option<string>, entries: seq<Entry>)
    decreases |entries|
  {
    entries == [] || ((prior == None || StringLess(prior.value, entries[0].key)) && Ordered(Some(entries[0].key), entries[1..]))
  }

  lemma KeyIsPrintable(s: string)
    requires IsMapKey(s)
    ensures IsPrintable(s)
  {
  }

  lemma ShortEntryEncodes(e: Entry)
    requires ShortEntry(e)
    ensures EncodeText(e.key, DefaultLimits).Ok? && EncodeValue(e.value, DefaultLimits, 1).Ok?
    ensures |EncodeText(e.key, DefaultLimits).value| + |EncodeValue(e.value, DefaultLimits, 1).value| <= SHORT + 42
  {
    hide IsPrintable, IsMapKey;
    KeyIsPrintable(e.key);
  }

  lemma {:induction false} ShortEntriesEncode(prior: Option<string>, entries: seq<Entry>)
    requires Ordered(prior, entries) && forall i :: 0 <= i < |entries| ==> ShortEntry(entries[i])
    ensures var r := EncodeEntries(prior, entries, DefaultLimits, 1); r.Ok? && |r.value| <= (SHORT + 42) * |entries|
    decreases |entries|
  {
    hide EncodeText, EncodeValue, StringLess, IsMapKey, ShortText;
    if entries != [] {
      ShortEntryEncodes(entries[0]);
      forall i | 0 <= i < |entries[1..]| ensures ShortEntry(entries[1..][i]) { assert entries[1..][i] == entries[i + 1]; }
      ShortEntriesEncode(Some(entries[0].key), entries[1..]);
    }
  }

  lemma ShortEnvelopeEncodes(kind: Type, entries: seq<Entry>)
    requires Ordered(None, entries) && |entries| <= 20 && forall i :: 0 <= i < |entries| ==> ShortEntry(entries[i])
    ensures Encode(Envelope(kind, entries), DefaultLimits).Ok?
  {
    hide EncodeEntries, ShortEntry, Ordered, Big, Header;
    ShortEntriesEncode(None, entries);
    MapEncodes(entries);
  }

  lemma MapEncodes(entries: seq<Entry>)
    requires |entries| <= 20 && EncodeEntries(None, entries, DefaultLimits, 1).Ok?
    ensures var r := EncodeValue(Map(entries), DefaultLimits, 0);
            r.Ok? && |r.value| == 5 + |EncodeEntries(None, entries, DefaultLimits, 1).value|
  {
    hide EncodeEntries;
  }

  lemma {:induction false} LessAt(a: seq<int>, b: seq<int>, k: nat)
    requires k < |a| && k < |b| && a[..k] == b[..k] && a[k] < b[k]
    ensures Less(a, b)
  {
    if k > 0 {
      assert a[0] == a[..k][0] == b[..k][0] == b[0];
      assert a[1..][..k - 1] == a[..k][1..] && b[1..][..k - 1] == b[..k][1..];
      LessAt(a[1..], b[1..], k - 1);
    }
  }

  lemma KeyLess(a: string, b: string, k: nat)
    requires k < |a| && k < |b| && a[..k] == b[..k] && a[k] < b[k]
    ensures StringLess(a, b)
  {
    assert forall i :: 0 <= i < k ==> a[i] == a[..k][i] && b[i] == b[..k][i];
    assert Codes(a)[..k] == Codes(b)[..k];
    LessAt(Codes(a), Codes(b), k);
  }

  lemma SchemaOrdered()
    ensures forall i :: 0 < i < |VoteSchema| ==> StringLess(VoteSchema[i - 1].name, VoteSchema[i].name)
  {
    hide StringLess;
    KeyLess("body_hash", "context_id", 0);
    KeyLess("context_id", "durable_sequence", 0);
    KeyLess("durable_sequence", "formal_semantics_id", 0);
    KeyLess("formal_semantics_id", "height", 0);
    KeyLess("height", "kind", 0);
    KeyLess("kind", "round_id", 0);
    KeyLess("round_id", "schema_version", 0);
    assert "schema_version"[..1] == "signature_id"[..1];
    KeyLess("schema_version", "signature_id", 1);
    KeyLess("signature_id", "type_name", 0);
    KeyLess("type_name", "validator_epoch_id", 0);
    assert "validator_epoch_id"[..10] == "validator_id"[..10];
    KeyLess("validator_epoch_id", "validator_id", 10);
    assert "validator_id"[..1] == "view"[..1];
    KeyLess("validator_id", "view", 1);
  }

  lemma FirstKeys()
    ensures IsMapKey("body_hash") && IsMapKey("context_id") && IsMapKey("durable_sequence") && IsMapKey("formal_semantics_id")
  {
  }

  lemma MiddleKeys()
    ensures IsMapKey("height") && IsMapKey("kind") && IsMapKey("round_id") && IsMapKey("schema_version") && IsMapKey("signature_id")
  {
  }

  lemma LastKeys()
    ensures IsMapKey("type_name") && IsMapKey("validator_epoch_id") && IsMapKey("validator_id") && IsMapKey("view")
  {
  }

  lemma SchemaKeys()
    ensures forall i :: 0 <= i < |VoteSchema| ==> IsMapKey(VoteSchema[i].name) && |VoteSchema[i].name| <= 32
  {
    hide IsMapKey;
    FirstKeys();
    MiddleKeys();
    LastKeys();
  }

  lemma {:induction false} OrderedFrom(schema: seq<Field>, entries: seq<Entry>, k: nat)
    requires |entries| == |schema| && k <= |schema|
    requires forall i :: 0 <= i < |schema| ==> entries[i].key == schema[i].name
    requires forall i :: 0 < i < |schema| ==> StringLess(schema[i - 1].name, schema[i].name)
    ensures Ordered(if k == 0 then None else Some(schema[k - 1].name), entries[k..])
    decreases |schema| - k
  {
    hide StringLess;
    if k < |schema| {
      assert entries[k..][0] == entries[k] && entries[k..][1..] == entries[k + 1..];
      OrderedFrom(schema, entries, k + 1);
    }
  }

  lemma ContentIdIsShort(s: string)
    requires IsContentId(s)
    ensures ShortText(s)
  {
    forall i | 0 <= i < |s| ensures 0x20 <= s[i] as int <= 0x7e {
      if i < 7 { assert s[..7][i] == PREFIX[i]; }
    }
  }

  lemma DecimalIsShort(n: u64)
    ensures ShortText(Decimal(n))
  {
    WordDecimalLength(n);
    var d := Decimal(n);
    assert forall i :: 0 <= i < |d| ==> IsDigit(d[i]);
  }

  lemma PrintableConcat(a: string, b: string)
    requires IsPrintable(a) && IsPrintable(b)
    ensures IsPrintable(a + b)
  {
  }

  lemma FormalIsShort()
    ensures ShortText(FORMAL_SEMANTICS_ID)
  {
    PrintableConcat("265cb76682ca15a936e24660", "a651e2b8f81638abb3265cb6");
    PrintableConcat("sha256:cc98f15ac20fc3ed", "265cb76682ca15a936e24660" + "a651e2b8f81638abb3265cb6");
  }

  lemma ConstantsAreShort()
    ensures ShortText(SCHEMA_VERSION) && ShortText("VOTE")
  {
  }

  lemma VoteFieldsShort(v: Vote)
    requires ShortVote(v)
    ensures var fields := PrintFields(VoteSchema, VoteSlots(v)); forall i :: 0 <= i < |fields| ==> ShortEntry(fields[i])
  {
    hide ShortText, IsContentId, IsMapKey;
    SchemaKeys();
    ContentIdIsShort(v.bodyHash);
    ContentIdIsShort(v.signatureId);
    ContentIdIsShort(v.validatorEpochId);
    DecimalIsShort(v.durableSequence);
    DecimalIsShort(v.height);
    DecimalIsShort(v.view);
    ConstantsAreShort();
    FormalIsShort();
  }

  /** Every valid vote with short names has a frame. */
  lemma ShortVoteEncodes(v: Vote)
    requires ShortVote(v)
    ensures EncodeVote(v, DefaultLimits).Ok?
  {
    hide ShortEntry, Encode, ParseVote, StringLess, Ordered;
    var fields := PrintFields(VoteSchema, VoteSlots(v));
    VoteFieldsShort(v);
    SchemaOrdered();
    OrderedFrom(VoteSchema, fields, 0);
    assert fields[0..] == fields;
    ShortEnvelopeEncodes(VoteType, fields);
    SlotsParse(v, EncodeSlots(VoteSlots(v), VoteType, VoteSchema, DefaultLimits).value);
  }

  lemma SlotsParse(v: Vote, b: Bytes)
    requires EncodeSlots(VoteSlots(v), VoteType, VoteSchema, DefaultLimits) == Ok(b) && ValidVoteIds(v) && v.durableSequence > 0
    ensures ParseVote(b, DefaultLimits) == Ok(v)
  {
    hide EncodeSlots, ParseSlots, IsContentId;
    assert FitsAll(VoteSchema, VoteSlots(v));
    SlotsExact(b, VoteSlots(v), VoteType, VoteSchema, DefaultLimits);
    SameSlots(VoteOf(VoteSlots(v)), v);
  }

  lemma SameSlots(v: Vote, w: Vote)
    requires VoteSlots(v) == VoteSlots(w)
    ensures v == w
  {
    var s, t := VoteSlots(v), VoteSlots(w);
    assert s[0] == t[0] && s[1] == t[1] && s[2] == t[2] && s[4] == t[4] && s[5] == t[5] && s[6] == t[6];
    assert s[8] == t[8] && s[10] == t[10] && s[11] == t[11] && s[12] == t[12];
  }

  // ----- the refused run -----------------------------------------------------

  function FrameOf(v: Vote): Bytes
    requires ShortVote(v)
  {
    ShortVoteEncodes(v);
    EncodeVote(v, DefaultLimits).value
  }

  lemma FrameParses(v: Vote)
    requires ShortVote(v)
    ensures ParseVote(FrameOf(v), DefaultLimits) == Ok(v)
  {
    hide ParseVote, EncodeVote, ShortVote;
    ShortVoteEncodes(v);
    VoteRoundTrip(FrameOf(v), v, DefaultLimits);
  }

  lemma FirstVoteIsDurable(sha: Bytes -> Digest, initial: Bytes, v: Vote)
    requires ShortVote(v)
    ensures var s := Runs.Run(RealCore(sha), sha, initial, [Runs.DoVote(FrameOf(v), R.NoCrash)]);
            s.memory.Some? && |s.durable| == 1 && s.durable[0].kind == W.Vote && s.durable[0].commandOrVote == FrameOf(v)
  {
    hide ParseVote, ShortVote, FrameOf, Runs.Run, C.CheckVote;
    var frame := FrameOf(v);
    FrameParses(v);
    ParsedVoteIsChecked(frame);
    VoteSize(frame);
    Runs.FirstVoteIsDurable(RealCore(sha), sha, initial, frame);
  }

  /** The same vote under another durable sequence is refused after it was recorded. */
  lemma ReencodedVoteIsRefused(sha: Bytes -> Digest, initial: Bytes, v: Vote, n: u64)
    requires ParseRoundState(initial, DefaultLimits).Ok? && ShortVote(v) && n > 0 && n != v.durableSequence
    requires CollisionFree(sha, InputsOf({FrameOf(v), FrameOf(v.(durableSequence := n))}))
    ensures var s := Runs.Run(RealCore(sha), sha, initial, [Runs.DoVote(FrameOf(v), R.NoCrash)]);
            && s.memory.Some? && R.PlanVote(RealCore(sha), s.memory.value, FrameOf(v)).Ok?
            && R.PlanVote(RealCore(sha), s.memory.value, FrameOf(v.(durableSequence := n)))
               == Err(R.RuntimeFailed(W.RecoveryMismatch))
  {
    hide ParseVote, ParseRoundState, FrameOf, Runs.Run, R.PlanVote, CollisionFree, InputsOf;
    var again := v.(durableSequence := n);
    var f, g := FrameOf(v), FrameOf(again);
    var actions := [Runs.DoVote(f, R.NoCrash)];
    FirstVoteIsDurable(sha, initial, v);
    FrameParses(v);
    FrameParses(again);
    assert Runs.CastVotes(actions) == {f} by { OneCast(f); }
    assert {f} + {g} == {f, g} && {f} + {f} == {f};
    FewerCollisions(sha, f, g);
    RepeatedVoteNeedsSameBytes(sha, initial, actions, 0, f);
    RepeatedVoteNeedsSameBytes(sha, initial, actions, 0, g);
  }

  lemma OneCast(f: Bytes)
    ensures Runs.CastVotes([Runs.DoVote(f, R.NoCrash)]) == {f}
  {
    var actions := [Runs.DoVote(f, R.NoCrash)];
    assert actions[0].vote == f;
  }

  lemma FewerCollisions(sha: Bytes -> Digest, f: Bytes, g: Bytes)
    requires CollisionFree(sha, InputsOf({f, g}))
    ensures CollisionFree(sha, InputsOf({f}))
  {
    assert InputsOf({f}) <= InputsOf({f, g});
  }

  /** Such votes exist. */
  lemma ShortVoteExists()
    ensures exists v :: ShortVote(v)
  {
    hide IsContentId, IdOf;
    var zeros: Digest := seq(32, _ => 0);
    var id := IdOf(zeros);
    var v := Vote(id, "c", 1, 1, "k", "r", id, id, "v", 0);
    assert ShortText("c") && ShortText("k") && ShortText("r") && ShortText("v");
    assert ShortVote(v);
  }
}
