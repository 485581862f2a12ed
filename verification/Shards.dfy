/** The shard planner: an exact partition of the parameter vector. */
module Shards {
  import opened Base
  import opened Arithmetic

  datatype ShardError = PayloadSizeInvalid | InvalidSegment | GapOrOverlap | ShardCountLimit

  const MAX_PAYLOAD: nat := 1_048_576
  const MAX_SEGMENTS: nat := 65_536
  const MAX_SHARDS: nat := 4_096
  const MAX_ELEMENTS: nat := 1_073_741_824

  datatype Segment = Segment(id: string, ordinal: u32, start: u64, count: u64)

  datatype Entry = Entry(ordinal: u32, segmentId: string, offset: u64, start: u64, count: u32, payloadBytes: u32)

  /** `is_ascii_token`. */
  predicate IsToken(s: string) {
    0 < |s| <= 255 && forall i :: 0 <= i < |s| ==> IsTokenChar(s[i])
  }

  predicate IsTokenChar(c: char) {
    ('0' <= c <= '9') || ('a' <= c <= 'z') || ('A' <= c <= 'Z') || c in {'.', '_', '/', '-'}
  }

  function Elements(segments: seq<Segment>): nat {
    if segments == [] then 0 else Elements(segments[..|segments| - 1]) + segments[|segments| - 1].count
  }

  /** Segment k starts where the segments before it end. */
  predicate SegmentOk(segments: seq<Segment>, k: nat)
    requires k < |segments|
  {
    && IsToken(segments[k].id) && segments[k].ordinal == k && segments[k].count > 0
    && segments[k].start == Elements(segments[..k])
    && segments[k].count <= MAX_ELEMENTS - Elements(segments[..k])
  }

  predicate Canonical(segments: seq<Segment>) {
    forall k :: 0 <= k < |segments| ==> SegmentOk(segments, k)
  }

  predicate TargetOk(target: u32) { 2 <= target <= MAX_PAYLOAD && target % 2 == 0 }

  function Ceiling(n: nat, per: nat): nat
    requires per > 0
  {
    (n + per - 1) / per
  }

  /** How many shards an exact partition of full shards needs. */
  function Needed(segments: seq<Segment>, per: nat): nat
    requires per > 0
  {
    if segments == [] then 0
    else Needed(segments[..|segments| - 1], per) + Ceiling(segments[|segments| - 1].count, per)
  }

  // ----- what a plan promises ----------------------------------------------

  function End(entries: seq<Entry>): int { if entries == [] then 0 else entries[|entries| - 1].start + entries[|entries| - 1].count }

  /** No gap and no overlap, from zero, numbered in order, two bytes an element. */
  predicate Tiles(entries: seq<Entry>) {
    && (forall i :: 0 <= i < |entries| ==>
          entries[i].ordinal == i && entries[i].count > 0 && entries[i].payloadBytes == 2 * entries[i].count)
    && (forall i :: 0 <= i < |entries| ==> entries[i].start == End(entries[..i]))
  }

  /** The shard lies in the segment and is full unless it ends it. */
  predicate Within(e: Entry, s: Segment, per: nat) {
    && e.segmentId == s.id && e.start == s.start + e.offset && e.offset + e.count <= s.count
    && (e.count == per || (e.count < per && e.offset + e.count == s.count))
  }

  predicate AllWithin(entries: seq<Entry>, segments: seq<Segment>, per: nat) {
    forall i :: 0 <= i < |entries| ==> Placed(entries[i], segments, per)
  }

  predicate Placed(e: Entry, segments: seq<Segment>, per: nat) {
    exists k :: 0 <= k < |segments| && Within(e, segments[k], per)
  }

  predicate ExactPartition(entries: seq<Entry>, segments: seq<Segment>, per: nat)
    requires per > 0
  {
    && Tiles(entries) && End(entries) == Elements(segments) && AllWithin(entries, segments, per)
    && |entries| == Needed(segments, per)
  }

  // ----- arithmetic of full shards -----------------------------------------

  /** After k full shards either the segment goes on or its last shard is in. */
  predicate Cut(offset: nat, count: nat, per: nat, k: nat) {
    (offset == k * per && offset <= count) || (offset == count && k > 0 && (k - 1) * per < count <= k * per)
  }

  lemma CutStep(offset: nat, count: nat, per: nat, k: nat)
    requires per > 0 && Cut(offset, count, per, k) && offset < count
    ensures var piece := if per <= count - offset then per else count - offset;
            Cut(offset + piece, count, per, k + 1) && Ceiling(count, per) >= k + 1
  {
    assert (k + 1) * per == k * per + per;
    assert count + per - 1 >= (k + 1) * per;
    AtLeast(count + per - 1, per, k + 1);
  }

  lemma AtLeast(n: nat, d: nat, q: nat)
    requires d > 0 && n >= q * d
    ensures n / d >= q
  {
    var q', r := n / d, n % d;
    assert n == q' * d + r;
    if q' < q { Spread(d, q', q); }
  }

  lemma CutEnd(count: nat, per: nat, k: nat)
    requires per > 0 && count > 0 && Cut(count, count, per, k)
    ensures Ceiling(count, per) == k
  {
    assert k > 0;
    assert k * per == (k - 1) * per + per;
    QuotientIs(count + per - 1, per, k, count - 1 - (k - 1) * per);
  }

  lemma {:induction false} NeededGrows(segments: seq<Segment>, per: nat, k: nat)
    requires per > 0 && k <= |segments|
    ensures Needed(segments[..k], per) <= Needed(segments, per)
    decreases |segments|
  {
    if k == |segments| {
      assert segments[..k] == segments;
    } else {
      assert segments[..|segments| - 1][..k] == segments[..k];
      NeededGrows(segments[..|segments| - 1], per, k);
    }
  }

  lemma NextSegment(segments: seq<Segment>, per: nat, k: nat)
    requires per > 0 && k < |segments|
    ensures Needed(segments[..k + 1], per) == Needed(segments[..k], per) + Ceiling(segments[k].count, per)
    ensures Elements(segments[..k + 1]) == Elements(segments[..k]) + segments[k].count
  {
    assert segments[..k + 1][..k] == segments[..k];
  }

  lemma Appended(entries: seq<Entry>, segments: seq<Segment>, upto: nat, per: nat, e: Entry)
    requires Tiles(entries) && upto < |segments| && AllWithin(entries, segments[..upto + 1], per)
    requires e.ordinal == |entries| && e.count > 0 && e.payloadBytes == 2 * e.count && e.start == End(entries)
    requires Within(e, segments[upto], per)
    ensures Tiles(entries + [e]) && End(entries + [e]) == e.start + e.count && AllWithin(entries + [e], segments[..upto + 1], per)
  {
    hide Within, End;
    var more := entries + [e];
    assert End(more) == e.start + e.count by { LastEnds(entries, e); }
    forall i | 0 <= i < |more| ensures more[i].start == End(more[..i]) {
      if i < |entries| { assert more[..i] == entries[..i]; } else { assert more[..i] == entries; }
    }
    var table := segments[..upto + 1];
    forall i | 0 <= i < |more| ensures Placed(more[i], table, per) {
      if i < |entries| {
        assert more[i] == entries[i];
      } else {
        assert table[upto] == segments[upto];
        assert Within(more[i], table[upto], per);
      }
    }
  }

  lemma LastEnds(entries: seq<Entry>, e: Entry)
    ensures End(entries + [e]) == e.start + e.count
  {
  }

  lemma WiderTable(entries: seq<Entry>, segments: seq<Segment>, per: nat, k: nat)
    requires k < |segments| && AllWithin(entries, segments[..k], per)
    ensures AllWithin(entries, segments[..k + 1], per)
  {
    hide Within;
    var table, wider := segments[..k], segments[..k + 1];
    forall i | 0 <= i < |entries| ensures Placed(entries[i], wider, per) {
      assert Placed(entries[i], table, per);
      var j :| 0 <= j < |table| && Within(entries[i], table[j], per);
      assert wider[j] == table[j];
    }
  }

  // ----- the planner -------------------------------------------------------

  /** The shards of one segment, appended to the plan; the inner loop. */
  method CutSegment(segments: seq<Segment>, k: nat, per: nat, entries: seq<Entry>) returns (r: Result<seq<Entry>, ShardError>)
    requires 0 < per <= MAX_PAYLOAD / 2 && k < |segments| && SegmentOk(segments, k) && |entries| <= MAX_SHARDS
    requires Tiles(entries) && End(entries) == Elements(segments[..k]) && AllWithin(entries, segments[..k], per)
    ensures r.Ok? <==> |entries| + Ceiling(segments[k].count, per) <= MAX_SHARDS
    ensures r.Ok? ==>
              && Tiles(r.value) && End(r.value) == Elements(segments[..k + 1]) && AllWithin(r.value, segments[..k + 1], per)
              && |r.value| == |entries| + Ceiling(segments[k].count, per)
  {
    hide Tiles, AllWithin, End, Elements, Cut, Ceiling, IsToken;
    var segment := segments[k];
    var result, offset := entries, 0;
    ghost var cuts := 0;
    WiderTable(entries, segments, per, k);
    CutStart(segment.count, per);
    while offset < segment.count
      invariant offset >= 0 && cuts >= 0 && Cut(offset, segment.count, per, cuts) && offset <= segment.count
      invariant |result| == |entries| + cuts <= MAX_SHARDS && Tiles(result) && AllWithin(result, segments[..k + 1], per)
      invariant End(result) == segment.start + offset
      decreases segment.count - offset
    {
      CutStep(offset, segment.count, per, cuts);
      if |result| >= MAX_SHARDS { return Err(ShardCountLimit); }
      var count := if per <= segment.count - offset then per else segment.count - offset;
      var e := Entry(|result|, segment.id, offset, segment.start + offset, count, 2 * count);
      Appended(result, segments, k, per, e);
      result := result + [e];
      offset := offset + count;
      cuts := cuts + 1;
    }
    CutEnd(segment.count, per, cuts);
    NextSegment(segments, per, k);
    r := Ok(result);
  }

  lemma CutStart(count: nat, per: nat)
    ensures Cut(0, count, per, 0)
  {
  }

  /** `plan_shards` succeeds exactly on a canonical table within the limits, and then partitions it. */
  method PlanShards(segments: seq<Segment>, target: u32) returns (r: Result<seq<Entry>, ShardError>)
    ensures r.Ok? <==>
              && TargetOk(target) && 0 < |segments| <= MAX_SEGMENTS && Canonical(segments)
              && Needed(segments, target / 2) <= MAX_SHARDS
    ensures r.Ok? ==> ExactPartition(r.value, segments, target / 2)
  {
    hide Tiles, AllWithin, End, Elements, Ceiling, SegmentOk, Needed;
    if !TargetOk(target) { return Err(PayloadSizeInvalid); }
    if !(0 < |segments| <= MAX_SEGMENTS) { return Err(InvalidSegment); }
    var per := target / 2;
    var result: seq<Entry> := [];
    var cursor := 0;
    EmptyPlan(segments, per);
    for k := 0 to |segments|
      invariant cursor == Elements(segments[..k]) && (forall j :: 0 <= j < k ==> SegmentOk(segments, j))
      invariant |result| == Needed(segments[..k], per) <= MAX_SHARDS
      invariant Tiles(result) && End(result) == cursor && AllWithin(result, segments[..k], per)
    {
      var segment := segments[k];
      if !(IsToken(segment.id) && segment.ordinal == k && segment.count > 0 && segment.start == cursor
           && segment.count <= MAX_ELEMENTS - cursor) {
        BadSegment(segments, k);
        return Err(GapOrOverlap);
      }
      GoodSegment(segments, k);
      NextSegment(segments, per, k);
      NeededGrows(segments, per, k + 1);
      var next := CutSegment(segments, k, per, result);
      if next.Err? { return Err(next.error); }
      result := next.value;
      cursor := cursor + segment.count;
    }
    assert segments[..|segments|] == segments;
    r := Ok(result);
  }

  lemma EmptyPlan(segments: seq<Segment>, per: nat)
    requires per > 0
    ensures segments[..0] == [] && Elements(segments[..0]) == 0 && Needed(segments[..0], per) == 0
    ensures Tiles([]) && End([]) == 0 && AllWithin([], segments[..0], per)
  {
  }

  lemma GoodSegment(segments: seq<Segment>, k: nat)
    requires k < |segments|
    requires IsToken(segments[k].id) && segments[k].ordinal == k && segments[k].count > 0
    requires segments[k].start == Elements(segments[..k]) && segments[k].count <= MAX_ELEMENTS - Elements(segments[..k])
    ensures SegmentOk(segments, k)
  {
  }

  lemma BadSegment(segments: seq<Segment>, k: nat)
    requires k < |segments|
    requires !(IsToken(segments[k].id) && segments[k].ordinal == k && segments[k].count > 0
               && segments[k].start == Elements(segments[..k]) && segments[k].count <= MAX_ELEMENTS - Elements(segments[..k]))
    ensures !SegmentOk(segments, k)
  {
  }

  // ----- every element is in exactly one shard ------------------------------

  predicate Holds(e: Entry, x: int) { e.start <= x < e.start + e.count }

  predicate OnlyHolder(entries: seq<Entry>, i: nat, x: int) {
    i < |entries| && Holds(entries[i], x) && forall j :: 0 <= j < |entries| && Holds(entries[j], x) ==> j == i
  }

  lemma {:induction false} TilesCover(entries: seq<Entry>, x: int)
    requires Tiles(entries) && 0 <= x < End(entries)
    ensures exists i :: 0 <= i < |entries| && Holds(entries[i], x)
    decreases |entries|
  {
    var n := |entries| - 1;
    if x < entries[n].start {
      assert entries[..n][..n] == entries[..n];
      assert forall i :: 0 <= i < n ==> entries[..n][..i] == entries[..i];
      TilesCover(entries[..n], x);
      var i :| 0 <= i < n && Holds(entries[..n][i], x);
      assert Holds(entries[i], x);
    } else {
      assert Holds(entries[n], x);
    }
  }

  lemma {:induction false} TilesClimb(entries: seq<Entry>, i: nat, j: nat)
    requires Tiles(entries) && i < j < |entries|
    ensures entries[i].start + entries[i].count <= entries[j].start
    decreases j
  {
    assert entries[..j][|entries[..j]| - 1] == entries[j - 1];
    if i + 1 < j { TilesClimb(entries, i, j - 1); }
  }

  /** Every element of the parameter vector is in exactly one shard of the plan. */
  lemma ExactlyOneShard(entries: seq<Entry>, segments: seq<Segment>, per: nat, x: int)
    requires per > 0 && ExactPartition(entries, segments, per) && 0 <= x < Elements(segments)
    ensures exists i :: 0 <= i < |entries| && OnlyHolder(entries, i, x)
  {
    hide AllWithin, End;
    TilesCover(entries, x);
    var i :| 0 <= i < |entries| && Holds(entries[i], x);
    forall j | 0 <= j < |entries| && Holds(entries[j], x) ensures j == i {
      if i < j { TilesClimb(entries, i, j); } else if j < i { TilesClimb(entries, j, i); }
    }
    assert OnlyHolder(entries, i, x);
  }
}
