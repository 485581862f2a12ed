/** The real validator after a failed append, in every run, and a vote that is lost without a trace. */
module ValidatorFaults {
  import opened Base
  import opened Canonical
  import opened Identity
  import opened Protocol
  import opened ValidatorCore
  import opened VoteReplay
  import C = Consensus
  import W = Wal
  import F = WalFaults
  import R = Runtime
  import Runs = RuntimeRuns
  import opened RuntimeFaults

  function VotesOf(q: Request): set<Bytes> { if q.Ballot? then {q.vote} else {} }

  lemma BallotIsFresh(sha: Bytes -> Digest, initial: Bytes, actions: seq<Runs.Action>, m: R.Memory, q: Request)
    requires ParseRoundState(initial, DefaultLimits).Ok? && |actions| < TWO_64
    requires CollisionFree(sha, InputsOf(Runs.CastVotes(actions) + VotesOf(q)))
    requires Runs.Run(RealCore(sha), sha, initial, actions).memory == Some(m) && PlanOf(RealCore(sha), m, q).Some?
    ensures FreshBallot(RealCore(sha), m, q)
    ensures Runs.LogInv(RealCore(sha), sha, initial, Runs.Run(RealCore(sha), sha, initial, actions).disk, Some(m),
                        Runs.Run(RealCore(sha), sha, initial, actions).durable)
    ensures |Runs.Run(RealCore(sha), sha, initial, actions).durable| <= |actions|
  {
    hide ParseRoundState, ParseVote, Apply, Runs.Run, Runs.CoreOk, Runs.CastVotes, Runs.DistinctVoteIds, CollisionFree, InputsOf, Runs.LogInv,
      R.PlanVote, R.PlanSubmit, Runs.MemoryOk;
    var core := RealCore(sha);
    var s := Runs.Run(core, sha, initial, actions);
    RealCoreOk(sha);
    DistinctFrames(sha, Runs.CastVotes(actions) + VotesOf(q));
    FewerDistinct(core, Runs.CastVotes(actions), VotesOf(q));
    Runs.RunKeepsInv(core, sha, initial, actions);
    if q.Ballot? {
      Runs.UpMemory(core, sha, initial, s);
      Runs.FreshVoteId(core, m, s.durable, Runs.CastVotes(actions), q.vote);
    }
  }

  lemma FewerDistinct(core: R.Core, votes: set<Bytes>, more: set<Bytes>)
    requires Runs.DistinctVoteIds(core, votes + more)
    ensures Runs.DistinctVoteIds(core, votes)
  {
  }

  /** After any run of the real validator, an append that fails with a plain I/O error and leaves k bytes,
      then a successful request: the outcome of reopening, for every k. */
  lemma ValidatorAfterFailedAppend(sha: Bytes -> Digest, initial: Bytes, actions: seq<Runs.Action>, m: R.Memory,
                                   first: Request, second: Request, k: nat)
    requires ParseRoundState(initial, DefaultLimits).Ok? && |actions| + 1 < TWO_64
    requires CollisionFree(sha, InputsOf(Runs.CastVotes(actions) + VotesOf(second)))
    requires Runs.Run(RealCore(sha), sha, initial, actions).memory == Some(m)
    requires PlanOf(RealCore(sha), m, first).Some? && PlanOf(RealCore(sha), m, second).Some?
    requires k <= W.FrameSize(PlanOf(RealCore(sha), m, first).value.entry)
    ensures Outcomes(RealCore(sha), sha, initial, Runs.Run(RealCore(sha), sha, initial, actions).disk, m, first, second, k)
  {
    hide ParseRoundState, ParseVote, Apply, Runs.Run, Runs.CoreOk, CollisionFree, InputsOf, Runs.LogInv, PlanOf, Outcomes, FreshBallot;
    var core := RealCore(sha);
    var s := Runs.Run(core, sha, initial, actions);
    RealCoreOk(sha);
    BallotIsFresh(sha, initial, actions, m, second);
    AfterFailedAppend(core, sha, initial, s.disk, m, s.durable, first, second, k);
  }

  // ----- a lost vote -----------------------------------------------------------

  function TextSize(entries: seq<Entry>): nat {
    if entries == [] then 0
    else 10 + |entries[0].key| + (if entries[0].value.Text? then |entries[0].value.text| else 0) + TextSize(entries[1..])
  }

  lemma {:induction false} EntriesLength(prior: Option<string>, entries: seq<Entry>)
    requires EncodeEntries(prior, entries, DefaultLimits, 1).Ok? && forall i :: 0 <= i < |entries| ==> entries[i].value.Text?
    ensures |EncodeEntries(prior, entries, DefaultLimits, 1).value| == TextSize(entries)
    decreases |entries|
  {
    hide IsMapKey, StringLess, IsPrintable;
    if entries != [] {
      forall i | 0 <= i < |entries[1..]| ensures entries[1..][i].value.Text? { assert entries[1..][i] == entries[i + 1]; }
      EntriesLength(Some(entries[0].key), entries[1..]);
    }
  }

  lemma {:induction false} SizesDiffer(a: seq<Entry>, b: seq<Entry>, j: nat)
    requires j < |a| == |b| && (forall i :: 0 <= i < |a| && i != j ==> a[i] == b[i])
    requires a[j].key == b[j].key && a[j].value.Text? && b[j].value.Text?
    ensures TextSize(a) - |a[j].value.text| == TextSize(b) - |b[j].value.text|
    decreases j
  {
    if j == 0 {
      assert a[1..] == b[1..];
    } else {
      assert a[0] == b[0];
      SizesDiffer(a[1..], b[1..], j - 1);
    }
  }

  lemma VoteSizeIs(v: Vote)
    requires ShortVote(v)
    ensures |FrameOf(v)| == 17 + TextSize(PrintFields(VoteSchema, VoteSlots(v)))
  {
    hide ShortVote, ShortEntry, EncodeEntries, ParseVote, PrintFields, TextSize, Big, Header;
    ShortVoteEncodes(v);
    var fields := PrintFields(VoteSchema, VoteSlots(v));
    VoteFieldsShort(v);
    TextFields(v);
    EncodedSize(fields);
  }

  lemma TextFields(v: Vote)
    ensures var fields := PrintFields(VoteSchema, VoteSlots(v)); forall i :: 0 <= i < |fields| ==> fields[i].value.Text?
  {
  }

  lemma EncodedSize(fields: seq<Entry>)
    requires |fields| <= 20 && Encode(Envelope(VoteType, fields), DefaultLimits).Ok? && forall i :: 0 <= i < |fields| ==> fields[i].value.Text?
    ensures |Encode(Envelope(VoteType, fields), DefaultLimits).value| == 17 + TextSize(fields)
  {
    hide EncodeEntries, TextSize;
    MapIsEncoded(fields);
    EntriesLength(None, fields);
    MapEncodes(fields);
  }

  lemma MapIsEncoded(fields: seq<Entry>)
    requires EncodeValue(Map(fields), DefaultLimits, 0).Ok?
    ensures EncodeEntries(None, fields, DefaultLimits, 1).Ok?
  {
    hide EncodeEntries;
  }

  /** The same vote under a context name that is n characters longer. */
  function Longer(w: Vote, n: nat): Vote { w.(contextId := w.contextId + seq(n, _ => 'x')) }

  lemma LongerVote(w: Vote, n: nat)
    requires ShortVote(w) && |w.contextId| + n <= SHORT
    ensures ShortVote(Longer(w, n)) && |FrameOf(Longer(w, n))| == |FrameOf(w)| + n
  {
    hide IsContentId, TextSize, FrameOf, Decimal;
    var v := Longer(w, n);
    var a, b := PrintFields(VoteSchema, VoteSlots(v)), PrintFields(VoteSchema, VoteSlots(w));
    VoteSizeIs(v);
    VoteSizeIs(w);
    assert forall i :: 0 <= i < |a| && i != 1 ==> a[i] == b[i];
    SizesDiffer(a, b, 1);
  }

  /** A vote whose append fails after twelve bytes, then a shorter vote that is journalled and answered:
      reopening succeeds with an empty journal and does not know the answered vote. */
  lemma VoteIsSilentlyLost(sha: Bytes -> Digest, initial: Bytes, w: Vote)
    requires ParseRoundState(initial, DefaultLimits).Ok? && ShortVote(w) && |w.contextId| + 100 <= SHORT && ShortVote(Longer(w, 100))
    requires CollisionFree(sha, InputsOf({FrameOf(w)}))
    ensures var core, m, disk := RealCore(sha), R.Blank(initial), R.Disk([], None);
            var first, second := Ballot(FrameOf(Longer(w, 100))), Ballot(FrameOf(w));
            && PlanOf(core, m, first).Some? && PlanOf(core, m, second).Some?
            && var e, f := PlanOf(core, m, first).value.entry, PlanOf(core, m, second).value.entry;
               && W.Recordable(e) && W.Recordable(f) && 12 <= W.FrameSize(e)
               && R.Reopen(core, sha, initial, DiskAfter(sha, disk, e, f, 12, [])) == Ok(R.Reopened(m, disk))
               && !ServedAgain(core, m, second, m)
  {
    hide ParseRoundState, ParseVote, ShortVote, FrameOf, CollisionFree, InputsOf, PlanOf, DiskAfter, ServedAgain, Swallowed, R.Reopen,
      F.ReadsAt, W.Recordable, Longer;
    var core, m := RealCore(sha), R.Blank(initial);
    var first, second := Ballot(FrameOf(Longer(w, 100))), Ballot(FrameOf(w));
    LongerVote(w, 100);
    FirstPlan(sha, initial, Longer(w, 100));
    FirstPlan(sha, initial, w);
    assert Runs.CastVotes([]) + VotesOf(second) == {FrameOf(w)};
    ValidatorAfterFailedAppend(sha, initial, [], m, first, second, 12);
    var e, f := PlanOf(core, m, first).value.entry, PlanOf(core, m, second).value.entry;
    SwallowedMeans(sha, e, f, 12, []);
  }

  lemma FirstPlan(sha: Bytes -> Digest, initial: Bytes, v: Vote)
    requires ShortVote(v)
    ensures var p := PlanOf(RealCore(sha), R.Blank(initial), Ballot(FrameOf(v)));
            p.Some? && W.FrameSize(p.value.entry) == W.MINIMUM_FRAME_SIZE + |FrameOf(v)|
  {
    hide ParseVote, ShortVote, FrameOf, C.CheckVote, R.PlanVote;
    FrameParses(v);
    ParsedVoteIsChecked(FrameOf(v));
    Runs.FirstVoteIsPlanned(RealCore(sha), initial, FrameOf(v));
  }
}
