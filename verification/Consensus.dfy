/** The durable vote journal, quorum validation and what they guarantee together. */
module Consensus {
  import opened Base
  import opened Identity
  import opened Protocol

  datatype Code =
    | ValidatorSetInvalid | QuorumPolicyMismatch | UnknownSigner | SignerSetInvalid
    | ConflictingVote | VoteInvalid | ConsensusIdentifierInvalid

  datatype Disposition = Recorded | Replay

  // ----- vote keys ---------------------------------------------------------

  type Key = seq<seq<int>>

  /** `vote_key`: the seven components `std::tie` compares, each as a number sequence. */
  function VoteKey(v: Vote): Key {
    [Codes(v.validatorId), Codes(v.validatorEpochId), Codes(v.kind), Codes(v.roundId),
     [v.height], [v.view], Codes(v.contextId)]
  }

  predicate KeyLess(a: Key, b: Key) {
    b != [] && (a == [] || Less(a[0], b[0]) || (a[0] == b[0] && KeyLess(a[1..], b[1..])))
  }

  lemma {:induction false} KeyLessIrreflexive(a: Key)
    ensures !KeyLess(a, a)
  {
    if a != [] {
      LessIrreflexive(a[0]);
      KeyLessIrreflexive(a[1..]);
    }
  }

  lemma {:induction false} KeyLessTransitive(a: Key, b: Key, c: Key)
    requires KeyLess(a, b) && KeyLess(b, c)
    ensures KeyLess(a, c)
  {
    hide Less;
    if a != [] {
      LessIrreflexive(b[0]);
      if a[0] == b[0] && b[0] == c[0] {
        KeyLessTransitive(a[1..], b[1..], c[1..]);
      } else if a[0] != b[0] && b[0] != c[0] {
        LessTransitive(a[0], b[0], c[0]);
      }
    }
  }

  lemma {:induction false} KeyLessTotal(a: Key, b: Key)
    ensures KeyLess(a, b) || a == b || KeyLess(b, a)
  {
    hide Less;
    if a != [] && b != [] {
      LessTotal(a[0], b[0]);
      if a[0] == b[0] {
        KeyLessTotal(a[1..], b[1..]);
        assert a == [a[0]] + a[1..] && b == [b[0]] + b[1..];
      }
    }
  }

  /** Equal keys mean equal validator, epoch, kind, round, height, view and context. */
  predicate SameContext(a: Vote, b: Vote) {
    && a.validatorId == b.validatorId && a.validatorEpochId == b.validatorEpochId && a.kind == b.kind
    && a.roundId == b.roundId && a.height == b.height && a.view == b.view && a.contextId == b.contextId
  }

  lemma KeysIdentifyContexts(a: Vote, b: Vote)
    ensures VoteKey(a) == VoteKey(b) <==> SameContext(a, b)
  {
    if VoteKey(a) == VoteKey(b) {
      assert VoteKey(a)[0] == VoteKey(b)[0] && VoteKey(a)[1] == VoteKey(b)[1] && VoteKey(a)[2] == VoteKey(b)[2];
      assert VoteKey(a)[3] == VoteKey(b)[3] && VoteKey(a)[6] == VoteKey(b)[6];
      assert [a.height] == [b.height] by { assert VoteKey(a)[4] == VoteKey(b)[4]; }
      assert [a.view] == [b.view] by { assert VoteKey(a)[5] == VoteKey(b)[5]; }
      assert [a.height][0] == [b.height][0] && [a.view][0] == [b.view][0];
      CodesInjective(a.validatorId, b.validatorId);
      CodesInjective(a.validatorEpochId, b.validatorEpochId);
      CodesInjective(a.kind, b.kind);
      CodesInjective(a.roundId, b.roundId);
      CodesInjective(a.contextId, b.contextId);
    }
  }

  // ----- the journal -------------------------------------------------------

  predicate SortedVotes(votes: seq<Vote>) {
    forall i, j :: 0 <= i < j < |votes| ==> KeyLess(VoteKey(votes[i]), VoteKey(votes[j]))
  }

  /** `std::lower_bound`: the number of leading votes with a smaller key. */
  function LowerBound(votes: seq<Vote>, key: Key): (n: nat)
    ensures n <= |votes|
    ensures n < |votes| ==> !KeyLess(VoteKey(votes[n]), key)
    ensures forall i :: 0 <= i < n ==> KeyLess(VoteKey(votes[i]), key)
  {
    if votes == [] || !KeyLess(VoteKey(votes[0]), key) then 0 else 1 + LowerBound(votes[1..], key)
  }

  function CheckVote(v: Vote): Result<(), Code> {
    var _ :- Require(ValidVoteIds(v), ConsensusIdentifierInvalid);
    Require(v.durableSequence > 0, VoteInvalid)
  }

  datatype Outcome = Outcome(disposition: Disposition, votes: seq<Vote>)

  /** `VoteJournal::record` as a function of the sorted vector. */
  function Record(votes: seq<Vote>, v: Vote): Result<Outcome, Code> {
    var _ :- CheckVote(v);
    var at := LowerBound(votes, VoteKey(v));
    if at < |votes| && VoteKey(votes[at]) == VoteKey(v) then
      var _ :- Require(votes[at].bodyHash == v.bodyHash, ConflictingVote);
      Ok(Outcome(Replay, votes))
    else Ok(Outcome(Recorded, votes[..at] + [v] + votes[at..]))
  }

  ghost predicate HasKey(votes: seq<Vote>, key: Key) {
    exists i :: 0 <= i < |votes| && VoteKey(votes[i]) == key
  }

  /** The three outcomes are decided by whether the key is present and with which body. */
  lemma RecordDecides(votes: seq<Vote>, v: Vote)
    requires SortedVotes(votes) && CheckVote(v).Ok?
    ensures !HasKey(votes, VoteKey(v)) <==> Record(votes, v).Ok? && Record(votes, v).value.disposition == Recorded
    ensures forall i :: 0 <= i < |votes| && VoteKey(votes[i]) == VoteKey(v) ==>
      Record(votes, v) == if votes[i].bodyHash == v.bodyHash then Ok(Outcome(Replay, votes)) else Err(ConflictingVote)
  {
    hide VoteKey, KeyLess, CheckVote;
    var key := VoteKey(v);
    var at := LowerBound(votes, key);
    KeyLessIrreflexive(key);
  }

  lemma SortedKeysDiffer(votes: seq<Vote>, i: nat, j: nat)
    requires SortedVotes(votes) && i < |votes| && j < |votes| && VoteKey(votes[i]) == VoteKey(votes[j])
    ensures i == j
  {
    hide VoteKey, KeyLess;
    KeyLessIrreflexive(VoteKey(votes[i]));
  }

  lemma InsertKeepsSorted(votes: seq<Vote>, v: Vote, at: nat)
    requires SortedVotes(votes) && at <= |votes|
    requires forall i :: 0 <= i < at ==> KeyLess(VoteKey(votes[i]), VoteKey(v))
    requires at < |votes| ==> KeyLess(VoteKey(v), VoteKey(votes[at]))
    ensures SortedVotes(votes[..at] + [v] + votes[at..])
  {
    hide VoteKey, KeyLess;
    forall k | at <= k < |votes| ensures KeyLess(VoteKey(v), VoteKey(votes[k])) {
      if at < k { KeyLessTransitive(VoteKey(v), VoteKey(votes[at]), VoteKey(votes[k])); }
    }
    var next := votes[..at] + [v] + votes[at..];
    assert |next| == |votes| + 1;
    assert forall i :: 0 <= i < |next| ==> next[i] == if i < at then votes[i] else if i == at then v else votes[i - 1];
  }

  lemma RecordKeepsSorted(votes: seq<Vote>, v: Vote)
    requires SortedVotes(votes) && Record(votes, v).Ok?
    ensures SortedVotes(Record(votes, v).value.votes)
    ensures forall x :: x in Record(votes, v).value.votes <==>
              x in votes || (x == v && Record(votes, v).value.disposition == Recorded)
  {
    hide VoteKey, KeyLess, CheckVote, SortedVotes;
    var at := LowerBound(votes, VoteKey(v));
    if Record(votes, v).value.disposition == Recorded {
      if at < |votes| { KeyLessTotal(VoteKey(votes[at]), VoteKey(v)); }
      InsertKeepsSorted(votes, v, at);
      assert votes == votes[..at] + votes[at..];
    }
  }

  class VoteJournal {
    var votes: seq<Vote>

    ghost predicate Valid()
      reads this
    {
      SortedVotes(votes)
    }

    constructor ()
      ensures Valid() && votes == []
    {
      votes := [];
    }

    /** Rejections leave the journal as it was. */
    method RecordVote(v: Vote) returns (r: Result<Disposition, Code>)
      requires Valid()
      modifies this
      ensures Valid()
      ensures match Record(old(votes), v)
              case Ok(o) => r == Ok(o.disposition) && votes == o.votes
              case Err(e) => r == Err(e) && votes == old(votes)
    {
      var checked := CheckVote(v);
      if checked.Err? { return Err(checked.error); }
      var found := LowerBound(votes, VoteKey(v));
      if found < |votes| && VoteKey(votes[found]) == VoteKey(v) {
        if votes[found].bodyHash != v.bodyHash { return Err(ConflictingVote); }
        return Ok(Replay);
      }
      RecordKeepsSorted(votes, v);
      votes := votes[..found] + [v] + votes[found..];
      r := Ok(Recorded);
    }
  }

  /** The journal after any sequence of attempts, accepted or not. */
  function Journal(attempts: seq<Vote>): seq<Vote> {
    if attempts == [] then []
    else
      var before := Journal(attempts[..|attempts| - 1]);
      match Record(before, attempts[|attempts| - 1])
      case Ok(o) => o.votes
      case Err(_) => before
  }

  lemma {:induction false} JournalIsSorted(attempts: seq<Vote>)
    ensures SortedVotes(Journal(attempts))
  {
    if attempts != [] {
      var front := attempts[..|attempts| - 1];
      JournalIsSorted(front);
      if Record(Journal(front), attempts[|attempts| - 1]).Ok? {
        RecordKeepsSorted(Journal(front), attempts[|attempts| - 1]);
      }
    }
  }

  /** One context, one body: no sequence of attempts makes a journal hold two bodies for one key. */
  lemma JournalHoldsOneBody(attempts: seq<Vote>, a: Vote, b: Vote)
    requires a in Journal(attempts) && b in Journal(attempts) && SameContext(a, b)
    ensures a == b
  {
    hide VoteKey, KeyLess, Journal;
    JournalIsSorted(attempts);
    KeysIdentifyContexts(a, b);
    var votes := Journal(attempts);
    var i :| 0 <= i < |votes| && votes[i] == a;
    var j :| 0 <= j < |votes| && votes[j] == b;
    SortedKeysDiffer(votes, i, j);
  }

  // ----- quorum certificates -----------------------------------------------

  datatype QuorumCertificate = QuorumCertificate(
    bodyHash: string, contextId: string, height: u64, kind: string, qcId: string, quorumThreshold: u32,
    roundId: string, signerIds: seq<string>, validatorEpochId: string, view: u64, voteIds: seq<string>)

  datatype QuorumPolicy = QuorumPolicy(validatorEpochId: string, validatorIds: seq<string>, quorumThreshold: u32)

  function FaultTolerance(policy: QuorumPolicy): int { (|policy.validatorIds| - 1) / 3 }

  predicate CanonicalIds(values: seq<string>) {
    values != [] && StrictlySorted(values) && forall i :: 0 <= i < |values| ==> values[i] != ""
  }

  predicate Distinct(values: seq<string>) {
    forall i, j :: 0 <= i < j < |values| ==> values[i] != values[j]
  }

  predicate PolicyAccepted(policy: QuorumPolicy) {
    && CanonicalIds(policy.validatorIds) && IsContentId(policy.validatorEpochId)
    && |policy.validatorIds| % 3 == 1 && policy.quorumThreshold == 2 * FaultTolerance(policy) + 1
  }

  /** Everything `validate_quorum` demands. */
  predicate QuorumAccepted(c: QuorumCertificate, policy: QuorumPolicy) {
    && PolicyAccepted(policy)
    && c.quorumThreshold == policy.quorumThreshold && c.validatorEpochId == policy.validatorEpochId
    && IsContentId(c.bodyHash) && IsContentId(c.qcId) && c.contextId != "" && c.kind != "" && c.roundId != ""
    && StrictlySorted(c.signerIds)
    && |c.signerIds| >= policy.quorumThreshold && |c.signerIds| == |c.voteIds|
    && (forall i :: 0 <= i < |c.signerIds| ==> c.signerIds[i] in policy.validatorIds)
    && (forall i :: 0 <= i < |c.voteIds| ==> IsContentId(c.voteIds[i]))
    && Distinct(c.voteIds)
  }

  method CheckStrictOrder(values: seq<string>) returns (ordered: bool)
    ensures ordered <==> StrictlySorted(values)
  {
    hide StringLess;
    if values == [] { return true; }
    for index := 1 to |values|
      invariant forall i :: 0 < i < index && i < |values| ==> StringLess(values[i - 1], values[i])
    {
      if !StringLess(values[index - 1], values[index]) { return false; }
    }
    ordered := true;
  }

  method CheckCanonicalIds(values: seq<string>) returns (canonical: bool)
    ensures canonical <==> CanonicalIds(values)
  {
    hide StrictlySorted;
    if values == [] { return false; }
    var ordered := CheckStrictOrder(values);
    if !ordered { return false; }
    for index := 0 to |values|
      invariant forall i :: 0 <= i < index ==> values[i] != ""
    {
      if values[index] == "" { return false; }
    }
    canonical := true;
  }

  /** The checking loops of `validate_quorum`. */
  method ValidateQuorum(c: QuorumCertificate, policy: QuorumPolicy) returns (r: Result<(), Code>)
    ensures r.Ok? <==> QuorumAccepted(c, policy)
  {
    hide IsContentId, StrictlySorted, CanonicalIds;
    var canonical := CheckCanonicalIds(policy.validatorIds);
    if !canonical { return Err(ValidatorSetInvalid); }
    if !IsContentId(policy.validatorEpochId) { return Err(ConsensusIdentifierInvalid); }
    if |policy.validatorIds| % 3 != 1 { return Err(ValidatorSetInvalid); }
    var required := 2 * FaultTolerance(policy) + 1;
    if !(policy.quorumThreshold == required && c.quorumThreshold == policy.quorumThreshold) {
      return Err(QuorumPolicyMismatch);
    }
    if c.validatorEpochId != policy.validatorEpochId { return Err(QuorumPolicyMismatch); }
    if !(IsContentId(c.bodyHash) && IsContentId(c.qcId) && c.contextId != "" && c.kind != "" && c.roundId != "") {
      return Err(ConsensusIdentifierInvalid);
    }
    var ordered := CheckStrictOrder(c.signerIds);
    if !ordered { return Err(SignerSetInvalid); }
    if !(|c.signerIds| >= policy.quorumThreshold && |c.signerIds| == |c.voteIds|) { return Err(SignerSetInvalid); }
    for index := 0 to |c.signerIds|
      invariant forall i :: 0 <= i < index ==> c.signerIds[i] in policy.validatorIds
    {
      if c.signerIds[index] !in policy.validatorIds { return Err(UnknownSigner); }
    }
    for left := 0 to |c.voteIds|
      invariant forall i :: 0 <= i < left ==> IsContentId(c.voteIds[i])
      invariant forall i, j :: 0 <= i < left && i < j < |c.voteIds| ==> c.voteIds[i] != c.voteIds[j]
    {
      if !IsContentId(c.voteIds[left]) { return Err(ConsensusIdentifierInvalid); }
      for right := left + 1 to |c.voteIds|
        invariant forall j :: left < j < right ==> c.voteIds[left] != c.voteIds[j]
      {
        if c.voteIds[left] == c.voteIds[right] { return Err(SignerSetInvalid); }
      }
    }
    r := Ok(());
  }

  // ----- intersection and safety -------------------------------------------

  function Members(values: seq<string>): set<string> { set i | 0 <= i < |values| :: values[i] }

  lemma {:induction false} SortedCardinality(values: seq<string>)
    requires StrictlySorted(values)
    ensures |Members(values)| == |values|
  {
    hide StringLess;
    if values != [] {
      var n := |values| - 1;
      var front := values[..n];
      SortedCardinality(front);
      assert Members(values) == Members(front) + {values[n]};
      assert values[n] !in Members(front) by {
        forall i | 0 <= i < n ensures values[i] != values[n] { SortedPairs(values, i, n); }
      }
    }
  }

  /** Two accepted certificates under one policy share at least f + 1 signers. */
  lemma QuorumsIntersect(a: QuorumCertificate, b: QuorumCertificate, policy: QuorumPolicy)
    requires QuorumAccepted(a, policy) && QuorumAccepted(b, policy)
    ensures |Members(a.signerIds) * Members(b.signerIds)| >= FaultTolerance(policy) + 1
  {
    hide StrictlySorted, IsContentId, Distinct;
    var f := FaultTolerance(policy);
    var x, y, all := Members(a.signerIds), Members(b.signerIds), Members(policy.validatorIds);
    SortedCardinality(a.signerIds);
    SortedCardinality(b.signerIds);
    SortedCardinality(policy.validatorIds);
    assert x + y <= all;
    SubsetSize(x + y, all);
    assert |x + y| == |x| + |y| - |x * y|;
    assert |all| == 3 * f + 1;
  }

  /** The vote a signer casts for a certificate. */
  predicate VotesFor(v: Vote, signer: string, c: QuorumCertificate) {
    && v.validatorId == signer && v.validatorEpochId == c.validatorEpochId && v.kind == c.kind
    && v.roundId == c.roundId && v.height == c.height && v.view == c.view && v.contextId == c.contextId
    && v.bodyHash == c.bodyHash
  }

  /** Every signer outside `faulty` signs only what its own journal recorded. */
  ghost predicate HonestSigners(c: QuorumCertificate, attempts: map<string, seq<Vote>>, faulty: set<string>) {
    forall s :: s in Members(c.signerIds) && s !in faulty ==>
      s in attempts && exists v :: v in Journal(attempts[s]) && VotesFor(v, s, c)
  }

  predicate SameDecision(a: QuorumCertificate, b: QuorumCertificate) {
    && a.validatorEpochId == b.validatorEpochId && a.kind == b.kind && a.roundId == b.roundId
    && a.height == b.height && a.view == b.view && a.contextId == b.contextId
  }

  /** Two certificates that decide the same context differently need more than f faulty validators. */
  lemma ConflictNeedsFaults(a: QuorumCertificate, b: QuorumCertificate, policy: QuorumPolicy,
                            attempts: map<string, seq<Vote>>, faulty: set<string>)
    requires QuorumAccepted(a, policy) && QuorumAccepted(b, policy)
    requires SameDecision(a, b) && a.bodyHash != b.bodyHash
    requires HonestSigners(a, attempts, faulty) && HonestSigners(b, attempts, faulty)
    ensures |faulty * Members(policy.validatorIds)| > FaultTolerance(policy)
  {
    hide StrictlySorted, IsContentId, Distinct, Journal, FaultTolerance;
    QuorumsIntersect(a, b, policy);
    var shared := Members(a.signerIds) * Members(b.signerIds);
    forall s | s in shared ensures s in faulty {
      if s !in faulty {
        var v :| v in Journal(attempts[s]) && VotesFor(v, s, a);
        var w :| w in Journal(attempts[s]) && VotesFor(w, s, b);
        JournalHoldsOneBody(attempts[s], v, w);
      }
    }
    SubsetSize(shared, faulty * Members(policy.validatorIds));
  }
}
