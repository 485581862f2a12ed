/** The chain verifier: what one verified round of certificates says about its members and shards. */
module Lineage {
  import opened Base
  import opened Identity
  import opened Json
  import opened Merkle
  import opened Certificates
  import Consensus
  import Protocol

  type Checked = Result<string, CertificateError>

  datatype Policy = Policy(validatorEpochId: string, validatorIds: seq<string>, threshold: u32)

  datatype Verifier = Verifier(context: Context, policy: Policy)

  function CheckContext(actual: Context, expected: Context): Check {
    var _ :- ContextValues(actual);
    Require(actual == expected, ContextMismatch)
  }

  /** The constructor. */
  function Construct(context: Context, policy: Policy): Result<Verifier, CertificateError> {
    var _ :- CheckContext(context, context);
    var _ :- Require(policy.validatorEpochId == context.validatorEpochId, ContextMismatch);
    var _ :- Require(|policy.validatorIds| % 3 == 1, QuorumInvalid);
    var _ :- Require(StrictlySorted(policy.validatorIds), OrderInvalid);
    var _ :- Require(policy.threshold == 2 * ((|policy.validatorIds| - 1) / 3) + 1, QuorumInvalid);
    Ok(Verifier(context, policy))
  }

  function Signers(v: Verifier, signers: seq<string>, threshold: u32): Check {
    var _ :- Require(threshold == v.policy.threshold && |signers| >= threshold, QuorumInvalid);
    var _ :- Require(StrictlySorted(signers), OrderInvalid);
    Require(forall i :: 0 <= i < |signers| ==> signers[i] in v.policy.validatorIds, QuorumInvalid)
  }

  function Parent(actual: string, expected: string): Check { Require(actual == expected, ParentMismatch) }

  // ----- ticket collectors -------------------------------------------------

  function Accepted(es: seq<EligibilityEntry>): seq<string> {
    if es == [] then []
    else
      var front := Accepted(es[..|es| - 1]);
      if es[|es| - 1].accepted then front + [es[|es| - 1].ticketId] else front
  }

  /** `accepted_tickets`. */
  method AcceptedTickets(es: seq<EligibilityEntry>) returns (result: seq<string>)
    ensures result == Accepted(es)
  {
    result := [];
    for k := 0 to |es|
      invariant result == Accepted(es[..k])
    {
      assert es[..k + 1][..k] == es[..k];
      if es[k].accepted { result := result + [es[k].ticketId]; }
    }
    assert es[..|es|] == es;
  }

  function Insert(x: string, sorted: seq<string>): seq<string> {
    if sorted == [] || !StringLess(sorted[0], x) then [x] + sorted else [sorted[0]] + Insert(x, sorted[1..])
  }

  /** `std::sort` on strings. */
  function Sort(values: seq<string>): seq<string> {
    if values == [] then [] else Insert(values[0], Sort(values[1..]))
  }

  lemma {:induction false} SortOfSorted(values: seq<string>)
    requires StrictlySorted(values)
    ensures Sort(values) == values
  {
    hide StringLess;
    if values != [] {
      var rest := values[1..];
      assert forall i :: 0 < i < |rest| ==> rest[i - 1] == values[i] && rest[i] == values[i + 1];
      SortOfSorted(rest);
      if rest != [] {
        assert StringLess(values[0], values[1]);
        StringLessAsymmetric(values[0], values[1]);
      }
      assert values == [values[0]] + rest;
    }
  }

  lemma StringLessAsymmetric(a: string, b: string)
    requires StringLess(a, b)
    ensures !StringLess(b, a)
  {
    if StringLess(b, a) {
      LessTransitive(Codes(a), Codes(b), Codes(a));
      LessIrreflexive(Codes(a));
    }
  }

  // ----- verification ------------------------------------------------------

  function VerifyInputSet(sha: Bytes -> Digest, v: Verifier, c: InputSet): Checked {
    var _ :- CheckContext(c.context, v.context);
    var _ :- Signers(v, c.signers, c.threshold);
    InputSetId(sha, c)
  }

  /** Entry by entry the same tickets and domains, in the same order. */
  predicate SameMembers(es: seq<EligibilityEntry>, ts: seq<InputTuple>) {
    && |es| == |ts|
    && forall i :: 0 <= i < |es| ==> es[i].ticketId == ts[i].ticketId && es[i].domainId == ts[i].domainId
  }

  function VerifyEligibility(sha: Bytes -> Digest, v: Verifier, c: Eligibility, inputSet: InputSet, normEvidenceId: string): Checked {
    var inputSetId :- VerifyInputSet(sha, v, inputSet);
    var _ :- CheckContext(c.context, v.context);
    var _ :- Parent(c.inputSetId, inputSetId);
    var _ :- Parent(c.normEvidenceId, normEvidenceId);
    var _ :- Signers(v, c.signers, c.threshold);
    var _ :- Require(SameMembers(c.entries, inputSet.tuples), MembershipMutation);
    EligibilityId(sha, c)
  }

  function VerifyPlan(sha: Bytes -> Digest, v: Verifier, c: Plan, inputSet: InputSet, ec: Eligibility, seedId: string, proofId: string): Checked {
    var inputSetId :- VerifyInputSet(sha, v, inputSet);
    var eligibilityId :- EligibilityId(sha, ec);
    var _ :- CheckContext(c.context, v.context);
    var _ :- Parent(c.inputSetId, inputSetId);
    var _ :- Parent(c.eligibilityId, eligibilityId);
    var _ :- Parent(c.seedTranscriptId, seedId);
    var _ :- Parent(c.accumulatorProofId, proofId);
    var _ :- Signers(v, c.signers, c.threshold);
    var _ :- Require(Accepted(ec.entries) == Sort(BucketTickets(c.buckets)) && Accepted(ec.entries) == WeightTickets(c.weights),
                     MembershipMutation);
    PlanId(sha, c)
  }

  /** The three certificates every shard and the root descend from. */
  datatype Parents = Parents(inputSetId: string, eligibilityId: string, planId: string)

  function VerifyShard(sha: Bytes -> Digest, v: Verifier, c: ShardQc, parents: Parents): Checked {
    var _ :- CheckContext(c.context, v.context);
    var _ :- Parent(c.inputSetId, parents.inputSetId);
    var _ :- Parent(c.eligibilityId, parents.eligibilityId);
    var _ :- Parent(c.planId, parents.planId);
    var _ :- Signers(v, c.signers, c.threshold);
    ShardQcId(sha, c)
  }

  function CheckCell(sha: Bytes -> Digest, v: Verifier, key: ShardKey, leaf: RootLeaf, shard: ShardQc, parents: Parents): Check {
    var _ :- Require(ShardKey(leaf.domainId, leaf.shardId) == key && ShardKey(shard.domainId, shard.shardId) == key, CoverageIncomplete);
    var id :- VerifyShard(sha, v, shard, parents);
    Parent(leaf.shardQcId, id)
  }

  /** The loop over the matrix, from its first cell. */
  function CheckCells(sha: Bytes -> Digest, v: Verifier, keys: seq<ShardKey>, leaves: seq<RootLeaf>, shards: seq<ShardQc>, parents: Parents): (r: Check)
    requires |keys| == |leaves| == |shards|
    ensures r.Ok? <==> forall i :: 0 <= i < |keys| ==> CheckCell(sha, v, keys[i], leaves[i], shards[i], parents).Ok?
  {
    hide CheckCell;
    if keys == [] then Ok(())
    else
      var _ :- CheckCell(sha, v, keys[0], leaves[0], shards[0], parents);
      assert forall i :: 0 < i < |keys| ==> keys[i] == keys[1..][i - 1] && leaves[i] == leaves[1..][i - 1] && shards[i] == shards[1..][i - 1];
      CheckCells(sha, v, keys[1..], leaves[1..], shards[1..], parents)
  }

  function VerifyRoot(sha: Bytes -> Digest, v: Verifier, c: RootQc, parents: Parents, required: seq<ShardKey>, shards: seq<ShardQc>): Checked {
    var _ :- CheckContext(c.context, v.context);
    var _ :- Parent(c.inputSetId, parents.inputSetId);
    var _ :- Parent(c.eligibilityId, parents.eligibilityId);
    var _ :- Parent(c.planId, parents.planId);
    var _ :- Signers(v, c.signers, c.threshold);
    var _ :- Require(KeysOrdered(required), CoverageDuplicate);
    if c.requiredKeys != required || |c.leaves| != |required| || |shards| != |required| then Err(CoverageIncomplete)
    else
      var _ :- CheckCells(sha, v, required, c.leaves, shards, parents);
      RootQcId(sha, c)
  }

  function VerifyApply(sha: Bytes -> Digest, v: Verifier, c: ApplyQc, candidate: Candidate, rootQcId: string, profileId: string): Checked {
    var _ :- CheckContext(c.context, v.context);
    var _ :- CheckContext(candidate.context, v.context);
    var _ :- Parent(c.rootQcId, rootQcId);
    var _ :- Parent(candidate.rootQcId, rootQcId);
    var _ :- Parent(c.profileId, profileId);
    var _ :- Parent(candidate.profileId, profileId);
    var candidateId :- CandidateId(sha, candidate);
    var _ :- Parent(c.candidateId, candidateId);
    var _ :- Require(c.parentCheckpointId == candidate.parentCheckpointId && c.nextModelHash == candidate.nextModelHash
                     && c.nextOptimizerHash == candidate.nextOptimizerHash, ApplyConflict);
    var _ :- Signers(v, c.signers, c.threshold);
    ApplyQcId(sha, c)
  }

  // ----- membership --------------------------------------------------------

  predicate DistinctTickets(ts: seq<InputTuple>) {
    forall i, j :: 0 <= i < j < |ts| ==> ts[i].ticketId != ts[j].ticketId
  }

  predicate EligibleEntries(es: seq<EligibilityEntry>, ts: seq<InputTuple>) {
    EntriesForm(es).Ok? && SameMembers(es, ts)
  }

  lemma EligibleMeansDistinct(es: seq<EligibilityEntry>, ts: seq<InputTuple>)
    requires EligibleEntries(es, ts)
    ensures DistinctTickets(ts)
  {
    hide StringLess, EntryForm;
    forall i, j | 0 <= i < j < |ts| ensures ts[i].ticketId != ts[j].ticketId {
      SortedPairs(EntryTickets(es), i, j);
    }
  }

  /** Accept every tuple with weight zero over one. */
  function AcceptAll(ts: seq<InputTuple>): (es: seq<EligibilityEntry>)
    ensures |es| == |ts|
  {
    seq(|ts|, i requires 0 <= i < |ts| => EligibilityEntry(true, ts[i].domainId, Rational(0, 1), "ACCEPTED", ts[i].ticketId))
  }

  /** Entries in canonical form for an input set exist exactly when its tickets are pairwise distinct;
      the order on (ticket, commitment) alone does not make them so. */
  lemma EntriesIffDistinct(c: InputSet)
    requires InputSetForm(c).Ok?
    ensures (exists es :: EligibleEntries(es, c.tuples)) <==> DistinctTickets(c.tuples)
    ensures DistinctTickets(c.tuples) ==> EligibleEntries(AcceptAll(c.tuples), c.tuples)
  {
    hide StringLess, IsLabel, IsContentId, ContextValues, SignerList;
    if DistinctTickets(c.tuples) {
      var es := AcceptAll(c.tuples);
      assert IsLabel("ACCEPTED") by { AcceptedIsLabel(); }
      assert forall i :: 0 <= i < |es| ==> TupleForm(c.tuples[i]).Ok?;
      assert Gcd(0, 1) == Gcd(1, 0) == 1;
      forall i | 0 <= i < |es| ensures EntryForm(es[i]).Ok? {
        assert TupleForm(c.tuples[i]).Ok?;
      }
      assert EligibleEntries(es, c.tuples);
    }
    if es :| EligibleEntries(es, c.tuples) {
      EligibleMeansDistinct(es, c.tuples);
    }
  }

  lemma AcceptedIsLabel()
    ensures IsLabel("ACCEPTED")
  {
  }

  /** Two commitments under one ticket, in canonical order. */
  function TwoCommitments(id: string, low: string, high: string): InputSet {
    InputSet(Context(id, 1, id, id, "r", id, 0), id, 1, ["v"],
             [InputTuple(id, low, "d", "t"), InputTuple(id, high, "d", "t")])
  }

  lemma TwoCommitmentsForm(id: string, low: string, high: string)
    requires IsContentId(id) && IsContentId(low) && IsContentId(high) && StringLess(low, high)
    ensures InputSetForm(TwoCommitments(id, low, high)).Ok? && !DistinctTickets(TwoCommitments(id, low, high).tuples)
  {
    hide IsContentId, StringLess;
    var c := TwoCommitments(id, low, high);
    assert IsLabel("r") && IsLabel("v") && IsLabel("d") && IsLabel("t");
    assert c.tuples[0].ticketId == c.tuples[1].ticketId;
    assert ContextValues(c.context).Ok?;
    assert SignerList(c.signers, c.threshold).Ok?;
    assert forall i :: 0 <= i < |c.tuples| ==> TupleForm(c.tuples[i]).Ok?;
  }

  /** The input set's own canonical order admits one ticket with two commitments. */
  lemma InputOrderAllowsRepeats()
    ensures exists c: InputSet :: InputSetForm(c).Ok? && !DistinctTickets(c.tuples)
  {
    hide InputSetForm, StringLess, IdOf, DistinctTickets;
    var zeros: Digest, ones: Digest := seq(32, _ => 0), seq(32, _ => 1);
    var a, b := IdOf(zeros), IdOf(ones);
    assert zeros[0] != ones[0];
    if a == b { IdInjective(zeros, ones); }
    AnyTwoAreOrdered(a, b);
    if StringLess(a, b) { TwoCommitmentsForm(a, a, b); } else { TwoCommitmentsForm(a, b, a); }
  }

  lemma AnyTwoAreOrdered(a: string, b: string)
    ensures StringLess(a, b) || a == b || StringLess(b, a)
  {
    LessTotal(Codes(a), Codes(b));
    if Codes(a) == Codes(b) { CodesInjective(a, b); }
  }

  lemma EligibilityFacts(sha: Bytes -> Digest, v: Verifier, ec: Eligibility, inputSet: InputSet, normId: string)
    requires VerifyEligibility(sha, v, ec, inputSet, normId).Ok?
    ensures EntriesForm(ec.entries).Ok? && SameMembers(ec.entries, inputSet.tuples)
  {
    hide EntriesForm, SameMembers, VerifyInputSet, Signers, SignerList, CheckContext, ContextValues, EligibilityJson, Printable, Document, IdOf;
  }

  lemma PlanFacts(sha: Bytes -> Digest, v: Verifier, c: Plan, inputSet: InputSet, ec: Eligibility, seedId: string, proofId: string)
    requires VerifyPlan(sha, v, c, inputSet, ec, seedId, proofId).Ok?
    ensures Accepted(ec.entries) == Sort(BucketTickets(c.buckets)) && Accepted(ec.entries) == WeightTickets(c.weights)
    ensures StrictlySorted(BucketTickets(c.buckets)) && StrictlySorted(WeightTickets(c.weights))
  {
    hide VerifyInputSet, EligibilityId, Signers, SignerList, CheckContext, ContextValues, Accepted, Sort, BucketTickets, WeightTickets,
      StrictlySorted, PlanJson, Printable, Document, IdOf, Each;
  }

  /** Verified eligibility makes the input tickets pairwise distinct. */
  lemma VerifiedTicketsAreDistinct(sha: Bytes -> Digest, v: Verifier, ec: Eligibility, inputSet: InputSet, normId: string)
    requires VerifyEligibility(sha, v, ec, inputSet, normId).Ok?
    ensures DistinctTickets(inputSet.tuples)
  {
    hide VerifyEligibility, EntriesForm, SameMembers, DistinctTickets;
    EligibilityFacts(sha, v, ec, inputSet, normId);
    EligibleMeansDistinct(ec.entries, inputSet.tuples);
  }

  /** Membership in the accepted list. */
  lemma {:induction false} AcceptedMeans(es: seq<EligibilityEntry>, t: string)
    ensures t in Accepted(es) <==> exists i :: 0 <= i < |es| && es[i].accepted && es[i].ticketId == t
  {
    if es != [] {
      var front := es[..|es| - 1];
      AcceptedMeans(front, t);
      assert forall i :: 0 <= i < |front| ==> front[i] == es[i];
    }
  }

  /** The ticket is a certified input and its entry is accepted. */
  predicate AcceptedInput(es: seq<EligibilityEntry>, ts: seq<InputTuple>, t: string) {
    exists i :: 0 <= i < |es| && i < |ts| && es[i].accepted && es[i].ticketId == t && ts[i].ticketId == t
  }

  ghost predicate ExactlyOne(values: seq<string>, t: string) {
    t in values && forall i, j :: 0 <= i < |values| && 0 <= j < |values| && values[i] == t && values[j] == t ==> i == j
  }

  lemma SortedHasExactlyOne(values: seq<string>, t: string)
    requires StrictlySorted(values) && t in values
    ensures ExactlyOne(values, t)
  {
    hide StringLess;
    forall i, j | 0 <= i < j < |values| ensures values[i] != values[j] { SortedPairs(values, i, j); }
  }

  /** A verified plan gives every accepted ticket exactly one bucket and one weight, and gives no
      other ticket either; every accepted ticket is one of the certified inputs. */
  lemma PlanCoversAccepted(sha: Bytes -> Digest, v: Verifier, plan: Plan, inputSet: InputSet, ec: Eligibility, normId: string,
                           seedId: string, proofId: string, ticket: string)
    requires VerifyEligibility(sha, v, ec, inputSet, normId).Ok?
    requires VerifyPlan(sha, v, plan, inputSet, ec, seedId, proofId).Ok?
    ensures var accepted := AcceptedInput(ec.entries, inputSet.tuples, ticket);
            && (accepted <==> ticket in BucketTickets(plan.buckets))
            && (accepted <==> ticket in WeightTickets(plan.weights))
            && (accepted ==> ExactlyOne(BucketTickets(plan.buckets), ticket) && ExactlyOne(WeightTickets(plan.weights), ticket))
  {
    hide VerifyEligibility, VerifyPlan, Accepted, Sort, BucketTickets, WeightTickets, ExactlyOne, StrictlySorted;
    PlanFacts(sha, v, plan, inputSet, ec, seedId, proofId);
    EligibilityFacts(sha, v, ec, inputSet, normId);
    SortOfSorted(BucketTickets(plan.buckets));
    AcceptedMeans(ec.entries, ticket);
    if ticket in Accepted(ec.entries) {
      SortedHasExactlyOne(BucketTickets(plan.buckets), ticket);
      SortedHasExactlyOne(WeightTickets(plan.weights), ticket);
    }
  }

  // ----- the required matrix -----------------------------------------------

  lemma {:induction false} OrderedKeysClimb(keys: seq<ShardKey>, i: nat, j: nat)
    requires KeysOrdered(keys) && i < j < |keys|
    ensures PairLess(keys[i].domainId, keys[i].shardId, keys[j].domainId, keys[j].shardId)
    decreases j
  {
    if i + 1 < j {
      OrderedKeysClimb(keys, i, j - 1);
      PairLessTransitive(keys[i], keys[j - 1], keys[j]);
    }
  }

  lemma PairLessTransitive(a: ShardKey, b: ShardKey, c: ShardKey)
    requires PairLess(a.domainId, a.shardId, b.domainId, b.shardId) && PairLess(b.domainId, b.shardId, c.domainId, c.shardId)
    ensures PairLess(a.domainId, a.shardId, c.domainId, c.shardId)
  {
    hide Less;
    if StringLess(a.domainId, b.domainId) && StringLess(b.domainId, c.domainId) {
      LessTransitive(Codes(a.domainId), Codes(b.domainId), Codes(c.domainId));
    }
    if StringLess(a.shardId, b.shardId) && StringLess(b.shardId, c.shardId) {
      LessTransitive(Codes(a.shardId), Codes(b.shardId), Codes(c.shardId));
    }
  }

  predicate DistinctKeys(keys: seq<ShardKey>) {
    forall i, j :: 0 <= i < j < |keys| ==> keys[i] != keys[j]
  }

  lemma OrderedKeysDiffer(keys: seq<ShardKey>)
    requires KeysOrdered(keys)
    ensures DistinctKeys(keys)
  {
    forall i, j | 0 <= i < j < |keys| ensures keys[i] != keys[j] {
      OrderedKeysClimb(keys, i, j);
      LessIrreflexive(Codes(keys[i].domainId));
      LessIrreflexive(Codes(keys[i].shardId));
    }
  }

  predicate Descends(c: ShardQc, parents: Parents) {
    c.inputSetId == parents.inputSetId && c.eligibilityId == parents.eligibilityId && c.planId == parents.planId
  }

  /** Cell i of the matrix: key, leaf and shard certificate belong together. */
  predicate CellMatches(sha: Bytes -> Digest, key: ShardKey, leaf: RootLeaf, shard: ShardQc, parents: Parents) {
    && ShardKey(leaf.domainId, leaf.shardId) == key && ShardKey(shard.domainId, shard.shardId) == key
    && ShardQcId(sha, shard) == Ok(leaf.shardQcId) && Descends(shard, parents)
  }

  lemma CheckedCellMatches(sha: Bytes -> Digest, v: Verifier, key: ShardKey, leaf: RootLeaf, shard: ShardQc, parents: Parents)
    requires CheckCell(sha, v, key, leaf, shard, parents).Ok?
    ensures CellMatches(sha, key, leaf, shard, parents)
  {
    hide ShardQcId, Signers, CheckContext;
  }

  /** An accepted root covers the required matrix one to one, without repeated cells, every shard
      certificate named by its leaf and descending from the same three parents as the root. */
  lemma RootMatchesMatrix(sha: Bytes -> Digest, v: Verifier, root: RootQc, parents: Parents, required: seq<ShardKey>, shards: seq<ShardQc>)
    requires VerifyRoot(sha, v, root, parents, required, shards).Ok?
    ensures root.requiredKeys == required && |root.leaves| == |shards| == |required| > 0 && DistinctKeys(required)
    ensures forall i :: 0 <= i < |required| ==> CellMatches(sha, required[i], root.leaves[i], shards[i], parents)
    ensures root.inputSetId == parents.inputSetId && root.eligibilityId == parents.eligibilityId && root.planId == parents.planId
    ensures LeavesOk(root.leaves) && root.merkleRoot == MerkleRoot(sha, root.leaves)
  {
    hide CellMatches, CheckCell, KeysOrdered, LeavesOk, MerkleRoot, Signers, SignerList, CheckContext, ContextValues, Each, IdOf, DistinctKeys, Separated;
    OrderedKeysDiffer(required);
    forall i | 0 <= i < |required| ensures CellMatches(sha, required[i], root.leaves[i], shards[i], parents) {
      CheckedCellMatches(sha, v, required[i], root.leaves[i], shards[i], parents);
    }
  }

  // ----- one root, one ancestry --------------------------------------------

  /** Every certificate of one verified round. */
  datatype Chain = Chain(
    inputSet: InputSet, normId: string, ec: Eligibility, seedId: string, proofId: string, plan: Plan,
    required: seq<ShardKey>, shards: seq<ShardQc>, root: RootQc)

  ghost predicate Verified(sha: Bytes -> Digest, v: Verifier, c: Chain) {
    && VerifyEligibility(sha, v, c.ec, c.inputSet, c.normId).Ok?
    && VerifyPlan(sha, v, c.plan, c.inputSet, c.ec, c.seedId, c.proofId).Ok?
    && VerifyRoot(sha, v, c.root, ParentsOf(sha, c), c.required, c.shards).Ok?
  }

  function ValueOf(r: Checked): string { if r.Ok? then r.value else "" }

  function ParentsOf(sha: Bytes -> Digest, c: Chain): Parents {
    Parents(ValueOf(InputSetId(sha, c.inputSet)), ValueOf(EligibilityId(sha, c.ec)), ValueOf(PlanId(sha, c.plan)))
  }

  function ShardInput(c: ShardQc): Bytes { Separated(SHARD_QC, Document(ShardQcJson(c))) }

  function InputSetInput(c: InputSet): Bytes { Separated(INPUT_SET, Document(InputSetJson(c))) }

  function EligibilityInput(c: Eligibility): Bytes { Separated(ELIGIBILITY, Document(EligibilityJson(c))) }

  function PlanInput(c: Plan): Bytes { Separated(PLAN, Document(PlanJson(c))) }

  /** The strings hashed to identify the members of a chain. */
  function Hashed(sha: Bytes -> Digest, c: Chain): set<Bytes> {
    (if c.root.leaves == [] then {} else HashedFor(sha, c.root.leaves))
    + (set x | x in c.shards :: ShardInput(x))
    + {InputSetInput(c.inputSet), EligibilityInput(c.ec), PlanInput(c.plan)}
  }

  lemma FewerInputs(sha: Bytes -> Digest, some: set<Bytes>, all: set<Bytes>)
    requires CollisionFree(sha, all) && some <= all
    ensures CollisionFree(sha, some)
  {
  }

  lemma SameShardId(sha: Bytes -> Digest, x: ShardQc, y: ShardQc, id: string)
    requires CollisionFree(sha, {ShardInput(x), ShardInput(y)})
    requires ShardQcId(sha, x) == Ok(id) && ShardQcId(sha, y) == Ok(id)
    ensures x == y
  {
    hide ShardQcId, CollisionFree;
    SameShardQc(sha, x, y);
  }

  lemma SameParents(sha: Bytes -> Digest, a: Chain, b: Chain)
    requires CollisionFree(sha, Hashed(sha, a) + Hashed(sha, b)) && ParentsOf(sha, a) == ParentsOf(sha, b)
    requires InputSetId(sha, a.inputSet).Ok? && InputSetId(sha, b.inputSet).Ok?
    requires EligibilityId(sha, a.ec).Ok? && EligibilityId(sha, b.ec).Ok? && PlanId(sha, a.plan).Ok? && PlanId(sha, b.plan).Ok?
    ensures a.inputSet == b.inputSet && a.ec == b.ec && a.plan == b.plan
  {
    hide InputSetId, EligibilityId, PlanId, CollisionFree, HashedFor, Document, Separated;
    var all := Hashed(sha, a) + Hashed(sha, b);
    FewerInputs(sha, {InputSetInput(a.inputSet), InputSetInput(b.inputSet)}, all);
    FewerInputs(sha, {EligibilityInput(a.ec), EligibilityInput(b.ec)}, all);
    FewerInputs(sha, {PlanInput(a.plan), PlanInput(b.plan)}, all);
    SameInputSet(sha, a.inputSet, b.inputSet);
    SameEligibility(sha, a.ec, b.ec);
    SamePlan(sha, a.plan, b.plan);
  }

  lemma VerifiedHasIds(sha: Bytes -> Digest, v: Verifier, c: Chain)
    requires Verified(sha, v, c)
    ensures InputSetId(sha, c.inputSet).Ok? && EligibilityId(sha, c.ec).Ok? && PlanId(sha, c.plan).Ok?
  {
    hide Identify, InputSetForm, EligibilityForm, PlanForm, Signers, CheckContext, SameMembers, Accepted, Sort, VerifyRoot;
  }

  lemma VerifiedRootHasId(sha: Bytes -> Digest, v: Verifier, c: Chain)
    requires Verified(sha, v, c)
    ensures RootQcId(sha, c.root).Ok?
  {
    hide VerifyEligibility, VerifyPlan, CheckCells, KeysOrdered, RootQcId, Signers, CheckContext;
  }

  lemma SameCells(sha: Bytes -> Digest, a: Chain, b: Chain, i: nat)
    requires CollisionFree(sha, Hashed(sha, a) + Hashed(sha, b)) && i < |a.shards| && i < |b.shards|
    requires i < |a.required| && i < |b.required| && i < |a.root.leaves| && a.root.leaves == b.root.leaves
    requires CellMatches(sha, a.required[i], a.root.leaves[i], a.shards[i], ParentsOf(sha, a))
    requires CellMatches(sha, b.required[i], b.root.leaves[i], b.shards[i], ParentsOf(sha, b))
    ensures a.required[i] == b.required[i] && a.shards[i] == b.shards[i] && ParentsOf(sha, a) == ParentsOf(sha, b)
  {
    hide ShardQcId, CollisionFree, HashedFor, ShardInput, InputSetInput, EligibilityInput, PlanInput, ParentsOf;
    assert a.shards[i] in a.shards && b.shards[i] in b.shards;
    FewerInputs(sha, {ShardInput(a.shards[i]), ShardInput(b.shards[i])}, Hashed(sha, a) + Hashed(sha, b));
    SameShardId(sha, a.shards[i], b.shards[i], a.root.leaves[i].shardQcId);
  }

  /** Two verified chains whose roots carry the same Merkle root certify the same required matrix
      and the same shard certificates, and descend from the same plan, eligibility and input set,
      hence from the same members. The two chains may come from different verifiers. */
  lemma RootPinsLineage(sha: Bytes -> Digest, v: Verifier, a: Chain, w: Verifier, b: Chain)
    requires Verified(sha, v, a) && Verified(sha, w, b) && a.root.merkleRoot == b.root.merkleRoot
    requires CollisionFree(sha, Hashed(sha, a) + Hashed(sha, b))
    ensures a.required == b.required && a.shards == b.shards && a.root.leaves == b.root.leaves
    ensures a.plan == b.plan && a.ec == b.ec && a.inputSet == b.inputSet
  {
    hide VerifyEligibility, VerifyPlan, VerifyRoot, MerkleRoot, HashedFor, ShardQcId, InputSetId, EligibilityId, PlanId,
      DistinctKeys, CollisionFree, CellMatches, ParentsOf, LeafOk, ShardInput, InputSetInput, EligibilityInput, PlanInput;
    RootMatchesMatrix(sha, v, a.root, ParentsOf(sha, a), a.required, a.shards);
    RootMatchesMatrix(sha, w, b.root, ParentsOf(sha, b), b.required, b.shards);
    FewerInputs(sha, HashedFor(sha, a.root.leaves) + HashedFor(sha, b.root.leaves), Hashed(sha, a) + Hashed(sha, b));
    EqualRootsEqualLeaves(sha, a.root.leaves, b.root.leaves);
    forall i | 0 <= i < |a.required| ensures a.required[i] == b.required[i] && a.shards[i] == b.shards[i] { SameCells(sha, a, b, i); }
    SameCells(sha, a, b, 0);
    VerifiedHasIds(sha, v, a);
    VerifiedHasIds(sha, w, b);
    SameParents(sha, a, b);
  }

  /** Two accepted apply certificates for one candidate identifier descend from the same root, and
      so from the same ancestry. */
  lemma ApplyPinsLineage(sha: Bytes -> Digest, v: Verifier, a: Chain, x: ApplyQc, cx: Candidate, w: Verifier, b: Chain, y: ApplyQc, cy: Candidate)
    requires Verified(sha, v, a) && Verified(sha, w, b) && x.candidateId == y.candidateId
    requires VerifyApply(sha, v, x, cx, ValueOf(RootQcId(sha, a.root)), x.profileId).Ok?
    requires VerifyApply(sha, w, y, cy, ValueOf(RootQcId(sha, b.root)), y.profileId).Ok?
    requires CollisionFree(sha, {Separated(CANDIDATE, Document(CandidateJson(cx))), Separated(CANDIDATE, Document(CandidateJson(cy)))})
    requires CollisionFree(sha, {Separated(ROOT_QC, Document(RootQcJson(a.root))), Separated(ROOT_QC, Document(RootQcJson(b.root)))})
    requires CollisionFree(sha, Hashed(sha, a) + Hashed(sha, b))
    ensures cx == cy && a.root == b.root && a.shards == b.shards && a.plan == b.plan && a.ec == b.ec && a.inputSet == b.inputSet
    ensures x.nextModelHash == y.nextModelHash && x.parentCheckpointId == y.parentCheckpointId
  {
    hide Verified, CollisionFree, Hashed, CandidateId, RootQcId, Signers, CheckContext, ApplyQcId;
    SameCandidate(sha, cx, cy);
    VerifiedRootHasId(sha, v, a);
    VerifiedRootHasId(sha, w, b);
    SameRootQc(sha, a.root, b.root);
    RootPinsLineage(sha, v, a, w, b);
  }

  // ----- votes for shards --------------------------------------------------

  datatype VoteKind = InputSetVote | EligibilityVote | PlanVote | ShardVote | RootVote | ApplyVote

  function KindName(kind: VoteKind): string {
    match kind
    case InputSetVote => "ISC" case EligibilityVote => "EC" case PlanVote => "APC"
    case ShardVote => "PARAMETER_SHARD_QC" case RootVote => "AGGREGATE_ROOT_QC" case ApplyVote => "APPLY_QC"
  }

  /** `make_vote`: the context identifier holds the kind, round, height and view. */
  function MakeVote(kind: VoteKind, c: Context, bodyId: string, validatorId: string, signatureId: string, sequence: u64): Result<Protocol.Vote, CertificateError> {
    var _ :- Content(bodyId);
    var _ :- Content(signatureId);
    var _ :- Require(sequence > 0, ContextMismatch);
    var _ :- Require(validatorId != "", IdentifierInvalid);
    Ok(Protocol.Vote(
      bodyId, KindName(kind) + ":" + c.roundId + ":" + Protocol.Decimal(c.height) + ":" + Protocol.Decimal(c.view), sequence,
      c.height, KindName(kind), c.roundId, signatureId, c.validatorEpochId, validatorId, c.view))
  }

  /** The shard key is no part of a vote's context: a journal that holds a validator's vote for one
      shard certificate of a view takes its vote for another if and only if it is the same
      certificate, and otherwise reports a conflict. */
  lemma SecondShardVoteConflicts(sha: Bytes -> Digest, v: Verifier, parents: Parents, one: ShardQc, other: ShardQc, journal: seq<Protocol.Vote>,
                                 validatorId: string, first: Protocol.Vote, second: Protocol.Vote)
    requires VerifyShard(sha, v, one, parents).Ok? && VerifyShard(sha, v, other, parents).Ok?
    requires IsShardVote(first, one, VerifyShard(sha, v, one, parents).value, validatorId)
    requires IsShardVote(second, other, VerifyShard(sha, v, other, parents).value, validatorId)
    requires Consensus.SortedVotes(journal) && first in journal
    ensures Consensus.Record(journal, second).Ok? <==> VerifyShard(sha, v, one, parents) == VerifyShard(sha, v, other, parents)
    ensures Consensus.Record(journal, second).Err? ==> Consensus.Record(journal, second).error == Consensus.ConflictingVote
  {
    hide ShardQcId, Signers, Consensus.SortedVotes, Consensus.Record, Consensus.VoteKey, IsContentId;
    VoteIsWellFormed(v, second);
    Consensus.KeysIdentifyContexts(first, second);
    Consensus.RecordDecides(journal, second);
    var i :| 0 <= i < |journal| && journal[i] == first;
  }

  /** The vote a validator makes for a shard certificate. */
  predicate IsShardVote(vote: Protocol.Vote, c: ShardQc, id: string, validatorId: string) {
    MakeVote(ShardVote, c.context, id, validatorId, vote.signatureId, vote.durableSequence) == Ok(vote)
  }

  /** Every signer outside `faulty` voted for the certificate out of its own journal. */
  ghost predicate SignedFromJournals(c: ShardQc, id: string, attempts: map<string, seq<Protocol.Vote>>, faulty: set<string>) {
    forall s :: s in Consensus.Members(c.signers) && s !in faulty ==>
      s in attempts && exists vote :: vote in Consensus.Journal(attempts[s]) && IsShardVote(vote, c, id, s)
  }

  function Tolerance(v: Verifier): int { (|v.policy.validatorIds| - 1) / 3 }

  lemma ShardSigners(sha: Bytes -> Digest, v: Verifier, c: ShardQc, parents: Parents)
    requires VerifyShard(sha, v, c, parents).Ok? && Construct(v.context, v.policy) == Ok(v)
    ensures c.context == v.context && |Consensus.Members(c.signers)| >= 2 * Tolerance(v) + 1
    ensures Consensus.Members(c.signers) <= Consensus.Members(v.policy.validatorIds)
    ensures |Consensus.Members(v.policy.validatorIds)| == 3 * Tolerance(v) + 1
  {
    hide ShardQcId, StrictlySorted, ContextValues;
    Consensus.SortedCardinality(c.signers);
    Consensus.SortedCardinality(v.policy.validatorIds);
  }

  /** No journal holds votes of one validator for two shard certificates of one view. */
  lemma OneShardPerJournal(attempts: seq<Protocol.Vote>, one: ShardQc, other: ShardQc, x: string, y: string, s: string)
    requires one.context == other.context
    requires exists vote :: vote in Consensus.Journal(attempts) && IsShardVote(vote, one, x, s)
    requires exists vote :: vote in Consensus.Journal(attempts) && IsShardVote(vote, other, y, s)
    ensures x == y
  {
    hide Consensus.Journal;
    var u :| u in Consensus.Journal(attempts) && IsShardVote(u, one, x, s);
    var w :| w in Consensus.Journal(attempts) && IsShardVote(w, other, y, s);
    Consensus.JournalHoldsOneBody(attempts, u, w);
  }

  /** Two verified shard certificates of one view with different identifiers need more than f
      validators that signed outside their journals. */
  lemma TwoShardsNeedFaults(sha: Bytes -> Digest, v: Verifier, parents: Parents, one: ShardQc, other: ShardQc,
                            attempts: map<string, seq<Protocol.Vote>>, faulty: set<string>)
    requires Construct(v.context, v.policy) == Ok(v)
    requires VerifyShard(sha, v, one, parents).Ok? && VerifyShard(sha, v, other, parents).Ok?
    requires VerifyShard(sha, v, one, parents) != VerifyShard(sha, v, other, parents)
    requires SignedFromJournals(one, VerifyShard(sha, v, one, parents).value, attempts, faulty)
    requires SignedFromJournals(other, VerifyShard(sha, v, other, parents).value, attempts, faulty)
    ensures |faulty * Consensus.Members(v.policy.validatorIds)| > Tolerance(v)
  {
    hide VerifyShard, Construct, Consensus.Journal, IsShardVote, Tolerance, Consensus.Members;
    ShardSigners(sha, v, one, parents);
    ShardSigners(sha, v, other, parents);
    var x, y, all := Consensus.Members(one.signers), Consensus.Members(other.signers), Consensus.Members(v.policy.validatorIds);
    forall s | s in x * y ensures s in faulty {
      if s !in faulty {
        OneShardPerJournal(attempts[s], one, other, VerifyShard(sha, v, one, parents).value, VerifyShard(sha, v, other, parents).value, s);
      }
    }
    SubsetSize(x + y, all);
    assert |x + y| == |x| + |y| - |x * y|;
    SubsetSize(x * y, faulty * all);
  }

  /** So a root over two or more cells cannot be certified in one view while at most f validators
      sign outside their journals, unless two shard certificates collide. */
  lemma WideRootNeedsFaults(sha: Bytes -> Digest, v: Verifier, root: RootQc, parents: Parents, required: seq<ShardKey>, shards: seq<ShardQc>,
                            attempts: map<string, seq<Protocol.Vote>>, faulty: set<string>)
    requires Construct(v.context, v.policy) == Ok(v) && VerifyRoot(sha, v, root, parents, required, shards).Ok?
    requires |required| >= 2 && |shards| >= 2 && CollisionFree(sha, {ShardInput(shards[0]), ShardInput(shards[1])})
    requires forall i :: 0 <= i < |shards| ==> SignedFromJournals(shards[i], ValueOf(ShardQcId(sha, shards[i])), attempts, faulty)
    ensures |faulty * Consensus.Members(v.policy.validatorIds)| > Tolerance(v)
  {
    hide Construct, ShardQcId, CollisionFree, ShardInput, SignedFromJournals, Tolerance, VerifyRoot, Consensus.Members, MerkleRoot, LeavesOk;
    RootMatchesMatrix(sha, v, root, parents, required, shards);
    VerifiedCell(sha, v, root, parents, required, shards, 0);
    VerifiedCell(sha, v, root, parents, required, shards, 1);
    assert required[0] != required[1];
    if ShardQcId(sha, shards[0]) == ShardQcId(sha, shards[1]) {
      SameShardId(sha, shards[0], shards[1], root.leaves[0].shardQcId);
    }
    TwoShardsNeedFaults(sha, v, parents, shards[0], shards[1], attempts, faulty);
  }

  lemma VerifiedCell(sha: Bytes -> Digest, v: Verifier, root: RootQc, parents: Parents, required: seq<ShardKey>, shards: seq<ShardQc>, i: nat)
    requires VerifyRoot(sha, v, root, parents, required, shards).Ok? && i < |required|
    ensures |shards| == |required| && VerifyShard(sha, v, shards[i], parents).Ok?
    ensures VerifyShard(sha, v, shards[i], parents) == ShardQcId(sha, shards[i])
  {
    hide KeysOrdered, Signers, SignerList, CheckContext, ContextValues, RootQcId, ShardQcId;
    assert CheckCell(sha, v, required[i], root.leaves[i], shards[i], parents).Ok?;
  }

  lemma VoteIsWellFormed(v: Verifier, vote: Protocol.Vote)
    requires ContextValues(v.context).Ok? && vote.roundId == v.context.roundId && vote.validatorEpochId == v.context.validatorEpochId
    requires IsContentId(vote.bodyHash) && IsContentId(vote.signatureId) && vote.durableSequence > 0 && vote.validatorId != ""
    requires vote.kind == KindName(ShardVote) && |vote.contextId| > 0 && vote.height == v.context.height
    ensures Consensus.CheckVote(vote).Ok?
  {
    hide IsContentId;
  }
}
