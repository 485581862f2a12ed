/** The certificates of one round and the canonical form each must have before it gets an identifier. */
module Certificates {
  import opened Base
  import opened Identity
  import opened Json
  import opened Merkle
  import Protocol

  type Check = Result<(), CertificateError>

  datatype Context = Context(
    arithmeticProfileId: string, height: u64, parameterSchemaId: string, roundConfigId: string,
    roundId: string, validatorEpochId: string, view: u64)

  datatype Rational = Rational(numerator: i64, denominator: u64)

  datatype InputTuple = InputTuple(availabilityId: string, commitmentId: string, domainId: string, ticketId: string)

  datatype InputSet = InputSet(
    context: Context, inputRoot: string, threshold: u32, signers: seq<string>, tuples: seq<InputTuple>)

  datatype EligibilityEntry = EligibilityEntry(
    accepted: bool, domainId: string, gamma: Rational, reasonCode: string, ticketId: string)

  datatype Eligibility = Eligibility(
    context: Context, entries: seq<EligibilityEntry>, inputSetId: string, normEvidenceId: string, threshold: u32,
    robustProfileId: string, signers: seq<string>)

  datatype BucketAssignment = BucketAssignment(bucketId: string, ticketId: string)
  datatype Weight = Weight(alpha: Rational, ticketId: string)

  datatype Plan = Plan(
    context: Context, accumulatorProofId: string, buckets: seq<BucketAssignment>, eligibilityId: string,
    inputSetId: string, iterationCount: u32, threshold: u32, seedTranscriptId: string, signers: seq<string>,
    transcriptRoot: string, weights: seq<Weight>)

  datatype ShardKey = ShardKey(domainId: string, shardId: string)

  datatype ShardQc = ShardQc(
    context: Context, planId: string, denominator: u64, domainId: string, eligibilityId: string,
    inputLeafIds: seq<string>, inputSetId: string, threshold: u32, numerators: seq<string>, shardId: string,
    signers: seq<string>)

  datatype RootQc = RootQc(
    context: Context, planId: string, eligibilityId: string, inputSetId: string, leaves: seq<RootLeaf>,
    merkleRoot: string, threshold: u32, requiredKeys: seq<ShardKey>, signers: seq<string>)

  datatype Candidate = Candidate(
    context: Context, rootQcId: string, profileId: string, nextModelHash: string, nextModelValues: seq<string>,
    nextOptimizerHash: string, nextOptimizerValues: seq<string>, parentCheckpointId: string,
    parentOptimizerHash: string)

  datatype ApplyQc = ApplyQc(
    context: Context, rootQcId: string, profileId: string, candidateId: string, nextModelHash: string,
    nextOptimizerHash: string, parentCheckpointId: string, threshold: u32, signers: seq<string>)

  datatype DomainWeight = DomainWeight(domainId: string, pi: Rational)

  datatype Profile = Profile(
    accumulatorProofId: string, domainWeights: seq<DomainWeight>, learningRate: Rational, momentum: Rational,
    nesterov: bool, rounding: string, weightDecay: Rational)

  datatype PointerCommand = PointerCommand(
    context: Context, applyQcId: string, expectedParent: string, nextCheckpoint: string, nextOptimizer: string)

  // ----- shared checks -----------------------------------------------------

  function Content(s: string): Check { Require(IsContentId(s), IdentifierInvalid) }
  function Label(s: string): Check { Require(IsLabel(s), IdentifierInvalid) }
  function Bounded(n: nat): Check { Require(0 < n <= MAX_ENTRIES, LimitExceeded) }

  /** The first error in the list. */
  function Each<T>(items: seq<T>, check: T -> Check): (r: Check)
    ensures r.Ok? <==> forall i :: 0 <= i < |items| ==> check(items[i]).Ok?
  {
    if items == [] then Ok(())
    else
      var _ :- check(items[0]);
      assert forall i :: 0 < i < |items| ==> items[i] == items[1..][i - 1];
      Each(items[1..], check)
  }

  function Gcd(a: nat, b: nat): nat
    decreases b
  {
    if b == 0 then a else Gcd(b, a % b)
  }

  function Magnitude(x: int): nat { if x < 0 then -x else x }

  /** `validate_rational` with its `non_negative` flag set. */
  function NonNegative(q: Rational): Check {
    var _ :- Require(q.denominator > 0, ArithmeticInvalid);
    var _ :- Require(q.numerator >= 0, ArithmeticInvalid);
    Require(Gcd(Magnitude(q.numerator), q.denominator) == 1, ArithmeticInvalid)
  }

  /** `require_decimal`: an int64 for `std::from_chars`; "-05" passes. */
  function SignedDecimal(s: string): Check {
    var _ :- Require(s != "" && (s == "0" || (s[0] != '0' && s != "-0")), ArithmeticInvalid);
    var digits := if s[0] == '-' then s[1..] else s;
    var _ :- Require(digits != "" && Protocol.AllDigits(digits), ArithmeticInvalid);
    var value := Protocol.DecimalValue(digits);
    Require(if s[0] == '-' then value <= TWO_63 else value < TWO_63, ArithmeticInvalid)
  }

  function ContextValues(c: Context): Check {
    var _ :- Content(c.arithmeticProfileId);
    var _ :- Require(c.height > 0, ContextMismatch);
    var _ :- Content(c.parameterSchemaId);
    var _ :- Content(c.roundConfigId);
    var _ :- Label(c.roundId);
    Content(c.validatorEpochId)
  }

  function SignerList(signers: seq<string>, threshold: u32): Check {
    var _ :- Bounded(|signers|);
    var _ :- Require(threshold > 0 && |signers| >= threshold, QuorumInvalid);
    var _ :- Require(StrictlySorted(signers), OrderInvalid);
    Each(signers, Label)
  }

  /** `std::tie(a, b) < std::tie(c, d)`. */
  predicate PairLess(a: string, b: string, c: string, d: string) {
    StringLess(a, c) || (a == c && StringLess(b, d))
  }

  predicate TuplesOrdered(ts: seq<InputTuple>) {
    forall i :: 0 < i < |ts| ==> PairLess(ts[i - 1].ticketId, ts[i - 1].commitmentId, ts[i].ticketId, ts[i].commitmentId)
  }

  predicate KeysOrdered(keys: seq<ShardKey>) {
    forall i :: 0 < i < |keys| ==> PairLess(keys[i - 1].domainId, keys[i - 1].shardId, keys[i].domainId, keys[i].shardId)
  }

  function LeafKeys(leaves: seq<RootLeaf>): (keys: seq<ShardKey>)
    ensures |keys| == |leaves|
  {
    seq(|leaves|, i requires 0 <= i < |leaves| => ShardKey(leaves[i].domainId, leaves[i].shardId))
  }

  function EntryTickets(es: seq<EligibilityEntry>): (r: seq<string>)
    ensures |r| == |es|
  {
    seq(|es|, i requires 0 <= i < |es| => es[i].ticketId)
  }

  function BucketTickets(bs: seq<BucketAssignment>): (r: seq<string>)
    ensures |r| == |bs|
  {
    seq(|bs|, i requires 0 <= i < |bs| => bs[i].ticketId)
  }

  function WeightTickets(ws: seq<Weight>): (r: seq<string>)
    ensures |r| == |ws|
  {
    seq(|ws|, i requires 0 <= i < |ws| => ws[i].ticketId)
  }

  // ----- canonical form of each certificate ---------------------------------

  function TupleForm(t: InputTuple): Check {
    var _ :- Content(t.availabilityId);
    var _ :- Content(t.commitmentId);
    var _ :- Label(t.domainId);
    Label(t.ticketId)
  }

  function InputSetForm(c: InputSet): Check {
    var _ :- ContextValues(c.context);
    var _ :- Content(c.inputRoot);
    var _ :- SignerList(c.signers, c.threshold);
    var _ :- Bounded(|c.tuples|);
    var _ :- Require(TuplesOrdered(c.tuples), OrderInvalid);
    Each(c.tuples, TupleForm)
  }

  function EntryForm(e: EligibilityEntry): Check {
    var _ :- Label(e.domainId);
    var _ :- NonNegative(e.gamma);
    var _ :- Label(e.reasonCode);
    Label(e.ticketId)
  }

  function EntriesForm(es: seq<EligibilityEntry>): Check {
    var _ :- Bounded(|es|);
    var _ :- Require(StrictlySorted(EntryTickets(es)), OrderInvalid);
    Each(es, EntryForm)
  }

  function EligibilityForm(c: Eligibility): Check {
    var _ :- ContextValues(c.context);
    var _ :- Content(c.inputSetId);
    var _ :- Content(c.normEvidenceId);
    var _ :- Content(c.robustProfileId);
    var _ :- SignerList(c.signers, c.threshold);
    EntriesForm(c.entries)
  }

  function BucketForm(b: BucketAssignment): Check {
    var _ :- Label(b.bucketId);
    Label(b.ticketId)
  }

  function WeightForm(w: Weight): Check {
    var _ :- NonNegative(w.alpha);
    Label(w.ticketId)
  }

  function PlanForm(c: Plan): Check {
    var _ :- ContextValues(c.context);
    var _ :- Content(c.accumulatorProofId);
    var _ :- Content(c.eligibilityId);
    var _ :- Content(c.inputSetId);
    var _ :- Content(c.seedTranscriptId);
    var _ :- Content(c.transcriptRoot);
    var _ :- Require(c.iterationCount > 0, ArithmeticInvalid);
    var _ :- SignerList(c.signers, c.threshold);
    var _ :- Bounded(|c.buckets|);
    var _ :- Bounded(|c.weights|);
    var _ :- Require(StrictlySorted(BucketTickets(c.buckets)), OrderInvalid);
    var _ :- Require(StrictlySorted(WeightTickets(c.weights)), OrderInvalid);
    var _ :- Each(c.buckets, BucketForm);
    Each(c.weights, WeightForm)
  }

  function ShardForm(c: ShardQc): Check {
    var _ :- ContextValues(c.context);
    var _ :- Content(c.planId);
    var _ :- Content(c.eligibilityId);
    var _ :- Content(c.inputSetId);
    var _ :- Require(c.denominator > 0, ArithmeticInvalid);
    var _ :- Label(c.domainId);
    var _ :- Label(c.shardId);
    var _ :- SignerList(c.signers, c.threshold);
    var _ :- Bounded(|c.inputLeafIds|);
    var _ :- Bounded(|c.numerators|);
    var _ :- Require(StrictlySorted(c.inputLeafIds), OrderInvalid);
    var _ :- Each(c.inputLeafIds, Content);
    Each(c.numerators, SignedDecimal)
  }

  function KeyForm(k: ShardKey): Check {
    var _ :- Label(k.domainId);
    Label(k.shardId)
  }

  /** `aggregate_merkle_root` as a function; the method in `Merkle` computes the same outcome. */
  function CheckedRoot(sha: Bytes -> Digest, leaves: seq<RootLeaf>): Result<string, CertificateError> {
    var _ :- Bounded(|leaves|);
    var _ :- Require(LeavesOk(leaves), IdentifierInvalid);
    Ok(MerkleRoot(sha, leaves))
  }

  function RootForm(sha: Bytes -> Digest, c: RootQc): Check {
    var _ :- ContextValues(c.context);
    var _ :- Content(c.planId);
    var _ :- Content(c.eligibilityId);
    var _ :- Content(c.inputSetId);
    var _ :- Content(c.merkleRoot);
    var _ :- SignerList(c.signers, c.threshold);
    var _ :- Bounded(|c.leaves|);
    var _ :- Bounded(|c.requiredKeys|);
    var _ :- Require(KeysOrdered(c.requiredKeys), OrderInvalid);
    var _ :- Require(KeysOrdered(LeafKeys(c.leaves)), OrderInvalid);
    var root :- CheckedRoot(sha, c.leaves);
    var _ :- Require(c.merkleRoot == root, CoverageIncomplete);
    Each(c.requiredKeys, KeyForm)
  }

  function CandidateForm(c: Candidate): Check {
    var _ :- ContextValues(c.context);
    var _ :- Content(c.rootQcId);
    var _ :- Content(c.profileId);
    var _ :- Content(c.nextModelHash);
    var _ :- Content(c.nextOptimizerHash);
    var _ :- Content(c.parentCheckpointId);
    var _ :- Content(c.parentOptimizerHash);
    var _ :- Bounded(|c.nextModelValues|);
    var _ :- Require(|c.nextOptimizerValues| == |c.nextModelValues|, ArithmeticInvalid);
    var _ :- Each(c.nextModelValues, SignedDecimal);
    Each(c.nextOptimizerValues, SignedDecimal)
  }

  function ApplyQcForm(c: ApplyQc): Check {
    var _ :- ContextValues(c.context);
    var _ :- Content(c.rootQcId);
    var _ :- Content(c.profileId);
    var _ :- Content(c.candidateId);
    var _ :- Content(c.nextModelHash);
    var _ :- Content(c.nextOptimizerHash);
    var _ :- Content(c.parentCheckpointId);
    SignerList(c.signers, c.threshold)
  }

  function DomainIds(ws: seq<DomainWeight>): (r: seq<string>)
    ensures |r| == |ws|
  {
    seq(|ws|, i requires 0 <= i < |ws| => ws[i].domainId)
  }

  function DomainWeightForm(w: DomainWeight): Check {
    var _ :- Label(w.domainId);
    NonNegative(w.pi)
  }

  function ProfileForm(c: Profile): Check {
    var _ :- Content(c.accumulatorProofId);
    var _ :- Bounded(|c.domainWeights|);
    var _ :- Require(StrictlySorted(DomainIds(c.domainWeights)), OrderInvalid);
    var _ :- Each(c.domainWeights, DomainWeightForm);
    var _ :- NonNegative(c.learningRate);
    var _ :- NonNegative(c.momentum);
    var _ :- NonNegative(c.weightDecay);
    var _ :- Require(c.nesterov, ArithmeticInvalid);
    Require(c.rounding == "HALF_TOWARD_POSITIVE", ArithmeticInvalid)
  }

  function PointerCommandForm(c: PointerCommand): Check {
    var _ :- ContextValues(c.context);
    var _ :- Content(c.applyQcId);
    var _ :- Content(c.expectedParent);
    var _ :- Content(c.nextCheckpoint);
    Content(c.nextOptimizer)
  }

  // ----- JSON --------------------------------------------------------------

  const FORMAL: Json := Text(Protocol.FORMAL_SEMANTICS_ID)
  const VERSION: Json := Text("1.0.0")

  function Strings(values: seq<string>): Json {
    List(seq(|values|, i requires 0 <= i < |values| => Text(values[i])))
  }

  function RationalJson(q: Rational): Json {
    Object([Field("denominator", Number(q.denominator)), Field("numerator", Text(SignedText(q.numerator)))])
  }

  function TupleJson(t: InputTuple): Json {
    Object([Field("availability_certificate_id", Text(t.availabilityId)), Field("commitment_id", Text(t.commitmentId)),
            Field("domain_id", Text(t.domainId)), Field("ticket_id", Text(t.ticketId))])
  }

  function EntryJson(e: EligibilityEntry): Json {
    Object([Field("accepted", Truth(e.accepted)), Field("domain_id", Text(e.domainId)), Field("gamma", RationalJson(e.gamma)),
            Field("reason_code", Text(e.reasonCode)), Field("ticket_id", Text(e.ticketId))])
  }

  function BucketJson(b: BucketAssignment): Json {
    Object([Field("bucket_id", Text(b.bucketId)), Field("ticket_id", Text(b.ticketId))])
  }

  function WeightJson(w: Weight): Json {
    Object([Field("alpha", RationalJson(w.alpha)), Field("ticket_id", Text(w.ticketId))])
  }

  function KeyJson(k: ShardKey): Json {
    Object([Field("domain_id", Text(k.domainId)), Field("shard_id", Text(k.shardId))])
  }

  function DomainWeightJson(w: DomainWeight): Json {
    Object([Field("domain_id", Text(w.domainId)), Field("pi", RationalJson(w.pi))])
  }

  function Listed<T>(items: seq<T>, json: T -> Json): Json {
    List(seq(|items|, i requires 0 <= i < |items| => json(items[i])))
  }

  function InputSetJson(c: InputSet): Json {
    Object([Field("arithmetic_profile_id", Text(c.context.arithmeticProfileId)), Field("formal_semantics_id", FORMAL),
            Field("height", Number(c.context.height)), Field("input_root", Text(c.inputRoot)),
            Field("parameter_schema_id", Text(c.context.parameterSchemaId)), Field("quorum_threshold", Number(c.threshold)),
            Field("round_config_id", Text(c.context.roundConfigId)), Field("round_id", Text(c.context.roundId)),
            Field("schema_version", VERSION), Field("signer_ids", Strings(c.signers)), Field("tuples", Listed(c.tuples, TupleJson)),
            Field("type_name", Text("INPUT_SET_CERTIFICATE")), Field("validator_epoch_id", Text(c.context.validatorEpochId)),
            Field("view", Number(c.context.view))])
  }

  function EligibilityJson(c: Eligibility): Json {
    Object([Field("arithmetic_profile_id", Text(c.context.arithmeticProfileId)), Field("entries", Listed(c.entries, EntryJson)),
            Field("formal_semantics_id", FORMAL), Field("height", Number(c.context.height)),
            Field("input_set_certificate_id", Text(c.inputSetId)), Field("norm_evidence_id", Text(c.normEvidenceId)),
            Field("parameter_schema_id", Text(c.context.parameterSchemaId)), Field("quorum_threshold", Number(c.threshold)),
            Field("robust_profile_id", Text(c.robustProfileId)), Field("round_config_id", Text(c.context.roundConfigId)),
            Field("round_id", Text(c.context.roundId)), Field("schema_version", VERSION), Field("signer_ids", Strings(c.signers)),
            Field("type_name", Text("ELIGIBILITY_CERTIFICATE")), Field("validator_epoch_id", Text(c.context.validatorEpochId)),
            Field("view", Number(c.context.view))])
  }

  function PlanJson(c: Plan): Json {
    Object([Field("accumulator_proof_id", Text(c.accumulatorProofId)),
            Field("arithmetic_profile_id", Text(c.context.arithmeticProfileId)),
            Field("bucket_assignments", Listed(c.buckets, BucketJson)), Field("eligibility_certificate_id", Text(c.eligibilityId)),
            Field("formal_semantics_id", FORMAL), Field("height", Number(c.context.height)),
            Field("input_set_certificate_id", Text(c.inputSetId)), Field("iteration_count", Number(c.iterationCount)),
            Field("parameter_schema_id", Text(c.context.parameterSchemaId)), Field("quorum_threshold", Number(c.threshold)),
            Field("round_config_id", Text(c.context.roundConfigId)), Field("round_id", Text(c.context.roundId)),
            Field("schema_version", VERSION), Field("seed_transcript_id", Text(c.seedTranscriptId)),
            Field("signer_ids", Strings(c.signers)), Field("transcript_root", Text(c.transcriptRoot)),
            Field("type_name", Text("AGGREGATION_PLAN_CERTIFICATE")), Field("validator_epoch_id", Text(c.context.validatorEpochId)),
            Field("view", Number(c.context.view)), Field("weights", Listed(c.weights, WeightJson))])
  }

  function ShardQcJson(c: ShardQc): Json {
    Object([Field("aggregation_plan_certificate_id", Text(c.planId)),
            Field("arithmetic_profile_id", Text(c.context.arithmeticProfileId)), Field("denominator", Number(c.denominator)),
            Field("domain_id", Text(c.domainId)), Field("eligibility_certificate_id", Text(c.eligibilityId)),
            Field("formal_semantics_id", FORMAL), Field("height", Number(c.context.height)),
            Field("input_leaf_ids", Strings(c.inputLeafIds)), Field("input_set_certificate_id", Text(c.inputSetId)),
            Field("parameter_schema_id", Text(c.context.parameterSchemaId)), Field("quorum_threshold", Number(c.threshold)),
            Field("result_numerators", Strings(c.numerators)), Field("round_config_id", Text(c.context.roundConfigId)),
            Field("round_id", Text(c.context.roundId)), Field("schema_version", VERSION), Field("shard_id", Text(c.shardId)),
            Field("signer_ids", Strings(c.signers)), Field("type_name", Text("PARAMETER_SHARD_QC")),
            Field("validator_epoch_id", Text(c.context.validatorEpochId)), Field("view", Number(c.context.view))])
  }

  function RootQcJson(c: RootQc): Json {
    Object([Field("aggregation_plan_certificate_id", Text(c.planId)),
            Field("arithmetic_profile_id", Text(c.context.arithmeticProfileId)),
            Field("eligibility_certificate_id", Text(c.eligibilityId)), Field("formal_semantics_id", FORMAL),
            Field("height", Number(c.context.height)), Field("input_set_certificate_id", Text(c.inputSetId)),
            Field("leaves", Listed(c.leaves, LeafJson)), Field("merkle_root", Text(c.merkleRoot)),
            Field("parameter_schema_id", Text(c.context.parameterSchemaId)), Field("quorum_threshold", Number(c.threshold)),
            Field("required_keys", Listed(c.requiredKeys, KeyJson)), Field("round_config_id", Text(c.context.roundConfigId)),
            Field("round_id", Text(c.context.roundId)), Field("schema_version", VERSION), Field("signer_ids", Strings(c.signers)),
            Field("type_name", Text("AGGREGATE_ROOT_QC")), Field("validator_epoch_id", Text(c.context.validatorEpochId)),
            Field("view", Number(c.context.view))])
  }

  function ProfileJson(c: Profile): Json {
    Object([Field("accumulator_proof_id", Text(c.accumulatorProofId)), Field("domain_weights", Listed(c.domainWeights, DomainWeightJson)),
            Field("formal_semantics_id", FORMAL), Field("learning_rate", RationalJson(c.learningRate)),
            Field("momentum", RationalJson(c.momentum)), Field("nesterov", Truth(c.nesterov)), Field("rounding", Text(c.rounding)),
            Field("schema_version", VERSION), Field("type_name", Text("APPLY_ARITHMETIC_PROFILE")),
            Field("weight_decay", RationalJson(c.weightDecay))])
  }

  function CandidateJson(c: Candidate): Json {
    Object([Field("aggregate_root_qc_id", Text(c.rootQcId)), Field("apply_arithmetic_profile_id", Text(c.profileId)),
            Field("arithmetic_profile_id", Text(c.context.arithmeticProfileId)), Field("formal_semantics_id", FORMAL),
            Field("height", Number(c.context.height)), Field("next_model_hash", Text(c.nextModelHash)),
            Field("next_model_values", Strings(c.nextModelValues)), Field("next_optimizer_hash", Text(c.nextOptimizerHash)),
            Field("next_optimizer_values", Strings(c.nextOptimizerValues)),
            Field("parameter_schema_id", Text(c.context.parameterSchemaId)), Field("parent_checkpoint_id", Text(c.parentCheckpointId)),
            Field("parent_optimizer_hash", Text(c.parentOptimizerHash)), Field("round_config_id", Text(c.context.roundConfigId)),
            Field("round_id", Text(c.context.roundId)), Field("schema_version", VERSION), Field("type_name", Text("APPLY_CANDIDATE")),
            Field("validator_epoch_id", Text(c.context.validatorEpochId)), Field("view", Number(c.context.view))])
  }

  function ApplyQcJson(c: ApplyQc): Json {
    Object([Field("aggregate_root_qc_id", Text(c.rootQcId)), Field("apply_arithmetic_profile_id", Text(c.profileId)),
            Field("apply_candidate_id", Text(c.candidateId)), Field("arithmetic_profile_id", Text(c.context.arithmeticProfileId)),
            Field("formal_semantics_id", FORMAL), Field("height", Number(c.context.height)),
            Field("next_model_hash", Text(c.nextModelHash)), Field("next_optimizer_hash", Text(c.nextOptimizerHash)),
            Field("parameter_schema_id", Text(c.context.parameterSchemaId)), Field("parent_checkpoint_id", Text(c.parentCheckpointId)),
            Field("quorum_threshold", Number(c.threshold)), Field("round_config_id", Text(c.context.roundConfigId)),
            Field("round_id", Text(c.context.roundId)), Field("schema_version", VERSION), Field("signer_ids", Strings(c.signers)),
            Field("type_name", Text("APPLY_QC")), Field("validator_epoch_id", Text(c.context.validatorEpochId)),
            Field("view", Number(c.context.view))])
  }

  function PointerCommandJson(c: PointerCommand): Json {
    Object([Field("apply_qc_id", Text(c.applyQcId)), Field("arithmetic_profile_id", Text(c.context.arithmeticProfileId)),
            Field("expected_parent_checkpoint_id", Text(c.expectedParent)), Field("formal_semantics_id", FORMAL),
            Field("height", Number(c.context.height)), Field("next_checkpoint_id", Text(c.nextCheckpoint)),
            Field("next_optimizer_hash", Text(c.nextOptimizer)), Field("parameter_schema_id", Text(c.context.parameterSchemaId)),
            Field("round_config_id", Text(c.context.roundConfigId)), Field("round_id", Text(c.context.roundId)),
            Field("schema_version", VERSION), Field("type_name", Text("CURRENT_POINTER_COMMAND")),
            Field("validator_epoch_id", Text(c.context.validatorEpochId)), Field("view", Number(c.context.view))])
  }

  // ----- the JSON determines the certificate ---------------------------------

  ghost predicate Injective<T(!new)>(json: T -> Json) {
    forall x, y :: json(x) == json(y) ==> x == y
  }

  lemma ListedInjective<T(!new)>(a: seq<T>, b: seq<T>, json: T -> Json)
    requires Injective(json) && Listed(a, json) == Listed(b, json)
    ensures a == b
  {
    var x, y := Listed(a, json).items, Listed(b, json).items;
    assert |a| == |x| == |y| == |b|;
    forall i | 0 <= i < |a| ensures a[i] == b[i] { assert x[i] == y[i]; }
  }

  lemma StringsInjective(a: seq<string>, b: seq<string>)
    requires Strings(a) == Strings(b)
    ensures a == b
  {
    var x, y := Strings(a).items, Strings(b).items;
    assert |a| == |x| == |y| == |b|;
    forall i | 0 <= i < |a| ensures a[i] == b[i] { assert x[i] == y[i]; }
  }

  lemma RationalInjective(a: Rational, b: Rational)
    requires RationalJson(a) == RationalJson(b)
    ensures a == b
  {
    hide SignedText;
    var f, g := RationalJson(a).fields, RationalJson(b).fields;
    assert f[0] == g[0] && f[1] == g[1];
    SignedTextInjective(a.numerator, b.numerator);
  }

  lemma PartsInjective()
    ensures Injective(TupleJson) && Injective(EntryJson) && Injective(BucketJson) && Injective(WeightJson)
    ensures Injective(KeyJson) && Injective(DomainWeightJson) && Injective(LeafJson)
  {
    hide RationalJson;
    forall x: InputTuple, y: InputTuple | TupleJson(x) == TupleJson(y) ensures x == y {
      var f, g := TupleJson(x).fields, TupleJson(y).fields;
      assert f[0] == g[0] && f[1] == g[1] && f[2] == g[2] && f[3] == g[3];
    }
    forall x: EligibilityEntry, y: EligibilityEntry | EntryJson(x) == EntryJson(y) ensures x == y {
      var f, g := EntryJson(x).fields, EntryJson(y).fields;
      assert f[0] == g[0] && f[1] == g[1] && f[2] == g[2] && f[3] == g[3] && f[4] == g[4];
      RationalInjective(x.gamma, y.gamma);
    }
    forall x: BucketAssignment, y: BucketAssignment | BucketJson(x) == BucketJson(y) ensures x == y {
      var f, g := BucketJson(x).fields, BucketJson(y).fields;
      assert f[0] == g[0] && f[1] == g[1];
    }
    forall x: Weight, y: Weight | WeightJson(x) == WeightJson(y) ensures x == y {
      var f, g := WeightJson(x).fields, WeightJson(y).fields;
      assert f[0] == g[0] && f[1] == g[1];
      RationalInjective(x.alpha, y.alpha);
    }
    forall x: ShardKey, y: ShardKey | KeyJson(x) == KeyJson(y) ensures x == y {
      var f, g := KeyJson(x).fields, KeyJson(y).fields;
      assert f[0] == g[0] && f[1] == g[1];
    }
    forall x: DomainWeight, y: DomainWeight | DomainWeightJson(x) == DomainWeightJson(y) ensures x == y {
      var f, g := DomainWeightJson(x).fields, DomainWeightJson(y).fields;
      assert f[0] == g[0] && f[1] == g[1];
      RationalInjective(x.pi, y.pi);
    }
    forall x: RootLeaf, y: RootLeaf | LeafJson(x) == LeafJson(y) ensures x == y {
      var f, g := LeafJson(x).fields, LeafJson(y).fields;
      assert f[0] == g[0] && f[1] == g[1] && f[2] == g[2];
    }
  }

  lemma InputSetInjective(a: InputSet, b: InputSet)
    requires InputSetJson(a) == InputSetJson(b)
    ensures a == b
  {
    hide Listed, Strings, Injective;
    var f, g := InputSetJson(a).fields, InputSetJson(b).fields;
    assert f[0] == g[0] && f[2] == g[2] && f[3] == g[3] && f[4] == g[4] && f[5] == g[5] && f[6] == g[6] && f[7] == g[7];
    assert f[9] == g[9] && f[10] == g[10] && f[12] == g[12] && f[13] == g[13];
    StringsInjective(a.signers, b.signers);
    PartsInjective();
    ListedInjective(a.tuples, b.tuples, TupleJson);
  }

  lemma EligibilityInjective(a: Eligibility, b: Eligibility)
    requires EligibilityJson(a) == EligibilityJson(b)
    ensures a == b
  {
    hide Listed, Strings, Injective;
    var f, g := EligibilityJson(a).fields, EligibilityJson(b).fields;
    assert f[0] == g[0] && f[1] == g[1] && f[3] == g[3] && f[4] == g[4] && f[5] == g[5] && f[6] == g[6] && f[7] == g[7];
    assert f[8] == g[8] && f[9] == g[9] && f[10] == g[10] && f[12] == g[12] && f[14] == g[14] && f[15] == g[15];
    StringsInjective(a.signers, b.signers);
    PartsInjective();
    ListedInjective(a.entries, b.entries, EntryJson);
  }

  lemma PlanInjective(a: Plan, b: Plan)
    requires PlanJson(a) == PlanJson(b)
    ensures a == b
  {
    hide Listed, Strings, Injective;
    var f, g := PlanJson(a).fields, PlanJson(b).fields;
    assert f[0] == g[0] && f[1] == g[1] && f[2] == g[2] && f[3] == g[3] && f[5] == g[5] && f[6] == g[6] && f[7] == g[7];
    assert f[8] == g[8] && f[9] == g[9] && f[10] == g[10] && f[11] == g[11] && f[13] == g[13] && f[14] == g[14];
    assert f[15] == g[15] && f[17] == g[17] && f[18] == g[18] && f[19] == g[19];
    StringsInjective(a.signers, b.signers);
    PartsInjective();
    ListedInjective(a.buckets, b.buckets, BucketJson);
    ListedInjective(a.weights, b.weights, WeightJson);
  }

  lemma ShardQcInjective(a: ShardQc, b: ShardQc)
    requires ShardQcJson(a) == ShardQcJson(b)
    ensures a == b
  {
    hide Strings;
    var f, g := ShardQcJson(a).fields, ShardQcJson(b).fields;
    assert f[0] == g[0] && f[1] == g[1] && f[2] == g[2] && f[3] == g[3] && f[4] == g[4] && f[6] == g[6] && f[7] == g[7];
    assert f[8] == g[8] && f[9] == g[9] && f[10] == g[10] && f[11] == g[11] && f[12] == g[12] && f[13] == g[13];
    assert f[15] == g[15] && f[16] == g[16] && f[18] == g[18] && f[19] == g[19];
    StringsInjective(a.signers, b.signers);
    StringsInjective(a.inputLeafIds, b.inputLeafIds);
    StringsInjective(a.numerators, b.numerators);
  }

  lemma RootQcInjective(a: RootQc, b: RootQc)
    requires RootQcJson(a) == RootQcJson(b)
    ensures a == b
  {
    hide Listed, Strings, Injective, LeafJson;
    var f, g := RootQcJson(a).fields, RootQcJson(b).fields;
    assert f[0] == g[0] && f[1] == g[1] && f[2] == g[2] && f[4] == g[4] && f[5] == g[5] && f[6] == g[6] && f[7] == g[7];
    assert f[8] == g[8] && f[9] == g[9] && f[10] == g[10] && f[11] == g[11] && f[12] == g[12] && f[14] == g[14];
    assert f[16] == g[16] && f[17] == g[17];
    StringsInjective(a.signers, b.signers);
    PartsInjective();
    ListedInjective(a.leaves, b.leaves, LeafJson);
    ListedInjective(a.requiredKeys, b.requiredKeys, KeyJson);
  }

  lemma CandidateInjective(a: Candidate, b: Candidate)
    requires CandidateJson(a) == CandidateJson(b)
    ensures a == b
  {
    hide Strings;
    var f, g := CandidateJson(a).fields, CandidateJson(b).fields;
    assert f[0] == g[0] && f[1] == g[1] && f[2] == g[2] && f[4] == g[4] && f[5] == g[5] && f[6] == g[6] && f[7] == g[7];
    assert f[8] == g[8] && f[9] == g[9] && f[10] == g[10] && f[11] == g[11] && f[12] == g[12] && f[13] == g[13];
    assert f[16] == g[16] && f[17] == g[17];
    StringsInjective(a.nextModelValues, b.nextModelValues);
    StringsInjective(a.nextOptimizerValues, b.nextOptimizerValues);
  }

  // ----- identifiers -------------------------------------------------------

  const MAX_CONTRACT_BYTES: nat := 4 * 1024 * 1024

  /** `content_id`: the form, then the quoted strings, then the size. */
  function Identify(sha: Bytes -> Digest, form: Check, domain: string, json: Json): Result<string, CertificateError> {
    var _ :- form;
    var _ :- Require(Printable(json), IdentifierInvalid);
    var _ :- Require(|Document(json)| <= MAX_CONTRACT_BYTES, LimitExceeded);
    Ok(IdOf(sha(Separated(domain, Document(json)))))
  }

  const INPUT_SET: string := "deltareduce.008.input-set-certificate.v1"
  const ELIGIBILITY: string := "deltareduce.008.eligibility-certificate.v1"
  const PLAN: string := "deltareduce.008.aggregation-plan-certificate.v1"
  const SHARD_QC: string := "deltareduce.008.parameter-shard-qc.v1"
  const ROOT_QC: string := "deltareduce.008.aggregate-root-qc.v1"
  const PROFILE: string := "deltareduce.008.apply-arithmetic-profile.v1"
  const CANDIDATE: string := "deltareduce.008.apply-candidate.v1"
  const APPLY_QC: string := "deltareduce.008.apply-qc.v1"
  const POINTER_COMMAND: string := "deltareduce.008.current-pointer-command.v1"

  function InputSetId(sha: Bytes -> Digest, c: InputSet): Result<string, CertificateError> {
    Identify(sha, InputSetForm(c), INPUT_SET, InputSetJson(c))
  }

  function EligibilityId(sha: Bytes -> Digest, c: Eligibility): Result<string, CertificateError> {
    Identify(sha, EligibilityForm(c), ELIGIBILITY, EligibilityJson(c))
  }

  function PlanId(sha: Bytes -> Digest, c: Plan): Result<string, CertificateError> {
    Identify(sha, PlanForm(c), PLAN, PlanJson(c))
  }

  function ShardQcId(sha: Bytes -> Digest, c: ShardQc): Result<string, CertificateError> {
    Identify(sha, ShardForm(c), SHARD_QC, ShardQcJson(c))
  }

  function RootQcId(sha: Bytes -> Digest, c: RootQc): Result<string, CertificateError> {
    Identify(sha, RootForm(sha, c), ROOT_QC, RootQcJson(c))
  }

  function ProfileId(sha: Bytes -> Digest, c: Profile): Result<string, CertificateError> {
    Identify(sha, ProfileForm(c), PROFILE, ProfileJson(c))
  }

  function CandidateId(sha: Bytes -> Digest, c: Candidate): Result<string, CertificateError> {
    Identify(sha, CandidateForm(c), CANDIDATE, CandidateJson(c))
  }

  function ApplyQcId(sha: Bytes -> Digest, c: ApplyQc): Result<string, CertificateError> {
    Identify(sha, ApplyQcForm(c), APPLY_QC, ApplyQcJson(c))
  }

  function PointerCommandId(sha: Bytes -> Digest, c: PointerCommand): Result<string, CertificateError> {
    Identify(sha, PointerCommandForm(c), POINTER_COMMAND, PointerCommandJson(c))
  }

  /** Equal identifiers of one type name equal JSON, unless the two strings hashed collide. */
  lemma SameIdSameJson(sha: Bytes -> Digest, domain: string, f: Check, x: Json, g: Check, y: Json)
    requires Identify(sha, f, domain, x).Ok? && Identify(sha, f, domain, x) == Identify(sha, g, domain, y)
    requires CollisionFree(sha, {Separated(domain, Document(x)), Separated(domain, Document(y))})
    ensures x == y
  {
    hide IdOf, Separated, Document, Printable;
    IdInjective(sha(Separated(domain, Document(x))), sha(Separated(domain, Document(y))));
    SeparatedInjective(domain, Document(x), Document(y));
    DocumentInjective(x, y);
  }

  /** Certificates of one kind with one identifier are the same certificate, unless the two strings
      hashed collide. */
  lemma SameInputSet(sha: Bytes -> Digest, a: InputSet, b: InputSet)
    requires InputSetId(sha, a).Ok? && InputSetId(sha, a) == InputSetId(sha, b)
    requires CollisionFree(sha, {Separated(INPUT_SET, Document(InputSetJson(a))), Separated(INPUT_SET, Document(InputSetJson(b)))})
    ensures a == b
  {
    hide Identify, InputSetForm, InputSetJson, Document, CollisionFree;
    SameIdSameJson(sha, INPUT_SET, InputSetForm(a), InputSetJson(a), InputSetForm(b), InputSetJson(b));
    InputSetInjective(a, b);
  }

  lemma SameEligibility(sha: Bytes -> Digest, a: Eligibility, b: Eligibility)
    requires EligibilityId(sha, a).Ok? && EligibilityId(sha, a) == EligibilityId(sha, b)
    requires CollisionFree(sha, {Separated(ELIGIBILITY, Document(EligibilityJson(a))), Separated(ELIGIBILITY, Document(EligibilityJson(b)))})
    ensures a == b
  {
    hide Identify, EligibilityForm, EligibilityJson, Document, CollisionFree;
    SameIdSameJson(sha, ELIGIBILITY, EligibilityForm(a), EligibilityJson(a), EligibilityForm(b), EligibilityJson(b));
    EligibilityInjective(a, b);
  }

  lemma SamePlan(sha: Bytes -> Digest, a: Plan, b: Plan)
    requires PlanId(sha, a).Ok? && PlanId(sha, a) == PlanId(sha, b)
    requires CollisionFree(sha, {Separated(PLAN, Document(PlanJson(a))), Separated(PLAN, Document(PlanJson(b)))})
    ensures a == b
  {
    hide Identify, PlanForm, PlanJson, Document, CollisionFree;
    SameIdSameJson(sha, PLAN, PlanForm(a), PlanJson(a), PlanForm(b), PlanJson(b));
    PlanInjective(a, b);
  }

  lemma SameShardQc(sha: Bytes -> Digest, a: ShardQc, b: ShardQc)
    requires ShardQcId(sha, a).Ok? && ShardQcId(sha, a) == ShardQcId(sha, b)
    requires CollisionFree(sha, {Separated(SHARD_QC, Document(ShardQcJson(a))), Separated(SHARD_QC, Document(ShardQcJson(b)))})
    ensures a == b
  {
    hide Identify, ShardForm, ShardQcJson, Document, CollisionFree;
    SameIdSameJson(sha, SHARD_QC, ShardForm(a), ShardQcJson(a), ShardForm(b), ShardQcJson(b));
    ShardQcInjective(a, b);
  }

  lemma SameRootQc(sha: Bytes -> Digest, a: RootQc, b: RootQc)
    requires RootQcId(sha, a).Ok? && RootQcId(sha, a) == RootQcId(sha, b)
    requires CollisionFree(sha, {Separated(ROOT_QC, Document(RootQcJson(a))), Separated(ROOT_QC, Document(RootQcJson(b)))})
    ensures a == b
  {
    hide Identify, RootForm, RootQcJson, Document, CollisionFree;
    SameIdSameJson(sha, ROOT_QC, RootForm(sha, a), RootQcJson(a), RootForm(sha, b), RootQcJson(b));
    RootQcInjective(a, b);
  }

  lemma SameCandidate(sha: Bytes -> Digest, a: Candidate, b: Candidate)
    requires CandidateId(sha, a).Ok? && CandidateId(sha, a) == CandidateId(sha, b)
    requires CollisionFree(sha, {Separated(CANDIDATE, Document(CandidateJson(a))), Separated(CANDIDATE, Document(CandidateJson(b)))})
    ensures a == b
  {
    hide Identify, CandidateForm, CandidateJson, Document, CollisionFree;
    SameIdSameJson(sha, CANDIDATE, CandidateForm(a), CandidateJson(a), CandidateForm(b), CandidateJson(b));
    CandidateInjective(a, b);
  }
}
