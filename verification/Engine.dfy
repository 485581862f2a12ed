/** `compute_candidate`: from parent state, profile and domain aggregates to an identified candidate. */
module Engine {
  import opened Base
  import opened Identity
  import opened Json
  import opened Merkle
  import opened Certificates
  import opened Apply
  import Protocol

  datatype Aggregate = Aggregate(domainId: string, values: seq<i64>)

  datatype Parent = Parent(checkpointId: string, optimizerId: string, model: seq<i64>, momentum: seq<i64>)

  // ----- hashes of vectors --------------------------------------------------

  function Transcript(values: seq<i64>): string {
    if values == [] then "" else SignedText(values[0]) + ([';'] + Transcript(values[1..]))
  }

  function HashInput(domain: string, values: seq<i64>): Bytes { Separated(domain, Ascii(Transcript(values))) }

  /** `values_hash`: the loop that builds the transcript. */
  method ValuesHash(sha: Bytes -> Digest, domain: string, values: seq<i64>) returns (id: string)
    ensures id == IdOf(sha(HashInput(domain, values)))
  {
    hide SignedText;
    var transcript := "";
    for k := 0 to |values|
      invariant transcript + Transcript(values[k..]) == Transcript(values)
    {
      assert values[k..][1..] == values[k + 1..];
      assert transcript + (SignedText(values[k]) + ([';'] + Transcript(values[k + 1..])))
          == (transcript + SignedText(values[k]) + [';']) + Transcript(values[k + 1..]);
      transcript := transcript + SignedText(values[k]) + [';'];
    }
    assert transcript + "" == transcript;
    id := IdOf(sha(Separated(domain, Ascii(transcript))));
  }

  lemma SignedTextIsClean(n: int)
    ensures Free(SignedText(n), ';') && Narrow(SignedText(n)) && SignedText(n) != ""
  {
    var d := Protocol.Decimal(if n < 0 then -n else n);
    assert forall i :: 0 <= i < |d| ==> Protocol.IsDigit(d[i]);
  }

  lemma {:induction false} TranscriptInjective(a: seq<i64>, b: seq<i64>)
    requires Transcript(a) == Transcript(b)
    ensures a == b
  {
    hide SignedText;
    if a != [] { SignedTextIsClean(a[0]); }
    if b != [] { SignedTextIsClean(b[0]); }
    if a != [] && b != [] {
      TextEnds(';', SignedText(a[0]), Transcript(a[1..]), SignedText(b[0]), Transcript(b[1..]));
      SignedTextInjective(a[0], b[0]);
      TranscriptInjective(a[1..], b[1..]);
      assert a == [a[0]] + a[1..] && b == [b[0]] + b[1..];
    }
  }

  lemma {:induction false} TranscriptIsNarrow(values: seq<i64>)
    ensures Narrow(Transcript(values))
  {
    hide SignedText;
    if values != [] {
      SignedTextIsClean(values[0]);
      TranscriptIsNarrow(values[1..]);
    }
  }

  /** Equal hashes name equal vectors, unless the two transcripts collide. */
  lemma EqualHashesEqualVectors(sha: Bytes -> Digest, domain: string, a: seq<i64>, b: seq<i64>)
    requires CollisionFree(sha, {HashInput(domain, a), HashInput(domain, b)})
    requires IdOf(sha(HashInput(domain, a))) == IdOf(sha(HashInput(domain, b)))
    ensures a == b
  {
    hide IdOf, Separated, Transcript;
    IdInjective(sha(HashInput(domain, a)), sha(HashInput(domain, b)));
    SeparatedInjective(domain, Ascii(Transcript(a)), Ascii(Transcript(b)));
    TranscriptIsNarrow(a);
    TranscriptIsNarrow(b);
    AsciiInjective(Transcript(a), Transcript(b));
    TranscriptInjective(a, b);
  }

  // ----- coverage ----------------------------------------------------------

  /** Aggregates and weights agree domain by domain and have the model's shape. */
  predicate Covered(weights: seq<DomainWeight>, aggregates: seq<Aggregate>, size: nat) {
    && |aggregates| == |weights| && aggregates != []
    && forall i :: 0 <= i < |aggregates| ==> aggregates[i].domainId == weights[i].domainId && |aggregates[i].values| == size
  }

  function SharesAt(weights: seq<DomainWeight>, aggregates: seq<Aggregate>, size: nat, coordinate: nat): seq<Share>
    requires Covered(weights, aggregates, size) && coordinate < size
  {
    seq(|weights|, i requires 0 <= i < |weights| => Share(aggregates[i].values[coordinate], weights[i].pi))
  }

  function UpdateAt(p: Profile, parent: Parent, aggregates: seq<Aggregate>, c: nat): Outcome<Update>
    requires c < |parent.model| == |parent.momentum| && Covered(p.domainWeights, aggregates, |parent.model|)
  {
    NextCoordinate(p, parent.model[c], parent.momentum[c], SharesAt(p.domainWeights, aggregates, |parent.model|, c))
  }

  predicate Computable(p: Profile, parent: Parent, aggregates: seq<Aggregate>) {
    && parent.model != [] && |parent.model| == |parent.momentum| && Covered(p.domainWeights, aggregates, |parent.model|)
    && forall c :: 0 <= c < |parent.model| ==> UpdateAt(p, parent, aggregates, c).Ok?
  }

  function NextModel(p: Profile, parent: Parent, aggregates: seq<Aggregate>): (r: seq<i64>)
    requires Computable(p, parent, aggregates)
    ensures |r| == |parent.model|
  {
    seq(|parent.model|, c requires 0 <= c < |parent.model| => UpdateAt(p, parent, aggregates, c).value.model)
  }

  function NextMomentum(p: Profile, parent: Parent, aggregates: seq<Aggregate>): (r: seq<i64>)
    requires Computable(p, parent, aggregates)
    ensures |r| == |parent.model|
  {
    seq(|parent.model|, c requires 0 <= c < |parent.model| => UpdateAt(p, parent, aggregates, c).value.momentum)
  }

  // ----- the candidate -----------------------------------------------------

  const MODEL: string := "deltareduce.008.model.v1"
  const OPTIMIZER: string := "deltareduce.008.optimizer.v1"

  function Texts(values: seq<i64>): (r: seq<string>)
    ensures |r| == |values|
  {
    seq(|values|, i requires 0 <= i < |values| => SignedText(values[i]))
  }

  function CandidateOf(sha: Bytes -> Digest, context: Context, rootQcId: string, profileId: string, parent: Parent,
                       model: seq<i64>, momentum: seq<i64>): Candidate {
    Candidate(context, rootQcId, profileId, IdOf(sha(HashInput(MODEL, model))), Texts(model),
              IdOf(sha(HashInput(OPTIMIZER, momentum))), Texts(momentum), parent.checkpointId, parent.optimizerId)
  }

  predicate ParentIdsOk(rootQcId: string, parent: Parent) {
    IsContentId(rootQcId) && IsContentId(parent.checkpointId) && IsContentId(parent.optimizerId)
  }

  /** The vectors of the coordinate loop. */
  method ComputeVectors(p: Profile, parent: Parent, aggregates: seq<Aggregate>) returns (r: Outcome<(seq<i64>, seq<i64>)>)
    ensures r.Ok? <==> Computable(p, parent, aggregates)
    ensures r.Ok? ==> r.value == (NextModel(p, parent, aggregates), NextMomentum(p, parent, aggregates))
  {
    hide NextCoordinate, SharesAt;
    if parent.model == [] || |parent.model| != |parent.momentum| { return Err(ArithmeticInvalid); }
    if |aggregates| != |p.domainWeights| || aggregates == [] { return Err(CoverageIncomplete); }
    for i := 0 to |aggregates|
      invariant forall j :: 0 <= j < i ==>
                  aggregates[j].domainId == p.domainWeights[j].domainId && |aggregates[j].values| == |parent.model|
    {
      if aggregates[i].domainId != p.domainWeights[i].domainId || |aggregates[i].values| != |parent.model| {
        return Err(CoverageIncomplete);
      }
    }
    var model: seq<i64>, momentum: seq<i64> := [], [];
    for c := 0 to |parent.model|
      invariant |model| == |momentum| == c
      invariant forall k :: 0 <= k < c ==> UpdateAt(p, parent, aggregates, k) == Ok(Update(momentum[k], model[k]))
    {
      var u := UpdateAt(p, parent, aggregates, c);
      if u.Err? { return Err(u.error); }
      momentum := momentum + [u.value.momentum];
      model := model + [u.value.model];
    }
    assert model == NextModel(p, parent, aggregates) && momentum == NextMomentum(p, parent, aggregates);
    r := Ok((model, momentum));
  }

  /** `compute_candidate`: identifiers, profile form, shapes, coverage, arithmetic and the candidate's own
      form and size all have to pass. */
  method ComputeCandidate(sha: Bytes -> Digest, context: Context, rootQcId: string, p: Profile, parent: Parent, aggregates: seq<Aggregate>)
    returns (r: Outcome<Candidate>)
    ensures r.Ok? <==>
              && ParentIdsOk(rootQcId, parent) && ProfileId(sha, p).Ok? && Computable(p, parent, aggregates)
              && CandidateId(sha, CandidateOf(sha, context, rootQcId, ProfileId(sha, p).value, parent,
                                              NextModel(p, parent, aggregates), NextMomentum(p, parent, aggregates))).Ok?
    ensures r.Ok? ==> r.value == CandidateOf(sha, context, rootQcId, ProfileId(sha, p).value, parent,
                                             NextModel(p, parent, aggregates), NextMomentum(p, parent, aggregates))
  {
    hide ProfileId, CandidateId, Computable, NextModel, NextMomentum, IsContentId, HashInput;
    if !ParentIdsOk(rootQcId, parent) { return Err(IdentifierInvalid); }
    var profileId := ProfileId(sha, p);
    if profileId.Err? { return Err(profileId.error); }
    var next := ComputeVectors(p, parent, aggregates);
    if next.Err? { return Err(next.error); }
    var modelHash := ValuesHash(sha, MODEL, next.value.0);
    var optimizerHash := ValuesHash(sha, OPTIMIZER, next.value.1);
    var candidate := Candidate(context, rootQcId, profileId.value, modelHash, Texts(next.value.0), optimizerHash,
                               Texts(next.value.1), parent.checkpointId, parent.optimizerId);
    var id := CandidateId(sha, candidate);
    if id.Err? { return Err(id.error); }
    r := Ok(candidate);
  }

  lemma PrintedIsDecimal(n: i64)
    ensures SignedDecimal(SignedText(n)).Ok?
  {
    var m: nat := if n < 0 then 0 - n else n;
    var d := Protocol.Decimal(m);
    Protocol.DecimalValueOfDecimal(m);
    if n < 0 {
      assert SignedText(n)[1..] == d;
      assert SignedText(n)[0] == '-';
    }
  }

  lemma IdentifierMeans(sha: Bytes -> Digest, p: Profile)
    requires ProfileId(sha, p).Ok?
    ensures IsContentId(ProfileId(sha, p).value)
  {
    hide IsContentId, ProfileForm, ProfileJson, Printable, Document;
  }

  /** Of the candidate's own form, only its context and the bound of 100,000 coordinates can fail. */
  lemma CandidateFormMeans(sha: Bytes -> Digest, context: Context, rootQcId: string, p: Profile, parent: Parent,
                           model: seq<i64>, momentum: seq<i64>)
    requires ParentIdsOk(rootQcId, parent) && ProfileId(sha, p).Ok? && 0 < |model| == |momentum|
    ensures CandidateForm(CandidateOf(sha, context, rootQcId, ProfileId(sha, p).value, parent, model, momentum)).Ok? <==>
            ContextValues(context).Ok? && |model| <= MAX_ENTRIES
  {
    hide ProfileId, IsContentId, SignedDecimal, SignedText, ContextValues, HashInput, IdOf;
    IdentifierMeans(sha, p);
    assert forall d: Digest :: IsContentId(IdOf(d));
    forall i | 0 <= i < |model| ensures SignedDecimal(Texts(model)[i]).Ok? && SignedDecimal(Texts(momentum)[i]).Ok? {
      PrintedIsDecimal(model[i]);
      PrintedIsDecimal(momentum[i]);
    }
  }

  /** The vectors of a candidate are, coordinate by coordinate, the Nesterov step over the exact
      weighted gradient. */
  lemma CandidateIsExact(p: Profile, parent: Parent, aggregates: seq<Aggregate>, c: nat)
    requires Computable(p, parent, aggregates) && c < |parent.model|
    ensures var shares := SharesAt(p.domainWeights, aggregates, |parent.model|, c);
            var gradient := Round(ExactSum(shares));
            var momentum := NextMomentum(p, parent, aggregates)[c];
            && momentum == Round(Times(parent.momentum[c], p.momentum)) + gradient
            && NextModel(p, parent, aggregates)[c] == parent.model[c]
                 - Round(Times(Round(Times(momentum, p.momentum)) + gradient + Round(Times(parent.model[c], p.weightDecay)), p.learningRate))
  {
    hide NextCoordinate, Round, Times, ExactSum, SharesAt;
    assert UpdateAt(p, parent, aggregates, c).Ok?;
    NextCoordinateExact(p, parent.model[c], parent.momentum[c], SharesAt(p.domainWeights, aggregates, |parent.model|, c));
  }
}
