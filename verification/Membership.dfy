/** When a verified input set has an eligibility certificate that the verifier accepts. */
module Membership {
  import opened Base
  import opened Identity
  import opened Json
  import opened Merkle
  import opened Certificates
  import opened Lineage
  import Protocol

  /** The certificate that accepts every member, under the input set's own signers. */
  function AcceptingAll(c: InputSet, id: string, normId: string): Eligibility {
    Eligibility(c.context, AcceptAll(c.tuples), id, normId, c.threshold, id, c.signers)
  }

  // ----- sizes -----------------------------------------------------------------

  lemma SmallNumbers()
    ensures |Protocol.Decimal(1)| == 1 && SignedText(0) == "0"
  {
    assert Protocol.Decimal(1) == "1" && Protocol.Decimal(0) == "0";
  }

  lemma RationalLength()
    ensures Length(RationalJson(Rational(0, 1))) == 33
  {
    hide SignedText;
    SmallNumbers();
    var f := RationalJson(Rational(0, 1)).fields;
    FieldsLengthAt(f, 0);
    FieldsLengthAt(f, 1);
    assert f[0..] == f && f[2..] == [];
    assert Length(f[0].value) == 1 && Length(f[1].value) == 3;
  }

  lemma ContentIdLength(s: string)
    requires IsContentId(s)
    ensures |s| == 71
  {
  }

  lemma TupleLength(t: InputTuple)
    requires IsContentId(t.availabilityId) && IsContentId(t.commitmentId)
    ensures Length(TupleJson(t)) == 225 + |t.domainId| + |t.ticketId|
  {
    hide FieldsLength, IsContentId;
    ContentIdLength(t.availabilityId);
    ContentIdLength(t.commitmentId);
    var f := TupleJson(t).fields;
    FourFields(f, 0);
    assert f[0..] == f && f[4..] == [];
    NoItems();
  }

  lemma EntryLength(e: EligibilityEntry)
    requires e.accepted && e.gamma == Rational(0, 1) && e.reasonCode == "ACCEPTED"
    ensures Length(EntryJson(e)) == 114 + |e.domainId| + |e.ticketId|
  {
    hide RationalJson, FieldsLength;
    RationalLength();
    var f := EntryJson(e).fields;
    FourFields(f, 0);
    FieldsLengthAt(f, 4);
    assert f[0..] == f && f[5..] == [];
    NoItems();
  }

  lemma {:induction false} MembersShrink(ts: seq<InputTuple>)
    requires forall i :: 0 <= i < |ts| ==> IsContentId(ts[i].availabilityId) && IsContentId(ts[i].commitmentId)
    ensures ItemsLength(Listed(ts, TupleJson).items) == ItemsLength(Listed(AcceptAll(ts), EntryJson).items) + 111 * |ts|
  {
    hide IsContentId, TupleJson, EntryJson, Length;
    if ts != [] {
      var es := AcceptAll(ts);
      var x, y := Listed(ts, TupleJson).items, Listed(es, EntryJson).items;
      MembersShrink(ts[1..]);
      assert AcceptAll(ts[1..]) == es[1..];
      assert x[1..] == Listed(ts[1..], TupleJson).items && y[1..] == Listed(es[1..], EntryJson).items;
      TupleLength(ts[0]);
      EntryLength(es[0]);
    }
  }

  lemma FourFields(f: seq<Field>, i: nat)
    requires i + 4 <= |f|
    ensures FieldsLength(f[i..]) == FieldLength(f[i]) + FieldLength(f[i + 1]) + FieldLength(f[i + 2]) + FieldLength(f[i + 3]) + FieldsLength(f[i + 4..])
  {
    hide FieldsLength, FieldLength;
    FieldsLengthAt(f, i);
    FieldsLengthAt(f, i + 1);
    FieldsLengthAt(f, i + 2);
    FieldsLengthAt(f, i + 3);
  }

  lemma FourteenFields(f: seq<Field>)
    requires |f| == 14
    ensures Length(Object(f)) == 1
      + (FieldLength(f[0]) + FieldLength(f[1]) + FieldLength(f[2]) + FieldLength(f[3]))
      + (FieldLength(f[4]) + FieldLength(f[5]) + FieldLength(f[6]) + FieldLength(f[7]))
      + (FieldLength(f[8]) + FieldLength(f[9]) + FieldLength(f[10]) + FieldLength(f[11])) + FieldLength(f[12]) + FieldLength(f[13])
  {
    hide FieldsLength, FieldLength;
    FourFields(f, 0);
    FourFields(f, 4);
    FourFields(f, 8);
    FieldsLengthAt(f, 12);
    FieldsLengthAt(f, 13);
    assert f[0..] == f && f[14..] == [];
    NoItems();
  }

  lemma SixteenFields(f: seq<Field>)
    requires |f| == 16
    ensures Length(Object(f)) == 1
      + (FieldLength(f[0]) + FieldLength(f[1]) + FieldLength(f[2]) + FieldLength(f[3]))
      + (FieldLength(f[4]) + FieldLength(f[5]) + FieldLength(f[6]) + FieldLength(f[7]))
      + (FieldLength(f[8]) + FieldLength(f[9]) + FieldLength(f[10]) + FieldLength(f[11]))
      + (FieldLength(f[12]) + FieldLength(f[13]) + FieldLength(f[14]) + FieldLength(f[15]))
  {
    hide FieldsLength, FieldLength;
    FourFields(f, 0);
    FourFields(f, 4);
    FourFields(f, 8);
    FourFields(f, 12);
    assert f[0..] == f && f[16..] == [];
    NoItems();
  }

  /** The certificate's own fields against the input set's own fields. */
  lemma OwnLengths(c: InputSet, id: string, normId: string)
    requires IsContentId(id) && IsContentId(normId) && IsContentId(c.inputRoot) && c.tuples != []
    requires forall i :: 0 <= i < |c.tuples| ==> IsContentId(c.tuples[i].availabilityId) && IsContentId(c.tuples[i].commitmentId)
    ensures FieldLength(Field("input_root", Text(c.inputRoot))) == 87
    ensures FieldLength(Field("entries", Listed(AcceptAll(c.tuples), EntryJson))) + 111 * |c.tuples| == FieldLength(Field("tuples", Listed(c.tuples, TupleJson))) + 1
    ensures FieldLength(Field("input_set_certificate_id", Text(id))) == 101 && FieldLength(Field("norm_evidence_id", Text(normId))) == 93
    ensures FieldLength(Field("robust_profile_id", Text(id))) == 94
    ensures FieldLength(Field("type_name", Text("ELIGIBILITY_CERTIFICATE"))) == FieldLength(Field("type_name", Text("INPUT_SET_CERTIFICATE"))) + 2
  {
    hide ItemsLength, TupleJson, EntryJson;
    MembersShrink(c.tuples);
    ListedLength(c.tuples, TupleJson);
    ListedLength(AcceptAll(c.tuples), EntryJson);
  }

  /** The accepting certificate is 111 bytes a member shorter, and 204 bytes longer once. */
  lemma AcceptingAllLength(c: InputSet, id: string, normId: string)
    requires IsContentId(id) && IsContentId(normId) && IsContentId(c.inputRoot) && c.tuples != []
    requires forall i :: 0 <= i < |c.tuples| ==> IsContentId(c.tuples[i].availabilityId) && IsContentId(c.tuples[i].commitmentId)
    ensures Length(EligibilityJson(AcceptingAll(c, id, normId))) + 111 * |c.tuples| == Length(InputSetJson(c)) + 204
  {
    hide InputSetJson, EligibilityJson, Length, FieldLength, AcceptAll, Listed, IsContentId;
    OwnLengths(c, id, normId);
    SameFields(c, id, normId);
    InputFields(c);
    OwnFields(AcceptingAll(c, id, normId));
    FourteenFields(InputSetJson(c).fields);
    SixteenFields(EligibilityJson(AcceptingAll(c, id, normId)).fields);
  }

  lemma ListedLength<T>(items: seq<T>, json: T -> Json)
    requires items != []
    ensures Length(Listed(items, json)) == 1 + ItemsLength(Listed(items, json).items)
  {
    hide ItemsLength;
  }

  // ----- printable ---------------------------------------------------------------

  lemma NewKeys()
    ensures Quotable("entries") && Quotable("input_set_certificate_id") && Quotable("norm_evidence_id") && Quotable("robust_profile_id") && Quotable("type_name")
  {
  }

  lemma EntryKeys()
    ensures Quotable("accepted") && Quotable("domain_id") && Quotable("gamma") && Quotable("reason_code") && Quotable("ticket_id")
  {
  }

  lemma NewTexts()
    ensures Quotable("denominator") && Quotable("numerator") && Quotable("ACCEPTED") && Quotable("ELIGIBILITY_CERTIFICATE") && Quotable("0")
  {
  }

  lemma ZeroIsPrintable()
    ensures Printable(RationalJson(Rational(0, 1)))
  {
    hide Quotable, SignedText;
    NewTexts();
    SmallNumbers();
    PrintableFieldsMeans(RationalJson(Rational(0, 1)).fields);
  }

  lemma EntryIsPrintable(e: EligibilityEntry)
    requires IsLabel(e.domainId) && IsLabel(e.ticketId) && e.gamma == Rational(0, 1) && e.reasonCode == "ACCEPTED"
    ensures Printable(EntryJson(e))
  {
    hide Quotable, RationalJson, IsLabel;
    EntryKeys();
    NewTexts();
    ZeroIsPrintable();
    LabelIsQuotable(e.domainId);
    LabelIsQuotable(e.ticketId);
    PrintableFieldsMeans(EntryJson(e).fields);
  }

  lemma EntriesArePrintable(ts: seq<InputTuple>)
    requires forall i :: 0 <= i < |ts| ==> IsLabel(ts[i].domainId) && IsLabel(ts[i].ticketId)
    ensures Printable(Listed(AcceptAll(ts), EntryJson))
  {
    hide Quotable, EntryJson, IsLabel;
    var es := AcceptAll(ts);
    var items := Listed(es, EntryJson).items;
    forall i | 0 <= i < |items| ensures Printable(items[i]) { EntryIsPrintable(es[i]); }
    PrintableItemsMeans(items);
  }

  lemma AcceptingAllIsPrintable(c: InputSet, id: string, normId: string)
    requires Printable(InputSetJson(c)) && IsContentId(id) && IsContentId(normId)
    requires forall i :: 0 <= i < |c.tuples| ==> IsLabel(c.tuples[i].domainId) && IsLabel(c.tuples[i].ticketId)
    ensures Printable(EligibilityJson(AcceptingAll(c, id, normId)))
  {
    hide Quotable, IsContentId, IsLabel, Listed, InputSetJson, EligibilityJson, AcceptAll, PrintableFields;
    SameFields(c, id, normId);
    InputFields(c);
    OwnFields(AcceptingAll(c, id, normId));
    var f, g := InputSetJson(c).fields, EligibilityJson(AcceptingAll(c, id, normId)).fields;
    PrintableFieldsMeans(f);
    ContentIdIsQuotable(id);
    ContentIdIsQuotable(normId);
    NewKeys();
    NewTexts();
    EntriesArePrintable(c.tuples);
    PrintableFieldsMeans(g);
  }

  lemma FieldCounts(c: InputSet, ec: Eligibility)
    ensures InputSetJson(c).Object? && |InputSetJson(c).fields| == 14
    ensures EligibilityJson(ec).Object? && |EligibilityJson(ec).fields| == 16
  {
    hide Listed, Strings;
  }

  predicate AgreeBelow(f: seq<Field>, g: seq<Field>)
    requires |f| == 14 && |g| == 16
  {
    g[0] == f[0] && g[2] == f[1] && g[3] == f[2] && g[6] == f[4] && g[7] == f[5]
  }

  predicate AgreeAbove(f: seq<Field>, g: seq<Field>)
    requires |f| == 14 && |g| == 16
  {
    g[9] == f[6] && g[10] == f[7] && g[11] == f[8] && g[12] == f[9] && g[14] == f[12] && g[15] == f[13]
  }

  /** The fields of the certificate that the input set has too. */
  lemma SameFields(c: InputSet, id: string, normId: string)
    ensures var f, g := InputSetJson(c), EligibilityJson(AcceptingAll(c, id, normId));
            && f.Object? && |f.fields| == 14 && g.Object? && |g.fields| == 16
            && AgreeBelow(f.fields, g.fields) && AgreeAbove(f.fields, g.fields)
  {
    hide InputSetJson, EligibilityJson, AgreeBelow, AgreeAbove;
    FieldCounts(c, AcceptingAll(c, id, normId));
    SameFieldsBelow(c, id, normId);
    SameFieldsAbove(c, id, normId);
  }

  lemma SameFieldsBelow(c: InputSet, id: string, normId: string)
    ensures var f, g := InputSetJson(c), EligibilityJson(AcceptingAll(c, id, normId));
            f.Object? && |f.fields| == 14 && g.Object? && |g.fields| == 16 && AgreeBelow(f.fields, g.fields)
  {
    hide Listed, Strings;
  }

  lemma SameFieldsAbove(c: InputSet, id: string, normId: string)
    ensures var f, g := InputSetJson(c), EligibilityJson(AcceptingAll(c, id, normId));
            f.Object? && |f.fields| == 14 && g.Object? && |g.fields| == 16 && AgreeAbove(f.fields, g.fields)
  {
    hide Listed, Strings;
  }

  /** The fields of the input set alone. */
  lemma InputFields(c: InputSet)
    ensures var f := InputSetJson(c);
            && f.Object? && |f.fields| == 14
            && f.fields[3] == Field("input_root", Text(c.inputRoot)) && f.fields[10] == Field("tuples", Listed(c.tuples, TupleJson))
            && f.fields[11] == Field("type_name", Text("INPUT_SET_CERTIFICATE"))
  {
    hide Listed, Strings;
  }

  /** The fields of the certificate alone. */
  lemma OwnFields(ec: Eligibility)
    ensures var g := EligibilityJson(ec);
            && g.Object? && |g.fields| == 16
            && g.fields[1] == Field("entries", Listed(ec.entries, EntryJson))
            && g.fields[4] == Field("input_set_certificate_id", Text(ec.inputSetId))
            && g.fields[5] == Field("norm_evidence_id", Text(ec.normEvidenceId))
            && g.fields[8] == Field("robust_profile_id", Text(ec.robustProfileId))
            && g.fields[13] == Field("type_name", Text("ELIGIBILITY_CERTIFICATE"))
  {
    hide Listed, Strings;
  }

  // ----- the verifier --------------------------------------------------------------

  lemma VerifiedParts(sha: Bytes -> Digest, v: Verifier, c: InputSet)
    requires VerifyInputSet(sha, v, c).Ok?
    ensures InputSetForm(c).Ok? && Printable(InputSetJson(c)) && |Document(InputSetJson(c))| <= MAX_CONTRACT_BYTES
    ensures CheckContext(c.context, v.context).Ok? && Signers(v, c.signers, c.threshold).Ok?
    ensures IsContentId(VerifyInputSet(sha, v, c).value)
  {
    hide InputSetForm, Printable, Document, CheckContext, Signers, IsContentId, InputSetJson;
  }

  lemma FormParts(c: InputSet)
    requires InputSetForm(c).Ok?
    ensures ContextValues(c.context).Ok? && SignerList(c.signers, c.threshold).Ok? && IsContentId(c.inputRoot) && c.tuples != []
    ensures forall i :: 0 <= i < |c.tuples| ==> TupleForm(c.tuples[i]).Ok?
  {
    hide ContextValues, SignerList, IsContentId, TuplesOrdered, TupleForm;
  }

  lemma TupleParts(ts: seq<InputTuple>)
    requires forall i :: 0 <= i < |ts| ==> TupleForm(ts[i]).Ok?
    ensures forall i :: 0 <= i < |ts| ==> IsContentId(ts[i].availabilityId) && IsContentId(ts[i].commitmentId)
    ensures forall i :: 0 <= i < |ts| ==> IsLabel(ts[i].domainId) && IsLabel(ts[i].ticketId)
  {
    hide IsContentId, IsLabel;
    forall i | 0 <= i < |ts| ensures IsContentId(ts[i].availabilityId) && IsContentId(ts[i].commitmentId)
      ensures IsLabel(ts[i].domainId) && IsLabel(ts[i].ticketId)
    {
      assert TupleForm(ts[i]).Ok?;
    }
  }

  lemma AcceptingAllVerifies(sha: Bytes -> Digest, v: Verifier, c: InputSet, normId: string)
    requires VerifyInputSet(sha, v, c).Ok? && DistinctTickets(c.tuples) && IsContentId(normId)
    requires |c.tuples| >= 2 || |Document(InputSetJson(c))| + 93 <= MAX_CONTRACT_BYTES
    ensures VerifyEligibility(sha, v, AcceptingAll(c, VerifyInputSet(sha, v, c).value, normId), c, normId).Ok?
  {
    hide VerifyInputSet, InputSetForm, Printable, Document, CheckContext, Signers, IsContentId, InputSetJson, EligibilityJson, EntriesForm,
      ContextValues, SignerList, DistinctTickets, SameMembers, AcceptAll, TupleForm, Length, IsLabel;
    var id := VerifyInputSet(sha, v, c).value;
    var ec := AcceptingAll(c, id, normId);
    VerifiedParts(sha, v, c);
    FormParts(c);
    TupleParts(c.tuples);
    EntriesIffDistinct(c);
    AcceptingAllIsPrintable(c, id, normId);
    AcceptingAllLength(c, id, normId);
    DocumentLength(InputSetJson(c));
    DocumentLength(EligibilityJson(ec));
  }

  /** A verified input set has an eligibility certificate that the verifier accepts if and only if its
      tickets are pairwise distinct and the norm evidence is named by a content identifier. A single
      member makes the certificate 93 bytes longer than the input set, so there the size bound counts. */
  lemma EligibleIffDistinct(sha: Bytes -> Digest, v: Verifier, c: InputSet, normId: string)
    requires VerifyInputSet(sha, v, c).Ok?
    ensures (exists ec :: VerifyEligibility(sha, v, ec, c, normId).Ok?) ==> DistinctTickets(c.tuples) && IsContentId(normId)
    ensures |c.tuples| >= 2 || |Document(InputSetJson(c))| + 93 <= MAX_CONTRACT_BYTES ==>
      ((exists ec :: VerifyEligibility(sha, v, ec, c, normId).Ok?) <==> DistinctTickets(c.tuples) && IsContentId(normId))
  {
    hide VerifyEligibility, VerifyInputSet, DistinctTickets, IsContentId, Document, InputSetJson;
    if DistinctTickets(c.tuples) && IsContentId(normId) && (|c.tuples| >= 2 || |Document(InputSetJson(c))| + 93 <= MAX_CONTRACT_BYTES) {
      AcceptingAllVerifies(sha, v, c, normId);
    }
    if ec :| VerifyEligibility(sha, v, ec, c, normId).Ok? {
      VerifiedTicketsAreDistinct(sha, v, ec, c, normId);
      VerifiedNorm(sha, v, ec, c, normId);
    }
  }

  lemma VerifiedNorm(sha: Bytes -> Digest, v: Verifier, ec: Eligibility, c: InputSet, normId: string)
    requires VerifyEligibility(sha, v, ec, c, normId).Ok?
    ensures IsContentId(normId)
  {
    hide VerifyInputSet, CheckContext, Signers, SameMembers, EligibilityJson, Printable, Document, EntriesForm, SignerList, ContextValues, IsContentId;
  }
}
