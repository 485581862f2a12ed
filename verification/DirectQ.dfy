/** The direct-q accumulator and what a validated proof instance guarantees about it. */
module DirectQ {
  import opened Base
  import opened Arithmetic
  import opened Bounds

  type i16 = x: int | -0x8000 <= x < 0x8000

  const MAX_WIDTH: nat := 1_048_576 / 2

  datatype Contribution = Contribution(coefficient: i64, values: seq<i16>)

  datatype State = State(values: seq<Limbs>, count: nat)

  /** The signed `fits_width`. */
  function FitsWidth(x: Limbs, w: Width): (fits: bool)
    ensures fits <==> (w == Int64 ==> Fits64(Signed(x)))
  {
    w == Int128 || (Compare(x, FromI64(-TWO_63)) >= 0 && Compare(x, FromI64(TWO_63 - 1)) <= 0)
  }

  /** One coordinate: a checked product, a checked sum, both within the width. */
  function AddCoordinate(x: Limbs, coefficient: i64, q: i16, w: Width): Result<Limbs, ContractError> {
    match CheckedMultiply(FromI64(coefficient), FromI64(q))
    case Err(_) => Err(Overflow)
    case Ok(term) =>
      match CheckedAdd(x, term)
      case Err(_) => Err(Overflow)
      case Ok(sum) => if FitsWidth(term, w) && FitsWidth(sum, w) then Ok(sum) else Err(BoundUnsafe)
  }

  /** The coordinates in order; the first failure wins. */
  function AddRow(xs: seq<Limbs>, c: Contribution, w: Width): (r: Result<seq<Limbs>, ContractError>)
    requires |xs| == |c.values|
    ensures r.Ok? ==> |r.value| == |xs|
  {
    if xs == [] then Ok([])
    else
      var n := |xs| - 1;
      var front :- AddRow(xs[..n], c.(values := c.values[..n]), w);
      var last :- AddCoordinate(xs[n], c.coefficient, c.values[n], w);
      Ok(front + [last])
  }

  function CheckCoefficient(c: i64, p: ProofRequest): Result<(), ContractError> {
    var _ :- Require(c != -TWO_63, BoundUnsafe);
    Require(Abs(c) <= p.coefficientMax, BoundUnsafe)
  }

  function CheckValues(values: seq<i16>): Result<(), ContractError> {
    var _ :- Require(0 < |values| <= MAX_WIDTH, QValueOutOfRange);
    Require(forall i :: 0 <= i < |values| ==> -Q_MAX <= values[i] <= Q_MAX, QValueOutOfRange)
  }

  /** `DirectQAccumulator::add`. */
  function Add(p: ProofRequest, s: State, c: Contribution): Result<State, ContractError> {
    var _ :- CheckCoefficient(c.coefficient, p);
    var _ :- CheckValues(c.values);
    if |c.values| != |s.values| then Err(ProofInstanceInvalid)
    else
      var _ :- Require(s.count < p.contributions, BoundUnsafe);
      var values :- AddRow(s.values, c, p.width);
      Ok(State(values, s.count + 1))
  }

  function AddAll(p: ProofRequest, s: State, cs: seq<Contribution>): Result<State, ContractError> {
    if cs == [] then Ok(s)
    else
      var before :- AddAll(p, s, cs[..|cs| - 1]);
      Add(p, before, cs[|cs| - 1])
  }

  function Zero(n: nat): State { State(seq(n, _ => FromI64(0)), 0) }

  /** The loop of `add` over a copy of the accumulator. */
  method BuildRow(xs: seq<Limbs>, c: Contribution, w: Width) returns (r: Result<seq<Limbs>, ContractError>)
    requires |xs| == |c.values|
    ensures r == AddRow(xs, c, w)
  {
    hide AddCoordinate, AddRow;
    var next := xs;
    EmptyRow(c, w);
    for index := 0 to |c.values|
      invariant |next| == |xs| && forall i :: index <= i < |xs| ==> next[i] == xs[i]
      invariant AddRow(xs[..index], c.(values := c.values[..index]), w) == Ok(next[..index])
    {
      RowStep(xs, c, w, index);
      var sum := AddCoordinate(next[index], c.coefficient, c.values[index], w);
      if sum.Err? {
        RowFails(xs, c, w, index + 1);
        return Err(sum.error);
      }
      assert next[index := sum.value][..index + 1] == next[..index] + [sum.value];
      next := next[index := sum.value];
    }
    assert xs[..|xs|] == xs && c.values[..|xs|] == c.values && next[..|xs|] == next;
    r := Ok(next);
  }

  lemma EmptyRow(c: Contribution, w: Width)
    ensures AddRow([], c.(values := []), w) == Ok([])
  {
  }

  lemma RowStep(xs: seq<Limbs>, c: Contribution, w: Width, k: nat)
    requires k < |xs| == |c.values|
    ensures AddRow(xs[..k + 1], c.(values := c.values[..k + 1]), w)
         == match AddRow(xs[..k], c.(values := c.values[..k]), w)
            case Err(e) => Err(e)
            case Ok(front) =>
              match AddCoordinate(xs[k], c.coefficient, c.values[k], w)
              case Err(e) => Err(e)
              case Ok(last) => Ok(front + [last])
  {
    hide AddCoordinate;
    PrefixOfPrefix(xs, c, k);
  }

  class DirectQAccumulator {
    const instance: ConcreteProof
    var values: seq<Limbs>
    var count: u64

    constructor (instance: ConcreteProof, elements: nat)
      ensures this.instance == instance && View() == Zero(elements)
    {
      this.instance := instance;
      values, count := seq(elements, _ => FromI64(0)), 0;
    }

    /** The checks of the constructor. What they are worth to a caller: the declared bounds are the true
        ones and every run of contributions within the declared ranges will be accepted, exactly when
        the proof's own product did not wrap. */
    method Validated(metadataMatches: bool, identityMatches: bool) returns (r: Result<(), ContractError>)
      ensures r.Ok? <==>
                ValidateConcrete(instance, metadataMatches, identityMatches).Ok? && 0 < |values| <= MAX_WIDTH
      ensures var proof := instance.request; r.Ok? ==>
                && ((forall cs :: Declared(proof, |values|, cs) ==> AddAll(proof, Zero(|values|), cs).Ok?) <==> Trusted(proof))
                && (Trusted(proof) ==>
                      && Signed(instance.product) == Largest(proof)
                      && Signed(instance.prefix) == Largest(proof) * proof.contributions
                      && Signed(instance.final) == Signed(instance.prefix) + Signed(proof.headroom) <= WidthLimit(proof.width))
    {
      hide Declared, AddAll, ValidateProof, Trusted, Signed;
      var checked := ValidateConcrete(instance, metadataMatches, identityMatches);
      if checked.Err? { return Err(checked.error); }
      if !(0 < |values| <= MAX_WIDTH) { return Err(QValueOutOfRange); }
      AllDeclaredAcceptedIffTrusted(instance.request, |values|);
      if Trusted(instance.request) { DeclaredBoundsAreExact(instance); }
      r := Ok(());
    }

    ghost function View(): State
      reads this
    {
      State(values, count)
    }

    /** A rejected contribution changes nothing: the row is built in a copy. */
    method AddContribution(c: Contribution) returns (r: Result<(), ContractError>)
      modifies this
      ensures match Add(instance.request, old(View()), c)
              case Ok(s) => r == Ok(()) && View() == s
              case Err(e) => r == Err(e) && View() == old(View())
    {
      hide AddRow, CheckValues, CheckCoefficient;
      var coefficient := CheckCoefficient(c.coefficient, instance.request);
      if coefficient.Err? { return Err(coefficient.error); }
      var checked := CheckValues(c.values);
      if checked.Err? { return Err(checked.error); }
      if |c.values| != |values| { return Err(ProofInstanceInvalid); }
      if count >= instance.request.contributions { return Err(BoundUnsafe); }
      var next := BuildRow(values, c, instance.request.width);
      if next.Err? { return Err(next.error); }
      values := next.value;
      count := count + 1;
      r := Ok(());
    }
  }

  lemma PrefixOfPrefix(xs: seq<Limbs>, c: Contribution, k: nat)
    requires k < |xs| == |c.values|
    ensures xs[..k + 1][..k] == xs[..k] && c.values[..k + 1][..k] == c.values[..k]
  {
  }

  lemma {:induction false} RowFails(xs: seq<Limbs>, c: Contribution, w: Width, k: nat)
    requires k <= |xs| == |c.values| && AddRow(xs[..k], c.(values := c.values[..k]), w).Err?
    ensures AddRow(xs, c, w) == Err(AddRow(xs[..k], c.(values := c.values[..k]), w).error)
    decreases |xs|
  {
    hide AddCoordinate;
    if k == |xs| {
      assert xs[..k] == xs && c.values[..k] == c.values;
    } else {
      var n := |xs| - 1;
      assert xs[..n][..k] == xs[..k] && c.values[..n][..k] == c.values[..k];
      RowFails(xs[..n], c.(values := c.values[..n]), w, k);
    }
  }

  // ----- accepted sums are exact -------------------------------------------

  function TermAt(c: Contribution, i: nat): int {
    if i < |c.values| then c.coefficient * c.values[i] else 0
  }

  /** The exact sum of coefficient times q at one coordinate. */
  function Total(cs: seq<Contribution>, i: nat): int {
    if cs == [] then 0 else Total(cs[..|cs| - 1], i) + TermAt(cs[|cs| - 1], i)
  }

  lemma CoordinateOutcome(x: Limbs, c: i64, q: i16, w: Width)
    ensures var r := AddCoordinate(x, c, q, w); var sum := Signed(x) + c * q;
            && (r.Ok? <==> Fits128(sum) && (w == Int64 ==> Fits64(c * q) && Fits64(sum)))
            && (r.Ok? ==> Signed(r.value) == sum)
  {
    hide CheckedMultiply, MultiplyWraps, CheckedAdd, Signed, FitsWidth;
    SmallProduct(c, q, TWO_63, 0x8000);
    MultiplyOutcome(FromI64(c), FromI64(q));
  }

  predicate RowFits(xs: seq<Limbs>, c: Contribution, w: Width)
    requires |xs| == |c.values|
  {
    forall i :: 0 <= i < |xs| ==> AddCoordinate(xs[i], c.coefficient, c.values[i], w).Ok?
  }

  lemma {:induction false} RowOutcome(xs: seq<Limbs>, c: Contribution, w: Width)
    requires |xs| == |c.values|
    ensures AddRow(xs, c, w).Ok? <==> RowFits(xs, c, w)
    ensures AddRow(xs, c, w).Ok? ==> forall i :: 0 <= i < |xs| ==>
              Ok(AddRow(xs, c, w).value[i]) == AddCoordinate(xs[i], c.coefficient, c.values[i], w)
  {
    hide AddCoordinate;
    if xs != [] {
      var n := |xs| - 1;
      var front := c.(values := c.values[..n]);
      RowOutcome(xs[..n], front, w);
      assert forall i :: 0 <= i < n ==> xs[..n][i] == xs[i] && front.values[i] == c.values[i];
      if RowFits(xs, c, w) { assert RowFits(xs[..n], front, w); }
    }
  }

  /** Every contribution has the accumulator's width. */
  predicate SameWidth(cs: seq<Contribution>, n: nat) {
    forall k :: 0 <= k < |cs| ==> |cs[k].values| == n
  }

  lemma AddExact(p: ProofRequest, s: State, c: Contribution)
    requires Add(p, s, c).Ok?
    ensures var after := Add(p, s, c).value;
            && |c.values| == |s.values| == |after.values| && after.count == s.count + 1
            && forall i :: 0 <= i < |s.values| ==> Signed(after.values[i]) == Signed(s.values[i]) + c.coefficient * c.values[i]
  {
    hide AddCoordinate, AddRow, Signed;
    RowOutcome(s.values, c, p.width);
    forall i | 0 <= i < |s.values|
      ensures Signed(Add(p, s, c).value.values[i]) == Signed(s.values[i]) + c.coefficient * c.values[i]
    {
      CoordinateOutcome(s.values[i], c.coefficient, c.values[i], p.width);
    }
  }

  /** Whatever the proof says, a run of accepted contributions holds the exact sums. */
  lemma {:induction false} AcceptedIsExact(p: ProofRequest, s: State, cs: seq<Contribution>)
    requires AddAll(p, s, cs).Ok?
    ensures SameWidth(cs, |s.values|)
    ensures var after := AddAll(p, s, cs).value;
            && |after.values| == |s.values| && after.count == s.count + |cs|
            && forall i :: 0 <= i < |s.values| ==> Signed(after.values[i]) == Signed(s.values[i]) + Total(cs, i)
  {
    hide Add, Signed;
    if cs != [] {
      var front, last := cs[..|cs| - 1], cs[|cs| - 1];
      AcceptedIsExact(p, s, front);
      var before := AddAll(p, s, front).value;
      AddExact(p, before, last);
      assert forall k :: 0 <= k < |front| ==> front[k] == cs[k];
    }
  }

  // ----- declared contributions are accepted -------------------------------

  /** Within the declared coefficient, value and count ranges. */
  predicate Declared(p: ProofRequest, n: nat, cs: seq<Contribution>) {
    && |cs| <= p.contributions && SameWidth(cs, n)
    && forall k :: 0 <= k < |cs| ==> WithinRange(p, cs[k])
  }

  predicate WithinRange(p: ProofRequest, c: Contribution) {
    Abs(c.coefficient) <= p.coefficientMax && forall i :: 0 <= i < |c.values| ==> -Q_MAX <= c.values[i] <= Q_MAX
  }

  lemma TermWithin(p: ProofRequest, c: Contribution, i: nat)
    requires WithinRange(p, c) && i < |c.values|
    ensures Abs(c.coefficient * c.values[i]) <= Largest(p)
  {
    SmallProduct(c.coefficient, c.values[i], p.coefficientMax, Q_MAX);
  }

  lemma {:induction false} TotalWithin(p: ProofRequest, n: nat, cs: seq<Contribution>, i: nat)
    requires Declared(p, n, cs) && i < n
    ensures Abs(Total(cs, i)) <= Largest(p) * |cs|
  {
    if cs != [] {
      var front, last := cs[..|cs| - 1], cs[|cs| - 1];
      assert forall k :: 0 <= k < |front| ==> front[k] == cs[k];
      TotalWithin(p, n, front, i);
      assert WithinRange(p, last);
      TermWithin(p, last, i);
      OneMore(Largest(p), |front|);
    }
  }

  lemma OneMore(a: nat, k: nat)
    ensures a * (k + 1) == a * k + a
  {
  }

  /** Products and all prefix sums fit the width, so the next contribution is accepted. */
  lemma NextIsAccepted(p: ProofRequest, n: nat, cs: seq<Contribution>, s: State, c: Contribution)
    requires 0 < n <= MAX_WIDTH && Declared(p, n, cs + [c]) && p.coefficientMax < TWO_63
    requires Largest(p) * p.contributions <= WidthLimit(p.width)
    requires AddAll(p, Zero(n), cs) == Ok(s)
    ensures Add(p, s, c).Ok?
  {
    hide AddRow, AddCoordinate, Signed, AddAll, Largest;
    AcceptedIsExact(p, Zero(n), cs);
    assert (cs + [c])[|cs|] == c && (cs + [c])[..|cs|] == cs;
    assert WithinRange(p, c) && |c.values| == n;
    forall i | 0 <= i < n ensures AddCoordinate(s.values[i], c.coefficient, c.values[i], p.width).Ok? {
      TotalWithin(p, n, cs + [c], i);
      TermWithin(p, c, i);
      Grows(Largest(p), |cs| + 1, p.contributions);
      Grows(Largest(p), 1, p.contributions);
      CoordinateOutcome(s.values[i], c.coefficient, c.values[i], p.width);
    }
    RowOutcome(s.values, c, p.width);
  }

  lemma {:induction false} DeclaredIsAccepted(p: ProofRequest, n: nat, cs: seq<Contribution>)
    requires 0 < n <= MAX_WIDTH && Declared(p, n, cs) && p.coefficientMax < TWO_63
    requires Largest(p) * p.contributions <= WidthLimit(p.width)
    ensures AddAll(p, Zero(n), cs).Ok?
  {
    hide Add, Largest;
    if cs != [] {
      var front := cs[..|cs| - 1];
      assert forall k :: 0 <= k < |front| ==> front[k] == cs[k];
      DeclaredIsAccepted(p, n, front);
      assert front + [cs[|cs| - 1]] == cs;
      NextIsAccepted(p, n, front, AddAll(p, Zero(n), front).value, cs[|cs| - 1]);
    }
  }

  /** The heaviest run the proof admits. */
  function Heaviest(p: ProofRequest, n: nat, k: nat): (cs: seq<Contribution>)
    requires p.coefficientMax < TWO_63
    ensures |cs| == k
  {
    seq(k, _ => Contribution(p.coefficientMax, seq(n, _ => Q_MAX)))
  }

  lemma {:induction false} HeaviestTotal(p: ProofRequest, n: nat, k: nat)
    requires p.coefficientMax < TWO_63 && n > 0
    ensures Total(Heaviest(p, n, k), 0) == Largest(p) * k
  {
    if k > 0 {
      HeaviestTotal(p, n, k - 1);
      assert Heaviest(p, n, k)[..k - 1] == Heaviest(p, n, k - 1);
      OneMore(Largest(p), k - 1);
    }
  }

  lemma HeaviestIsDeclared(p: ProofRequest, n: nat)
    requires p.coefficientMax < TWO_63
    ensures Declared(p, n, Heaviest(p, n, p.contributions))
  {
  }

  /** For every validated proof instance, all runs within the declared ranges are accepted if and
      only if the proof's own product did not wrap. The class-level contract then says each
      coordinate holds the exact sum. */
  lemma AllDeclaredAcceptedIffTrusted(p: ProofRequest, n: nat)
    requires ValidateProof(p).Ok? && 0 < n <= MAX_WIDTH
    ensures (forall cs :: Declared(p, n, cs) ==> AddAll(p, Zero(n), cs).Ok?) <==> Trusted(p)
  {
    hide AddAll, ValidateProof, Declared, MultiplyWraps, Signed;
    assert ProofInputsOk(p) by { ValidatedInputs(p); }
    if Trusted(p) {
      TrustedBound(p);
      forall cs | Declared(p, n, cs) ensures AddAll(p, Zero(n), cs).Ok? { DeclaredIsAccepted(p, n, cs); }
    } else {
      var cs := Heaviest(p, n, p.contributions);
      HeaviestIsDeclared(p, n);
      if AddAll(p, Zero(n), cs).Ok? {
        AcceptedIsExact(p, Zero(n), cs);
        HeaviestTotal(p, n, p.contributions);
        LargestFits(p);
        WrapNeedsSize(Largest(p), p.contributions);
      }
    }
  }

  lemma ValidatedInputs(p: ProofRequest)
    requires ValidateProof(p).Ok?
    ensures ProofInputsOk(p)
  {
  }

  lemma LargestFits(p: ProofRequest)
    requires ProofInputsOk(p)
    ensures Largest(p) < TWO_127
  {
  }

  // ----- order -------------------------------------------------------------

  lemma {:induction false} TotalConcat(a: seq<Contribution>, b: seq<Contribution>, i: nat)
    ensures Total(a + b, i) == Total(a, i) + Total(b, i)
  {
    if b == [] {
      assert a + b == a;
    } else {
      TotalConcat(a, b[..|b| - 1], i);
      assert (a + b)[..|a + b| - 1] == a + b[..|b| - 1];
    }
  }

  lemma TotalOfOne(c: Contribution, i: nat)
    ensures Total([c], i) == TermAt(c, i)
  {
    hide TermAt;
    assert [c][..0] == [];
  }

  lemma TotalWithout(cs: seq<Contribution>, k: nat, i: nat)
    requires k < |cs|
    ensures Total(cs, i) == Total(cs[..k] + cs[k + 1..], i) + TermAt(cs[k], i)
  {
    hide Total, TermAt;
    var before, one, rest := cs[..k], [cs[k]], cs[k + 1..];
    assert cs == before + (one + rest);
    TotalOfOne(cs[k], i);
    TotalConcat(before, one + rest, i);
    TotalConcat(one, rest, i);
    TotalConcat(before, rest, i);
  }

  lemma {:induction false} TotalIgnoresOrder(a: seq<Contribution>, b: seq<Contribution>, i: nat)
    requires multiset(a) == multiset(b)
    ensures Total(a, i) == Total(b, i)
    decreases |a|
  {
    hide Total;
    if a == [] {
      assert |multiset(b)| == 0;
    } else {
      var n, last := |a| - 1, a[|a| - 1];
      assert last in multiset(b);
      var k :| 0 <= k < |b| && b[k] == last;
      var rest := b[..k] + b[k + 1..];
      TotalWithout(a, n, i);
      TotalWithout(b, k, i);
      RemoveOne(a, n);
      RemoveOne(b, k);
      assert a[..n] + a[n + 1..] == a[..n];
      assert multiset(a[..n]) == multiset(a) - multiset{last} == multiset(rest);
      TotalIgnoresOrder(a[..n], rest, i);
    }
  }

  /** Any two accepted orders of the same contributions leave the same accumulator. */
  lemma OrderDoesNotMatter(p: ProofRequest, s: State, a: seq<Contribution>, b: seq<Contribution>)
    requires AddAll(p, s, a).Ok? && AddAll(p, s, b).Ok? && multiset(a) == multiset(b)
    ensures AddAll(p, s, a) == AddAll(p, s, b)
  {
    hide AddAll, Signed, Total;
    AcceptedIsExact(p, s, a);
    AcceptedIsExact(p, s, b);
    assert |a| == |multiset(a)| == |multiset(b)| == |b|;
    var x, y := AddAll(p, s, a).value, AddAll(p, s, b).value;
    forall i | 0 <= i < |s.values| ensures x.values[i] == y.values[i] {
      TotalIgnoresOrder(a, b, i);
      SignedUnique(x.values[i], y.values[i]);
    }
    assert x.values == y.values && x.count == y.count;
  }

  /** A proof that validates, and a run within its declared ranges that is rejected. */
  lemma UntrustedProofRejects()
    ensures ValidateProof(UNTRUSTED).Ok?
    ensures exists cs :: Declared(UNTRUSTED, 1, cs) && AddAll(UNTRUSTED, Zero(1), cs).Err?
  {
    hide AddAll, ValidateProof, Declared, Trusted;
    UntrustedProofValidates();
    AllDeclaredAcceptedIffTrusted(UNTRUSTED, 1);
  }
}
