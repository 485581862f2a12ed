/** The accumulator bound certificate: what its recomputation accepts, and its decimal printing. */
module Bounds {
  import opened Base
  import opened Arithmetic
  import Protocol

  datatype Width = Int64 | Int128

  function WidthLimit(w: Width): nat { if w == Int64 then TWO_63 - 1 else TWO_127 - 1 }

  datatype BoundError = ProfileMismatch | RangeInvalid | HeadroomInvalid | AccumulatorBoundUnsafe

  const FIXTURE_PROFILE: string := "bft-int-fixture-v1"

  datatype BoundRequest = BoundRequest(
    profileId: string, width: Width, tickets: u64, minValue: i64, maxValue: i64, minCoefficient: i64,
    maxCoefficient: i64, headroom: Limbs)

  datatype Bound = Bound(value: Limbs, coefficient: Limbs, term: Limbs, sum: Limbs, headroom: Limbs, required: Limbs, limit: Limbs)

  /** `absolute_i64`: the minimum has no positive counterpart in 64 bits. */
  function Absolute(n: i64): (x: Limbs)
    ensures Signed(x) == Abs(n)
  {
    if n >= 0 then FromI64(n) else if n == -TWO_63 then FromU64(TWO_63) else FromI64(-n)
  }

  function Maximum(a: Limbs, b: Limbs): (x: Limbs)
    ensures Signed(x) == if Signed(a) >= Signed(b) then Signed(a) else Signed(b)
  {
    if Compare(a, b) >= 0 then a else b
  }

  function Unsafe(r: Result<Limbs, ArithmeticError>): Result<Limbs, BoundError> {
    if r.Ok? then Ok(r.value) else Err(AccumulatorBoundUnsafe)
  }

  function LimitOf(w: Width): (x: Limbs)
    ensures Signed(x) == WidthLimit(w)
  {
    if w == Int64 then FromI64(TWO_63 - 1) else Limbs(TWO_63 - 1, TWO_64 - 1)
  }

  /** `validate_accumulator_bound`. */
  function ValidateBound(q: BoundRequest): Result<Bound, BoundError> {
    var _ :- Require(q.profileId == FIXTURE_PROFILE, ProfileMismatch);
    var _ :- Require(q.tickets > 0 && q.minValue <= q.maxValue && q.minCoefficient <= q.maxCoefficient, RangeInvalid);
    var _ :- Require(!Negative(q.headroom), HeadroomInvalid);
    var value := Maximum(Absolute(q.minValue), Absolute(q.maxValue));
    var coefficient := Maximum(Absolute(q.minCoefficient), Absolute(q.maxCoefficient));
    var term :- Unsafe(CheckedMultiply(value, coefficient));
    var sum :- Unsafe(CheckedMultiply(term, FromU64(q.tickets)));
    var required :- Unsafe(CheckedAdd(sum, q.headroom));
    var limit := LimitOf(q.width);
    var _ :- Require(Compare(required, limit) <= 0, AccumulatorBoundUnsafe);
    Ok(Bound(value, coefficient, term, sum, q.headroom, required, limit))
  }

  // ----- what is accepted --------------------------------------------------

  function Larger(a: nat, b: nat): nat { if a >= b then a else b }

  function Product(a: nat, b: nat): nat { a * b }

  function TermOf(q: BoundRequest): nat {
    Product(Larger(Abs(q.minValue), Abs(q.maxValue)), Larger(Abs(q.minCoefficient), Abs(q.maxCoefficient)))
  }

  predicate RequestOk(q: BoundRequest) {
    && q.profileId == FIXTURE_PROFILE && q.tickets > 0
    && q.minValue <= q.maxValue && q.minCoefficient <= q.maxCoefficient && !Negative(q.headroom)
  }

  /** The sum the multiplication reports for `term * tickets`. */
  function ReportedSum(term: nat, tickets: nat): int {
    if MultiplyWraps(term, tickets) then term * tickets - TWO_128 else term * tickets
  }

  lemma TermFits(q: BoundRequest)
    ensures TermOf(q) <= TWO_63 * TWO_63 < TWO_127
  {
    var v, c := Larger(Abs(q.minValue), Abs(q.maxValue)), Larger(Abs(q.minCoefficient), Abs(q.maxCoefficient));
    SmallProduct(v, c, TWO_63, TWO_63);
  }

  lemma TermComputed(q: BoundRequest, value: Limbs, coefficient: Limbs)
    requires Signed(value) == Larger(Abs(q.minValue), Abs(q.maxValue))
    requires Signed(coefficient) == Larger(Abs(q.minCoefficient), Abs(q.maxCoefficient))
    ensures CheckedMultiply(value, coefficient).Ok? && Signed(CheckedMultiply(value, coefficient).value) == TermOf(q)
  {
    hide CheckedMultiply, MultiplyWraps;
    MultiplyOutcome(value, coefficient);
    TermFits(q);
  }

  lemma SumComputed(term: Limbs, tickets: u64)
    requires Signed(term) >= 0
    ensures var t := Signed(term); var r := CheckedMultiply(term, FromU64(tickets));
            && (r.Ok? <==> t * tickets < TWO_127 || MultiplyWraps(t, tickets))
            && (r.Ok? ==> Signed(r.value) == ReportedSum(t, tickets) && Signed(r.value) >= 0)
  {
    hide CheckedMultiply, MultiplyWraps;
    MultiplyOutcome(term, FromU64(tickets));
    NonNegativeProduct(Signed(term), tickets);
    if MultiplyWraps(Signed(term), tickets) { WrappedIsPositive(term, tickets); }
  }

  lemma NonNegativeProduct(x: nat, y: nat)
    ensures x * y >= 0
  {
  }

  lemma WrappedIsPositive(term: Limbs, tickets: u64)
    requires Signed(term) >= 0 && MultiplyWraps(Signed(term), tickets)
    ensures CheckedMultiply(term, FromU64(tickets)).Ok? && Signed(CheckedMultiply(term, FromU64(tickets)).value) >= 0
  {
    hide WrapsFor, ShiftAdd;
    var x := Signed(term);
    MagnitudeOutcome(x, tickets, TWO_127 - 1);
    NumberToLimbs(x * tickets - TWO_128, false);
  }

  /** The certificate is granted exactly when the reported sum plus headroom is within the width. */
  lemma BoundOutcome(q: BoundRequest)
    ensures var r := ValidateBound(q); var n := TermOf(q) * q.tickets; var reported := ReportedSum(TermOf(q), q.tickets);
            && (r.Ok? <==> RequestOk(q) && (n < TWO_127 || MultiplyWraps(TermOf(q), q.tickets))
                           && reported + Signed(q.headroom) <= WidthLimit(q.width))
            && (r.Ok? ==> Signed(r.value.term) == TermOf(q) && Signed(r.value.sum) == reported
                          && Signed(r.value.required) == reported + Signed(q.headroom))
  {
    hide CheckedMultiply, MultiplyWraps, Compare, CheckedAdd, Maximum, Absolute, LimitOf, Signed, TermOf, ReportedSum;
    var value := Maximum(Absolute(q.minValue), Absolute(q.maxValue));
    var coefficient := Maximum(Absolute(q.minCoefficient), Absolute(q.maxCoefficient));
    TermComputed(q, value, coefficient);
    SumComputed(CheckedMultiply(value, coefficient).value, q.tickets);
    if !Negative(q.headroom) { SignedSign(q.headroom); }
  }

  // ----- proof instances ---------------------------------------------------

  const Q_MAX: int := 32767
  const FIXED_PROFILE: string := "sha256:17c8d23790047966e42f3204502623c74a0ff0383319d23e67ab15cf92fe3e61"

  datatype ContractError = QValueOutOfRange | ProofInstanceInvalid | BoundUnsafe | Overflow

  datatype ProofRequest = ProofRequest(profileId: string, coefficientMax: u64, contributions: u64, width: Width, headroom: Limbs)

  datatype ProofResult = ProofResult(product: Limbs, prefix: Limbs, final: Limbs, width: Width)

  function AsBoundRequest(p: ProofRequest): BoundRequest
    requires p.coefficientMax < TWO_63
  {
    BoundRequest(FIXTURE_PROFILE, p.width, p.contributions, -Q_MAX, Q_MAX, 0 - p.coefficientMax, p.coefficientMax, p.headroom)
  }

  predicate ProofInputsOk(p: ProofRequest) {
    p.profileId == FIXED_PROFILE && 0 < p.coefficientMax < TWO_63 && p.contributions > 0
  }

  /** `validate_proof_instance`. */
  function ValidateProof(p: ProofRequest): Result<ProofResult, ContractError> {
    if !ProofInputsOk(p) then Err(ProofInstanceInvalid)
    else
      match ValidateBound(AsBoundRequest(p))
      case Ok(b) => Ok(ProofResult(b.term, b.sum, b.required, p.width))
      case Err(_) => Err(BoundUnsafe)
  }

  /** The largest product one contribution can make. */
  function Largest(p: ProofRequest): nat { Q_MAX * p.coefficientMax }

  /** The recomputed bound is the true one: the product was not the one kind that wraps unseen. */
  predicate Trusted(p: ProofRequest) { !MultiplyWraps(Largest(p), p.contributions) }

  lemma ProofOutcome(p: ProofRequest)
    requires ProofInputsOk(p)
    ensures TermOf(AsBoundRequest(p)) == Largest(p)
    ensures ValidateProof(p).Ok? <==>
              && !Negative(p.headroom)
              && (Largest(p) * p.contributions < TWO_127 || !Trusted(p))
              && ReportedSum(Largest(p), p.contributions) + Signed(p.headroom) <= WidthLimit(p.width)
  {
    hide ValidateBound, MultiplyWraps, Signed;
    BoundOutcome(AsBoundRequest(p));
  }

  /** A validated and trusted proof bounds every sum it admits. */
  lemma TrustedBound(p: ProofRequest)
    requires ValidateProof(p).Ok? && Trusted(p)
    ensures Largest(p) * p.contributions <= WidthLimit(p.width)
  {
    hide ValidateBound, MultiplyWraps, Signed;
    ProofOutcome(p);
    SignedSign(p.headroom);
  }

  lemma WrapNeedsSize(x: nat, y: nat)
    requires x < TWO_127 && MultiplyWraps(x, y)
    ensures x * y >= TWO_128
  {
    hide WrapsFor, ShiftAdd;
    MagnitudeOutcome(x, y, TWO_127 - 1);
  }

  /** Up to 2^49 contributions every validated proof is trusted. */
  lemma FewContributionsAreTrusted(p: ProofRequest)
    requires ProofInputsOk(p) && p.contributions <= 0x2_0000_0000_0000
    ensures Trusted(p)
  {
    hide MultiplyWraps;
    if MultiplyWraps(Largest(p), p.contributions) {
      WrapNeedsSize(Largest(p), p.contributions);
      SmallProduct(Largest(p), p.contributions, Q_MAX * TWO_63, 0x2_0000_0000_0000);
    }
  }

  function Pow2(k: nat): (p: nat)
    ensures p > 0
  {
    if k == 0 then 1 else 2 * Pow2(k - 1)
  }

  lemma {:induction false} Pow2Sum(a: nat, b: nat)
    ensures Pow2(a + b) == Pow2(a) * Pow2(b)
  {
    if a > 0 {
      Pow2Sum(a - 1, b);
      assert Pow2(a) * Pow2(b) == 2 * (Pow2(a - 1) * Pow2(b));
    }
  }

  lemma PowersInUse()
    ensures Pow2(53) == 0x20_0000_0000_0000 && Pow2(64) == TWO_64
  {
    assert Pow2(4) == 16 && Pow2(5) == 32;
    Pow2Sum(4, 4);
    Pow2Sum(8, 8);
    Pow2Sum(16, 16);
    Pow2Sum(32, 16);
    Pow2Sum(48, 5);
    Pow2Sum(32, 32);
  }

  lemma {:induction false} TopPowerIs(n: nat, k: nat)
    requires Pow2(k) <= n < 2 * Pow2(k)
    ensures TopPower(n) == Pow2(k)
  {
    if k > 0 { TopPowerIs(n / 2, k - 1); }
  }

  /** A 128-bit proof for 2^53 + 1 contributions that validates although its true bound exceeds
      2^128. */
  const UNTRUSTED: ProofRequest :=
    ProofRequest(FIXED_PROFILE, (0x800_0000_0000_0000_0000 - 1) / 32767, 0x20_0000_0000_0001, Int128, Limbs(0, 0))

  lemma UntrustedProofValidates()
    ensures ProofInputsOk(UNTRUSTED) && ValidateProof(UNTRUSTED).Ok? && !Trusted(UNTRUSTED)
    ensures Largest(UNTRUSTED) * UNTRUSTED.contributions > TWO_128
  {
    hide ValidateBound, ValidateProof;
    var p := UNTRUSTED;
    assert Largest(p) == 0x800_0000_0000_0000_0000 - 1;
    PowersInUse();
    TopPowerIs(p.contributions, 53);
    ProofOutcome(p);
  }

  // ----- concrete instances ------------------------------------------------

  /** A stored instance: its request, the width of a product and the declared bounds. */
  datatype ConcreteProof = ConcreteProof(request: ProofRequest, productWidth: Width, product: Limbs, prefix: Limbs, final: Limbs)

  predicate NonNegativeFits(x: Limbs, w: Width) {
    !Negative(x) && (w == Int128 || Compare(x, FromI64(TWO_63 - 1)) <= 0)
  }

  /** `validate_concrete_proof_instance`; the outcomes of the metadata and content identity
      comparisons are inputs. */
  function ValidateConcrete(c: ConcreteProof, metadataMatches: bool, identityMatches: bool): Result<ProofResult, ContractError> {
    var _ :- Require(metadataMatches, ProofInstanceInvalid);
    var r :- ValidateProof(c.request);
    var _ :- Require(NonNegativeFits(r.product, c.productWidth) && c.product == r.product && c.prefix == r.prefix
                     && c.final == r.final && identityMatches, ProofInstanceInvalid);
    Ok(r)
  }

  /** The declared bounds of an accepted, trusted instance are the true ones. */
  lemma DeclaredBoundsAreExact(c: ConcreteProof)
    requires ValidateConcrete(c, true, true).Ok? && Trusted(c.request)
    ensures Signed(c.product) == Largest(c.request) && Signed(c.prefix) == Largest(c.request) * c.request.contributions
    ensures Signed(c.final) == Signed(c.prefix) + Signed(c.request.headroom) <= WidthLimit(c.request.width)
    ensures Signed(c.product) <= WidthLimit(c.productWidth)
  {
    hide ValidateBound, MultiplyWraps, Signed;
    ProofOutcome(c.request);
    BoundOutcome(AsBoundRequest(c.request));
  }

  // ----- decimal printing --------------------------------------------------

  lemma {:induction false} DivideOnce(n: nat, k: nat)
    requires k > 0
    ensures n / Pow2(k - 1) == 2 * (n / Pow2(k)) + n / Pow2(k - 1) % 2
  {
    HalfOfQuotient(n, Pow2(k - 1));
  }

  lemma HalfOfQuotient(n: nat, d: nat)
    requires d > 0
    ensures n / d / 2 == n / (2 * d)
  {
    var q, r := n / d, n % d;
    assert n == q * d + r;
    var h, b := q / 2, q % 2;
    assert q * d == h * (2 * d) + b * d by { assert q == 2 * h + b; }
    QuotientIs(n, 2 * d, h, b * d + r);
  }

  /** Long division in progress: the bits above `bits` have been brought down. */
  predicate Divided(word: nat, carried: nat, bits: nat, top: nat, low: nat, remainder: nat) {
    && bits <= 64 && remainder < 10 && low == top * Pow2(bits)
    && carried * Pow2(64 - bits) + word / Pow2(bits) == 10 * top + remainder
  }

  lemma DividedStart(word: u64, carried: nat)
    requires carried < 10
    ensures Divided(word, carried, 64, 0, 0, carried)
  {
    hide Pow2;
    PowersInUse();
    PowZero();
  }

  lemma DividedStep(word: nat, carried: nat, bits: nat, top: nat, low: nat, remainder: nat)
    requires bits > 0 && Divided(word, carried, bits, top, low, remainder)
    ensures var brought := 2 * remainder + word / Pow2(bits - 1) % 2;
            if brought >= 10 then Divided(word, carried, bits - 1, 2 * top + 1, low + Pow2(bits - 1), brought - 10)
            else Divided(word, carried, bits - 1, 2 * top, low, brought)
  {
    hide Pow2;
    DivideOnce(word, bits);
    PowStep(64 - bits);
    PowStep(bits - 1);
    Reassociate2(carried, Pow2(64 - bits));
    Reassociate2(top, Pow2(bits - 1));
  }

  lemma DividedEnd(word: u64, carried: nat, top: nat, low: nat, remainder: nat)
    requires Divided(word, carried, 0, top, low, remainder) && carried < 10
    ensures carried * TWO_64 + word == 10 * low + remainder && low < TWO_64 && remainder < 10
  {
    hide Pow2;
    PowersInUse();
    PowZero();
  }

  /** One division by ten of a two-limb number, bit by bit through the low word. */
  method DivideByTen(x: Limbs) returns (quotient: Limbs, remainder: nat)
    ensures Unsigned(x) == 10 * Unsigned(quotient) + remainder && remainder < 10
  {
    hide Pow2, Divided;
    var high := x.high / 10;
    remainder := x.high % 10;
    ghost var carried, top := remainder, 0;
    var low, bits := 0, 64;
    DividedStart(x.low, carried);
    while bits > 0
      invariant bits >= 0 && low >= 0 && top >= 0 && Divided(x.low, carried, bits, top, low, remainder)
    {
      DividedStep(x.low, carried, bits, top, low, remainder);
      remainder := remainder * 2 + x.low / Pow2(bits - 1) % 2;
      top := 2 * top;
      if remainder >= 10 {
        remainder := remainder - 10;
        low := low + Pow2(bits - 1);
        top := top + 1;
      }
      bits := bits - 1;
    }
    DividedEnd(x.low, carried, top, low, remainder);
    quotient := Limbs(high, low);
  }

  lemma PowZero()
    ensures Pow2(0) == 1
  {
  }

  lemma PowStep(k: nat)
    ensures Pow2(k + 1) == 2 * Pow2(k)
  {
  }

  lemma Reassociate2(a: nat, p: nat)
    ensures a * (2 * p) == 2 * (a * p) == (2 * a) * p
    ensures (2 * a + 1) * p == (2 * a) * p + p
  {
  }

  /** `decimal`: digits from the least significant end, reversed at the end. */
  method DecimalOf(x: Limbs) returns (r: Result<string, ContractError>)
    ensures Negative(x) ==> r == Err(ProofInstanceInvalid)
    ensures !Negative(x) ==> r == Ok(Protocol.Decimal(Unsigned(x)))
  {
    hide Unsigned, Protocol.Decimal, Reversed;
    if Negative(x) { return Err(ProofInstanceInvalid); }
    if x == FromU64(0) {
      LowBit(x);
      LastDigit(0, 0, 0);
      return Ok("0");
    }
    LowBit(x);
    var value, reversed := x, "";
    assert Reversed("") == "" by { ReversedEmpty(); }
    while value != FromU64(0)
      invariant value != FromU64(0) ==> Protocol.Decimal(Unsigned(x)) == Protocol.Decimal(Unsigned(value)) + Reversed(reversed)
      invariant value == FromU64(0) ==> Protocol.Decimal(Unsigned(x)) == Reversed(reversed)
      decreases Unsigned(value)
    {
      LowBit(value);
      var quotient, remainder := DivideByTen(value);
      LowBit(quotient);
      LastDigit(Unsigned(value), Unsigned(quotient), remainder);
      ReversedSnoc(reversed, '0' + (remainder as char));
      reversed := reversed + ['0' + (remainder as char)];
      value := quotient;
    }
    r := Ok(Reversed(reversed));
  }

  lemma LastDigit(n: nat, q: nat, d: nat)
    requires n == 10 * q + d && d < 10
    ensures Protocol.Decimal(n) == (if q == 0 then "" else Protocol.Decimal(q)) + ['0' + (d as char)]
  {
    assert n / 10 == q && n % 10 == d;
  }

  lemma ReversedEmpty()
    ensures Reversed("") == ""
  {
  }

  function Reversed(s: string): string {
    if s == "" then "" else Reversed(s[1..]) + [s[0]]
  }

  lemma {:induction false} ReversedSnoc(s: string, c: char)
    ensures Reversed(s + [c]) == [c] + Reversed(s)
  {
    if s == "" {
      assert (s + [c])[1..] == "";
    } else {
      assert (s + [c])[1..] == s[1..] + [c];
      ReversedSnoc(s[1..], c);
    }
  }
}
