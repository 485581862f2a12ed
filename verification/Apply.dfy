/** The apply engine: exact weighted averages with a single rounding, and the update built on them. */
module Apply {
  import opened Base
  import opened Arithmetic
  import opened Merkle
  import opened Certificates

  type Outcome<+T> = Result<T, CertificateError>

  // ----- rounding ----------------------------------------------------------

  function Quotient(m: nat, d: nat): nat
    requires d > 0
  {
    m / d
  }

  function Remainder(m: nat, d: nat): (r: nat)
    requires d > 0
    ensures r < d
  {
    m % d
  }

  /** `round_half_toward_positive`. */
  function RoundHalf(n: i64, d: u64): Outcome<i64> {
    var _ :- Require(d > 0, ArithmeticInvalid);
    hide Quotient, Remainder;
    var magnitude := if n >= 0 then n else -(n + 1) + 1;
    var quotient, remainder := Quotient(magnitude, d), Remainder(magnitude, d);
    var _ :- Require(quotient <= TWO_63 - 1, ArithmeticInvalid);
    if n >= 0 then
      var up := remainder >= d - remainder;
      var _ :- Require(!up || quotient < TWO_63 - 1, ArithmeticInvalid);
      Ok(quotient + if up then 1 else 0)
    else if remainder == 0 || remainder <= d - remainder then Ok(0 - quotient)
    else Add(0 - quotient, -1)
  }

  function Lift<T>(r: Result<T, ArithmeticError>): Outcome<T> {
    if r.Ok? then Ok(r.value) else Err(ArithmeticInvalid)
  }

  function Add(a: i64, b: i64): Outcome<i64> { Lift(CheckedAdd64(a, b)) }

  function Multiply(a: i64, b: i64): Outcome<i64> { Lift(CheckedMultiply64(a, b)) }

  lemma QuotientBound(m: nat, d: nat)
    requires d > 1
    ensures 2 * (m / d) <= m
  {
    assert m == d * (m / d) + m % d;
    Grows(m / d, 2, d);
  }

  lemma RoundsUpToFloor(m: nat, d: nat)
    requires d > 0
    ensures (2 * m + d) / (2 * d) == m / d + if m % d >= d - m % d then 1 else 0
  {
    var q, r := m / d, m % d;
    assert m == q * d + r;
    if r >= d - r { QuotientIs(2 * m + d, 2 * d, q + 1, 2 * r - d); } else { QuotientIs(2 * m + d, 2 * d, q, 2 * r + d); }
  }

  lemma RoundsDownToFloor(m: nat, d: nat)
    requires d > 0
    ensures (d - 2 * m) / (2 * d) == -(m / d) - if m % d == 0 || m % d <= d - m % d then 0 else 1
  {
    var q, r := m / d, m % d;
    assert m == q * d + r;
    if r <= d - r { QuotientIs(d - 2 * m, 2 * d, -q, d - 2 * r); } else { QuotientIs(d - 2 * m, 2 * d, -q - 1, 3 * d - 2 * r); }
  }

  /** Rounding is floor((2n + d) / 2d), rejected only for a zero denominator or INT64_MIN over one. */
  lemma RoundHalfExact(n: i64, d: u64)
    ensures RoundHalf(n, d).Ok? <==> d > 0 && !(n == -TWO_63 && d == 1)
    ensures RoundHalf(n, d).Ok? ==> RoundHalf(n, d).value == (2 * n + d) / (2 * d)
  {
    if d > 0 {
      var m := Abs(n);
      if d > 1 { QuotientBound(m, d); } else { assert m / d == m && m % d == 0; }
      if n >= 0 { RoundsUpToFloor(m, d); } else { RoundsDownToFloor(m, d); }
    }
  }

  // ----- rounding of exact rationals ---------------------------------------

  /** Half-up rounding of a real number. */
  function Round(x: real): int { (x + 0.5).Floor }

  lemma FloorIs(x: real, k: int)
    requires k as real <= x < k as real + 1.0
    ensures x.Floor == k
  {
  }

  lemma FloorOfQuotient(n: int, d: nat)
    requires d > 0
    ensures (2 * n + d) / (2 * d) == Round(n as real / d as real)
  {
    var k, r := (2 * n + d) / (2 * d), (2 * n + d) % (2 * d);
    assert 2 * n + d == k * (2 * d) + r;
    var x, rd := n as real / d as real, d as real;
    assert x * rd == n as real;
    assert 2.0 * (x * rd) + rd == (k as real) * (2.0 * rd) + (r as real);
    assert (x + 0.5 - (k as real)) * (2.0 * rd) == r as real;
    Between(x + 0.5 - (k as real), 2.0 * rd, r as real);
    FloorIs(x + 0.5, k);
  }

  lemma Between(y: real, d: real, r: real)
    requires d > 0.0 && 0.0 <= r < d && y * d == r
    ensures 0.0 <= y < 1.0
  {
  }

  lemma RoundHalfIsRound(n: i64, d: u64)
    requires RoundHalf(n, d).Ok?
    ensures d > 0 && RoundHalf(n, d).value == Round(n as real / d as real)
  {
    hide RoundHalf, Round;
    RoundHalfExact(n, d);
    FloorOfQuotient(n, d);
  }

  // ----- the common denominator --------------------------------------------

  ghost predicate Divides(a: int, b: int) { exists k :: Multiple(a, b, k) }

  predicate Multiple(a: int, b: int, k: int) { b == a * k }

  lemma Factor(g: int, i: int, q: int, j: int)
    ensures (g * i) * q + g * j == g * (i * q + j)
  {
  }

  lemma DividesSum(g: int, a: int, b: int, q: int)
    requires Divides(g, a) && Divides(g, b)
    ensures Divides(g, a * q + b)
  {
    var i :| Multiple(g, a, i);
    var j :| Multiple(g, b, j);
    Factor(g, i, q, j);
    assert Multiple(g, a * q + b, i * q + j);
  }

  lemma DividesRecomposed(g: int, a: nat, b: nat)
    requires b > 0 && Divides(g, b) && Divides(g, a % b)
    ensures Divides(g, a)
  {
    hide Divides;
    DividesSum(g, b, a % b, a / b);
    assert b * (a / b) + a % b == a;
  }

  lemma DividesItself(a: int)
    ensures Divides(a, a) && Divides(a, 0)
  {
    assert Multiple(a, a, 1) && Multiple(a, 0, 0);
  }

  lemma {:induction false} GcdDivides(a: nat, b: nat)
    ensures Divides(Gcd(a, b), a) && Divides(Gcd(a, b), b)
    ensures a > 0 || b > 0 ==> Gcd(a, b) > 0
    decreases b
  {
    hide Divides;
    if b == 0 {
      DividesItself(a);
    } else {
      GcdDivides(b, a % b);
      DividesRecomposed(Gcd(a, b), a, b);
    }
  }

  lemma DividesTransitive(a: int, b: int, c: int)
    requires Divides(a, b) && Divides(b, c)
    ensures Divides(a, c)
  {
    var i :| Multiple(a, b, i);
    var j :| Multiple(b, c, j);
    Factor(a, i, j, 0);
    assert Multiple(a, c, i * j);
  }

  lemma ExactQuotient(a: nat, b: nat)
    requires a > 0 && Divides(a, b)
    ensures a * (b / a) == b
  {
    var k :| Multiple(a, b, k);
    QuotientIs(b, a, k, 0);
  }

  lemma PositiveFactors(g: nat, e: nat)
    requires g * e > 0
    ensures e > 0
  {
  }

  lemma CommonProduct(g: nat, e: nat, f: nat)
    requires g > 0 && e > 0 && f > 0
    ensures (g * f) * e > 0 && Divides(g * f, (g * f) * e) && Divides(g * e, (g * f) * e)
  {
    assert Multiple(g * f, (g * f) * e, e);
    assert (g * f) * e == (g * e) * f;
    assert Multiple(g * e, (g * f) * e, f);
  }

  /** The next common multiple: both old and new denominators divide it. */
  lemma NextMultiple(common: nat, d: nat)
    requires common > 0 && d > 0
    ensures Gcd(common, d) > 0 && d / Gcd(common, d) > 0
    ensures var next := common * (d / Gcd(common, d)); next > 0 && Divides(common, next) && Divides(d, next)
  {
    hide Divides, Gcd;
    var g := Gcd(common, d);
    GcdDivides(common, d);
    ExactQuotient(g, d);
    ExactQuotient(g, common);
    PositiveFactors(g, d / g);
    PositiveFactors(g, common / g);
    CommonProduct(g, d / g, common / g);
  }

  predicate PositiveDenominators(pis: seq<Rational>) {
    forall i :: 0 <= i < |pis| ==> pis[i].denominator > 0
  }

  /** One step of the first loop. */
  function Extend(common: nat, pi: Rational): (r: Outcome<nat>)
    requires common > 0
    ensures r.Ok? ==> r.value > 0
  {
    var _ :- NonNegative(pi);
    var divisor := Gcd(common, pi.denominator);
    NextMultiple(common, pi.denominator);
    var _ :- Require(common <= (TWO_64 - 1) / (pi.denominator / divisor), ArithmeticInvalid);
    Ok(common * (pi.denominator / divisor))
  }

  function Common(pis: seq<Rational>): (r: Outcome<nat>)
    ensures r.Ok? ==> r.value > 0
  {
    if pis == [] then Ok(1)
    else
      var before :- Common(pis[..|pis| - 1]);
      var pi := pis[|pis| - 1];
      var next :- Extend(before, pi);
      NextMultiple(before, pi.denominator);
      Ok(next)
  }

  lemma {:induction false} CommonIsMultiple(pis: seq<Rational>)
    requires Common(pis).Ok?
    ensures PositiveDenominators(pis)
    ensures forall i :: 0 <= i < |pis| ==> Divides(pis[i].denominator, Common(pis).value)
  {
    hide Gcd, Divides;
    if pis != [] {
      var n := |pis| - 1;
      CommonIsMultiple(pis[..n]);
      var before := Common(pis[..n]).value;
      NextMultiple(before, pis[n].denominator);
      forall i | 0 <= i < n ensures pis[i].denominator > 0 && Divides(pis[i].denominator, Common(pis).value) {
        assert pis[..n][i] == pis[i];
        DividesTransitive(pis[i].denominator, before, Common(pis).value);
      }
    }
  }

  // ----- the weighted coordinate -------------------------------------------

  /** One domain's value at a coordinate, with its weight. */
  datatype Share = Share(value: i64, pi: Rational)

  function Weights(shares: seq<Share>): (pis: seq<Rational>)
    ensures |pis| == |shares|
  {
    seq(|shares|, i requires 0 <= i < |shares| => shares[i].pi)
  }

  /** One step of the second loop. */
  function AddShare(numerator: i64, s: Share, common: nat): Outcome<i64>
    requires s.pi.denominator > 0
  {
    var scale := common / s.pi.denominator;
    if scale > TWO_63 - 1 then Err(ArithmeticInvalid)
    else
      var weighted :- Multiply(s.value, s.pi.numerator);
      var term :- Multiply(weighted, scale);
      Add(numerator, term)
  }

  function Numerator(shares: seq<Share>, common: nat): Outcome<i64>
    requires forall i :: 0 <= i < |shares| ==> shares[i].pi.denominator > 0
  {
    if shares == [] then Ok(0)
    else
      var before :- Numerator(shares[..|shares| - 1], common);
      AddShare(before, shares[|shares| - 1], common)
  }

  function Weighted(shares: seq<Share>): Outcome<i64> {
    var common :- Common(Weights(shares));
    WeightsArePositive(shares);
    var _ :- Require(common <= TWO_63 - 1, ArithmeticInvalid);
    var numerator :- Numerator(shares, common);
    RoundHalf(numerator, common)
  }

  lemma WeightsArePositive(shares: seq<Share>)
    requires Common(Weights(shares)).Ok?
    ensures forall i :: 0 <= i < |shares| ==> shares[i].pi.denominator > 0
  {
    hide Common;
    CommonIsMultiple(Weights(shares));
    assert forall i :: 0 <= i < |shares| ==> Weights(shares)[i] == shares[i].pi;
  }

  /** `weighted_coordinate`: two loops, one rounding. */
  method WeightedCoordinate(shares: seq<Share>) returns (r: Outcome<i64>)
    ensures r == Weighted(shares)
  {
    hide Extend, AddShare, RoundHalf;
    var common := 1;
    var pis := Weights(shares);
    for k := 0 to |pis|
      invariant common > 0 && Common(pis[..k]) == Ok(common)
    {
      assert pis[..k + 1][..k] == pis[..k];
      var next := Extend(common, pis[k]);
      if next.Err? {
        CommonFails(pis, k + 1);
        return Err(next.error);
      }
      common := next.value;
    }
    assert pis[..|pis|] == pis;
    WeightsArePositive(shares);
    if common > TWO_63 - 1 { return Err(ArithmeticInvalid); }
    var numerator: i64 := 0;
    for k := 0 to |shares|
      invariant Numerator(shares[..k], common) == Ok(numerator)
    {
      assert shares[..k + 1][..k] == shares[..k];
      var next := AddShare(numerator, shares[k], common);
      if next.Err? {
        NumeratorFails(shares, common, k + 1);
        return Err(next.error);
      }
      numerator := next.value;
    }
    assert shares[..|shares|] == shares;
    r := RoundHalf(numerator, common);
  }

  lemma {:induction false} CommonFails(pis: seq<Rational>, k: nat)
    requires k <= |pis| && Common(pis[..k]).Err?
    ensures Common(pis) == Common(pis[..k])
    decreases |pis|
  {
    hide Extend;
    if k == |pis| {
      assert pis[..k] == pis;
    } else {
      assert pis[..|pis| - 1][..k] == pis[..k];
      CommonFails(pis[..|pis| - 1], k);
    }
  }

  lemma {:induction false} NumeratorFails(shares: seq<Share>, common: nat, k: nat)
    requires forall i :: 0 <= i < |shares| ==> shares[i].pi.denominator > 0
    requires k <= |shares| && Numerator(shares[..k], common).Err?
    ensures Numerator(shares, common) == Numerator(shares[..k], common)
    decreases |shares|
  {
    hide AddShare;
    if k == |shares| {
      assert shares[..k] == shares;
    } else {
      assert shares[..|shares| - 1][..k] == shares[..k];
      NumeratorFails(shares[..|shares| - 1], common, k);
    }
  }

  // ----- exactness ---------------------------------------------------------

  /** The exact rational share. */
  function Exact(s: Share): real {
    if s.pi.denominator == 0 then 0.0 else (s.value as real) * (s.pi.numerator as real) / (s.pi.denominator as real)
  }

  function ExactSum(shares: seq<Share>): real {
    if shares == [] then 0.0 else ExactSum(shares[..|shares| - 1]) + Exact(shares[|shares| - 1])
  }

  lemma ExactTerm(v: int, n: int, d: int, scale: int, common: int)
    requires d > 0 && d * scale == common
    ensures (v * n * scale) as real == (common as real) * ((v as real) * (n as real) / (d as real))
  {
    var vn, rd, rs := (v as real) * (n as real), d as real, scale as real;
    assert (v * n) as real == vn;
    assert common as real == rd * rs;
    var x := vn / rd;
    assert x * rd == vn;
    assert (v * n * scale) as real == vn * rs;
    assert (x * rd) * rs == (rd * rs) * x;
  }

  lemma AddShareExact(numerator: i64, s: Share, common: nat)
    requires s.pi.denominator > 0 && Divides(s.pi.denominator, common) && AddShare(numerator, s, common).Ok?
    ensures AddShare(numerator, s, common).value as real == numerator as real + (common as real) * Exact(s)
  {
    hide CheckedMultiply64, Divides;
    var scale := common / s.pi.denominator;
    ExactQuotient(s.pi.denominator, common);
    Multiply64Exact(s.value, s.pi.numerator);
    Multiply64Exact(s.value * s.pi.numerator, scale);
    ExactTerm(s.value, s.pi.numerator, s.pi.denominator, scale, common);
  }

  lemma {:induction false} NumeratorExact(shares: seq<Share>, common: nat)
    requires forall i :: 0 <= i < |shares| ==> shares[i].pi.denominator > 0 && Divides(shares[i].pi.denominator, common)
    requires Numerator(shares, common).Ok?
    ensures Numerator(shares, common).value as real == (common as real) * ExactSum(shares)
  {
    hide AddShare, Divides, Exact;
    if shares != [] {
      var n := |shares| - 1;
      NumeratorExact(shares[..n], common);
      AddShareExact(Numerator(shares[..n], common).value, shares[n], common);
      Distribute(common as real, ExactSum(shares[..n]), Exact(shares[n]));
    }
  }

  lemma Distribute(c: real, x: real, y: real)
    ensures c * (x + y) == c * x + c * y
  {
  }

  lemma Cancel(n: int, c: nat, x: real)
    requires c > 0 && n as real == (c as real) * x
    ensures n as real / c as real == x
  {
  }

  /** When accepted, the coordinate is the exact weighted sum rounded once. */
  lemma WeightedExact(shares: seq<Share>)
    requires Weighted(shares).Ok?
    ensures Weighted(shares).value == Round(ExactSum(shares))
  {
    hide Common, Numerator, RoundHalf, Round, ExactSum, Divides;
    var pis := Weights(shares);
    CommonIsMultiple(pis);
    assert forall i :: 0 <= i < |shares| ==> pis[i] == shares[i].pi;
    var common := Common(pis).value;
    NumeratorExact(shares, common);
    var n := Numerator(shares, common).value;
    RoundHalfIsRound(n, common);
    Cancel(n, common, ExactSum(shares));
  }

  // ----- order -------------------------------------------------------------

  lemma {:induction false} ExactConcat(a: seq<Share>, b: seq<Share>)
    ensures ExactSum(a + b) == ExactSum(a) + ExactSum(b)
  {
    hide Exact;
    if b == [] {
      assert a + b == a;
    } else {
      ExactConcat(a, b[..|b| - 1]);
      assert (a + b)[..|a + b| - 1] == a + b[..|b| - 1];
    }
  }

  lemma ExactOfOne(share: Share)
    ensures ExactSum([share]) == Exact(share)
  {
    hide Exact;
    assert [share][..0] == [];
  }

  lemma ExactWithout(s: seq<Share>, k: nat)
    requires k < |s|
    ensures ExactSum(s) == ExactSum(s[..k] + s[k + 1..]) + Exact(s[k])
  {
    hide Exact, ExactSum;
    var before, one, rest := s[..k], [s[k]], s[k + 1..];
    assert s == before + (one + rest);
    ExactOfOne(s[k]);
    ExactConcat(before, one + rest);
    ExactConcat(one, rest);
    ExactConcat(before, rest);
  }

  lemma {:induction false} ExactIgnoresOrder(a: seq<Share>, b: seq<Share>)
    requires multiset(a) == multiset(b)
    ensures ExactSum(a) == ExactSum(b)
    decreases |a|
  {
    hide Exact, ExactSum;
    if a == [] {
      assert |multiset(b)| == 0;
    } else {
      var n, last := |a| - 1, a[|a| - 1];
      assert last in multiset(b);
      var k :| 0 <= k < |b| && b[k] == last;
      ExactWithout(a, n);
      ExactWithout(b, k);
      RemoveOne(a, n);
      RemoveOne(b, k);
      assert a[..n] + a[n + 1..] == a[..n];
      ExactIgnoresOrder(a[..n], b[..k] + b[k + 1..]);
    }
  }

  /** Any two accepted orders of the same domains agree. */
  lemma WeightedIgnoresOrder(a: seq<Share>, b: seq<Share>)
    requires multiset(a) == multiset(b) && Weighted(a).Ok? && Weighted(b).Ok?
    ensures Weighted(a) == Weighted(b)
  {
    hide Weighted, ExactSum, Round;
    WeightedExact(a);
    WeightedExact(b);
    ExactIgnoresOrder(a, b);
  }

  // ----- the update --------------------------------------------------------

  function Scaled(v: i64, q: Rational): Outcome<i64> {
    var _ :- NonNegative(q);
    var product :- Multiply(v, q.numerator);
    RoundHalf(product, q.denominator)
  }

  datatype Update = Update(momentum: i64, model: i64)

  /** One coordinate of `compute_candidate`. */
  function NextCoordinate(p: Profile, model: i64, momentum: i64, shares: seq<Share>): Outcome<Update> {
    var gradient :- Weighted(shares);
    var kept :- Scaled(momentum, p.momentum);
    var next :- Add(kept, gradient);
    var ahead :- Scaled(next, p.momentum);
    var direction :- Add(ahead, gradient);
    var decay :- Scaled(model, p.weightDecay);
    var full :- Add(direction, decay);
    var step :- Scaled(full, p.learningRate);
    var minus :- Multiply(step, -1);
    var moved :- Add(model, minus);
    Ok(Update(next, moved))
  }

  function Times(v: int, q: Rational): real {
    if q.denominator == 0 then 0.0 else ((v * q.numerator) as real) / (q.denominator as real)
  }

  lemma ScaledExact(v: i64, q: Rational)
    requires Scaled(v, q).Ok?
    ensures Scaled(v, q).value == Round(Times(v, q))
  {
    hide CheckedMultiply64, RoundHalf, Round;
    Multiply64Exact(v, q.numerator);
    RoundHalfIsRound(v * q.numerator, q.denominator);
  }

  /** An accepted coordinate is the Nesterov step over the exact weighted gradient with one rounding
      per scaling and no wrap-around anywhere. */
  lemma NextCoordinateExact(p: Profile, model: i64, momentum: i64, shares: seq<Share>)
    requires NextCoordinate(p, model, momentum, shares).Ok?
    ensures var u := NextCoordinate(p, model, momentum, shares).value;
            var gradient := Round(ExactSum(shares));
            && u.momentum == Round(Times(momentum, p.momentum)) + gradient
            && u.model == model - Round(Times(Round(Times(u.momentum, p.momentum)) + gradient + Round(Times(model, p.weightDecay)), p.learningRate))
  {
    hide Weighted, Scaled, Round, Times, ExactSum, CheckedMultiply64;
    WeightedExact(shares);
    var gradient := Weighted(shares).value;
    ScaledExact(momentum, p.momentum);
    var next := Scaled(momentum, p.momentum).value + gradient;
    ScaledExact(next, p.momentum);
    ScaledExact(model, p.weightDecay);
    var full := Scaled(next, p.momentum).value + gradient + Scaled(model, p.weightDecay).value;
    ScaledExact(full, p.learningRate);
    Multiply64Exact(Scaled(full, p.learningRate).value, -1);
  }
}
