/** Two-limb 128-bit arithmetic and the integers it is meant to refine. */
module Arithmetic {
  import opened Base

  const TWO_127: int := 0x8000_0000_0000_0000_0000_0000_0000_0000
  const TWO_128: int := 0x1_0000_0000_0000_0000_0000_0000_0000_0000

  datatype ArithmeticError = AddOverflow | MultiplyOverflow

  /** The high and low words of `UInt128` and of `Int128`. */
  datatype Limbs = Limbs(high: u64, low: u64)

  function Unsigned(x: Limbs): (n: nat)
    ensures n < TWO_128
  {
    x.high * TWO_64 + x.low
  }

  predicate Negative(x: Limbs) { x.high >= TWO_63 }

  /** Two's complement. */
  function Signed(x: Limbs): (n: int)
    ensures -TWO_127 <= n < TWO_127
  {
    if Negative(x) then Unsigned(x) - TWO_128 else Unsigned(x)
  }

  lemma SignBit(x: Limbs)
    ensures Negative(x) <==> Unsigned(x) >= TWO_127
  {
  }

  predicate Fits128(n: int) { -TWO_127 <= n < TWO_127 }
  predicate Fits64(n: int) { -TWO_63 <= n < TWO_63 }

  function FromU64(n: u64): Limbs { Limbs(0, n) }

  function FromI64(n: i64): (x: Limbs)
    ensures Signed(x) == n
  {
    if n < 0 then Limbs(TWO_64 - 1, n + TWO_64) else Limbs(0, n)
  }

  lemma LimbsUnique(x: Limbs, y: Limbs)
    requires Unsigned(x) == Unsigned(y)
    ensures x == y
  {
  }

  lemma SignedUnique(x: Limbs, y: Limbs)
    requires Signed(x) == Signed(y)
    ensures x == y
  {
  }

  // ----- limb operations ----------------------------------------------------

  /** `compare_unsigned`. */
  function CompareUnsigned(a: Limbs, b: Limbs): (c: int)
    ensures (c < 0 <==> Unsigned(a) < Unsigned(b)) && (c == 0 <==> a == b)
    ensures c == 0 <==> Unsigned(a) == Unsigned(b)
  {
    if a.high < b.high then -1 else if a.high > b.high then 1
    else if a.low < b.low then -1 else if a.low > b.low then 1 else 0
  }

  /** `compare` orders by value. */
  function Compare(a: Limbs, b: Limbs): (c: int)
    ensures (c < 0 <==> Signed(a) < Signed(b)) && (c == 0 <==> Signed(a) == Signed(b))
  {
    if Negative(a) != Negative(b) then (if Negative(a) then -1 else 1) else CompareUnsigned(a, b)
  }

  /** A sum of two words, modulo 2^64. */
  function Wrap64(n: nat): u64
    requires n < 2 * TWO_64
  {
    if n < TWO_64 then n else n - TWO_64
  }

  /** A sum of two 128-bit numbers, modulo 2^128. */
  function Wrap128(n: nat): nat
    requires n < 2 * TWO_128
  {
    if n < TWO_128 then n else n - TWO_128
  }

  /** `add_unsigned`: words wrap, the carry is read off the low word. */
  function AddUnsigned(a: Limbs, b: Limbs): (c: Limbs)
    ensures Unsigned(c) == Wrap128(Unsigned(a) + Unsigned(b))
  {
    var low := Wrap64(a.low + b.low);
    var carry := if low < a.low then 1 else 0;
    Limbs(Wrap64(Wrap64(a.high + b.high) + carry), low)
  }

  /** `shift_right`; the bits of the two words do not overlap, so `|` is a sum. */
  function ShiftRight(a: Limbs): (c: Limbs)
    ensures Unsigned(c) == Unsigned(a) / 2
  {
    Limbs(a.high / 2, a.low / 2 + (a.high % 2) * TWO_63)
  }

  function ShiftLeft(a: Limbs): (c: Limbs)
    ensures Unsigned(c) == Wrap128(2 * Unsigned(a))
  {
    Limbs(Wrap64(2 * a.high) + (if a.low >= TWO_63 then 1 else 0), Wrap64(2 * a.low))
  }

  /** `negate_unsigned`: complement both words and add one. */
  function Negate(a: Limbs): (c: Limbs)
    ensures Unsigned(c) == Wrap128(TWO_128 - Unsigned(a))
  {
    var low := Wrap64((TWO_64 - 1 - a.low) + 1);
    var carry := if low == 0 then 1 else 0;
    Limbs(Wrap64((TWO_64 - 1 - a.high) + carry), low)
  }

  function Abs(n: int): nat { if n < 0 then -n else n }

  function Magnitude(x: Limbs): (c: Limbs)
    ensures Unsigned(c) == Abs(Signed(x))
  {
    if Negative(x) then Negate(x) else x
  }

  /** `from_magnitude`. */
  function FromMagnitude(m: Limbs, negative: bool): (x: Limbs)
    ensures Unsigned(m) <= Limit(negative) ==> Signed(x) == if negative then 0 - Unsigned(m) else Unsigned(m)
  {
    if negative && m != Limbs(0, 0) then Negate(m) else m
  }

  /** The largest magnitude a product of the given sign may have. */
  function Limit(negative: bool): nat { if negative then TWO_127 else TWO_127 - 1 }

  // ----- addition ----------------------------------------------------------

  /** The sign test sees exactly the sums out of range. */
  lemma SumOutcome(a: Limbs, b: Limbs)
    ensures var sum := AddUnsigned(a, b);
            && (Negative(a) == Negative(b) && Negative(sum) != Negative(a) <==> !Fits128(Signed(a) + Signed(b)))
            && (Fits128(Signed(a) + Signed(b)) ==> Signed(sum) == Signed(a) + Signed(b))
  {
    hide AddUnsigned, Unsigned;
    var sum := AddUnsigned(a, b);
    SignBit(a);
    SignBit(b);
    SignBit(sum);
  }

  /** Exact if and only if the sum is in range. */
  function CheckedAdd(a: Limbs, b: Limbs): (r: Result<Limbs, ArithmeticError>)
    ensures r.Ok? <==> Fits128(Signed(a) + Signed(b))
    ensures r.Ok? ==> Signed(r.value) == Signed(a) + Signed(b)
    ensures r.Err? ==> r.error == AddOverflow
  {
    hide AddUnsigned, Unsigned, Signed;
    var sum := AddUnsigned(a, b);
    SumOutcome(a, b);
    var _ :- Require(!(Negative(a) == Negative(b) && Negative(sum) != Negative(a)), AddOverflow);
    Ok(sum)
  }

  function CheckedAdd64(a: i64, b: i64): (r: Result<i64, ArithmeticError>)
    ensures r.Ok? <==> Fits64(a + b)
    ensures r.Ok? ==> r.value == a + b
  {
    if (b > 0 && a > TWO_63 - 1 - b) || (b < 0 && a < -TWO_63 - b) then Err(AddOverflow) else Ok(a + b)
  }

  // ----- multiplication ----------------------------------------------------

  /** `multiply_magnitude` on numbers: the shift-and-add loop with its high-word overflow test. */
  function ShiftAdd(result: nat, addend: nat, remaining: nat, limit: nat): Option<nat>
    requires result < TWO_128 && addend < TWO_128
    decreases remaining
  {
    if remaining == 0 then Some(result)
    else
      var candidate := Wrap128(result + addend);
      if remaining % 2 == 1 && (candidate / TWO_64 < result / TWO_64 || candidate > limit) then None
      else
        var next := if remaining % 2 == 1 then candidate else result;
        if remaining / 2 == 0 then Some(next)
        else if addend >= TWO_127 then None
        else ShiftAdd(next, Wrap128(2 * addend), remaining / 2, limit)
  }

  /** The loop itself, on limbs. */
  method MultiplyMagnitude(left: Limbs, right: Limbs, limit: Limbs) returns (r: Result<Limbs, ArithmeticError>)
    ensures match ShiftAdd(0, Unsigned(left), Unsigned(right), Unsigned(limit))
            case Some(n) => r.Ok? && Unsigned(r.value) == n
            case None => r == Err(MultiplyOverflow)
  {
    hide Unsigned, AddUnsigned, ShiftRight, ShiftLeft, CompareUnsigned;
    var result, addend, remaining := Limbs(0, 0), left, right;
    LowBit(result);
    while remaining != Limbs(0, 0)
      invariant ShiftAdd(Unsigned(result), Unsigned(addend), Unsigned(remaining), Unsigned(limit))
             == ShiftAdd(0, Unsigned(left), Unsigned(right), Unsigned(limit))
      decreases Unsigned(remaining)
    {
      LowBit(remaining);
      LowBit(ShiftRight(remaining));
      HighWord(result);
      SignBit(addend);
      if remaining.low % 2 == 1 {
        var candidate := AddUnsigned(result, addend);
        HighWord(candidate);
        if candidate.high < result.high || CompareUnsigned(candidate, limit) > 0 { return Err(MultiplyOverflow); }
        result := candidate;
      }
      remaining := ShiftRight(remaining);
      if remaining != Limbs(0, 0) {
        if Negative(addend) { return Err(MultiplyOverflow); }
        addend := ShiftLeft(addend);
      }
    }
    LowBit(remaining);
    r := Ok(result);
  }

  lemma LowBit(x: Limbs)
    ensures Unsigned(x) % 2 == x.low % 2
    ensures Unsigned(x) == 0 <==> x == Limbs(0, 0)
  {
  }

  lemma HighWord(x: Limbs)
    ensures Unsigned(x) / TWO_64 == x.high
  {
  }

  /** The largest power of two not above n. */
  function TopPower(n: nat): (p: nat)
    requires n > 0
    ensures p <= n < 2 * p
  {
    if n == 1 then 1 else 2 * TopPower(n / 2)
  }

  /** The last addition passes 2^128 and the high-word test cannot see it: the addend's high word
      is all ones and the low words carry. */
  predicate Wraps(rest: nat, last: nat, limit: nat) {
    rest <= limit && TWO_128 - TWO_64 <= last < TWO_128 && rest % TWO_64 + last % TWO_64 >= TWO_64
  }

  lemma LastAddition(result: nat, addend: nat, limit: nat)
    requires result <= limit <= TWO_127 && addend < TWO_128
    ensures ShiftAdd(result, addend, 1, limit)
         == if result + addend <= limit then Some(result + addend)
            else if Wraps(result, addend, limit) then Some(result + addend - TWO_128) else None
  {
    if result + addend < TWO_128 {
      WrapIsLarge(result, addend, limit);
    } else {
      WrapIsUnseen(result, addend);
    }
  }

  /** After a wrap the high word is kept exactly when only the low words carried. */
  lemma WrapIsUnseen(result: nat, addend: nat)
    requires result <= TWO_127 && addend < TWO_128 && result + addend >= TWO_128
    ensures (result + addend - TWO_128) / TWO_64 >= result / TWO_64 <==>
            TWO_128 - TWO_64 <= addend && result % TWO_64 + addend % TWO_64 >= TWO_64
  {
    var gap := TWO_128 - addend;
    assert result + addend - TWO_128 == result - gap;
    var h, l := result / TWO_64, result % TWO_64;
    assert result == h * TWO_64 + l;
    if gap <= l {
      assert (result - gap) / TWO_64 == h;
    } else {
      assert (result - gap) / TWO_64 < h;
    }
  }

  lemma TopOfOdd(n: nat)
    requires n > 1
    ensures TopPower(n) >= 2 && (n % 2 == 1 ==> n - TopPower(n) >= 1)
  {
  }

  lemma Doubling(addend: nat, n: nat)
    ensures (2 * addend) * (n / 2) == addend * n - (if n % 2 == 1 then addend else 0)
  {
    var half := n / 2;
    Reassociate(addend, half);
    if n % 2 == 1 {
      assert n == 2 * half + 1;
      assert addend * (2 * half + 1) == addend * (2 * half) + addend;
    } else {
      assert n == 2 * half;
    }
  }

  lemma Reassociate(a: nat, b: nat)
    ensures (2 * a) * b == a * (2 * b)
  {
  }

  lemma ProductSplits(l: nat, r: nat)
    requires r > 0
    ensures l * r == l * (r - TopPower(r)) + l * TopPower(r)
  {
  }

  /** The last power and the rest are the same before and after one turn of the loop. */
  lemma TurnKeepsParts(addend: nat, n: nat)
    requires n > 1
    ensures (2 * addend) * TopPower(n / 2) == addend * TopPower(n)
    ensures (2 * addend) * (n / 2 - TopPower(n / 2)) == addend * (n - TopPower(n)) - (if n % 2 == 1 then addend else 0)
  {
    hide TopPower;
    TopDoubles(addend, n);
    Doubling(addend, n);
    ProductSplits(2 * addend, n / 2);
    ProductSplits(addend, n);
    Difference((2 * addend) * (n / 2 - TopPower(n / 2)), (2 * addend) * TopPower(n / 2), (2 * addend) * (n / 2),
               addend * (n - TopPower(n)), addend * TopPower(n), addend * n);
  }

  lemma TopDoubles(addend: nat, n: nat)
    requires n > 1
    ensures (2 * addend) * TopPower(n / 2) == addend * TopPower(n)
  {
    Reassociate(addend, TopPower(n / 2));
  }

  lemma Difference(x: int, y: int, z: int, a: int, b: int, c: int)
    requires z == x + y && c == a + b && y == b
    ensures x == a - (c - z)
  {
  }

  /** What the loop computes from any state: the exact total if it is within the limit, the total
      less 2^128 in the unseen case, and a rejection otherwise. */
  lemma {:induction false} ShiftAddExact(result: nat, addend: nat, remaining: nat, limit: nat)
    requires result <= limit <= TWO_127 && addend < TWO_128 && remaining > 0
    ensures var total := result + addend * remaining;
            var last := addend * TopPower(remaining);
            var rest := result + addend * (remaining - TopPower(remaining));
            ShiftAdd(result, addend, remaining, limit)
            == if total <= limit then Some(total) else if Wraps(rest, last, limit) then Some(total - TWO_128) else None
    decreases remaining
  {
    hide Wraps, ShiftAdd;
    if remaining == 1 {
      LastAddition(result, addend, limit);
    } else {
      var odd := remaining % 2 == 1;
      var next := if odd then result + addend else result;
      if addend >= TWO_127 {
        TooLarge(result, addend, remaining, limit);
      } else if odd && next > limit {
        OddTooLarge(result, addend, remaining, limit);
      } else {
        Doubling(addend, remaining);
        TurnKeepsParts(addend, remaining);
        OneTurn(result, addend, remaining, limit, next);
        ShiftAddExact(next, 2 * addend, remaining / 2, limit);
      }
    }
  }

  /** A turn of the loop that neither wraps nor rejects. */
  lemma OneTurn(result: nat, addend: nat, remaining: nat, limit: nat, next: nat)
    requires remaining > 1 && addend < TWO_127 && limit <= TWO_127
    requires next == (if remaining % 2 == 1 then result + addend else result) && next <= limit
    ensures ShiftAdd(result, addend, remaining, limit) == ShiftAdd(next, 2 * addend, remaining / 2, limit)
  {
  }

  lemma TooLarge(result: nat, addend: nat, remaining: nat, limit: nat)
    requires remaining > 1 && TWO_127 <= addend < TWO_128 && result <= limit <= TWO_127
    ensures result + addend * remaining > limit
    ensures !Wraps(result + addend * (remaining - TopPower(remaining)), addend * TopPower(remaining), limit)
    ensures ShiftAdd(result, addend, remaining, limit) == None
  {
    TopOfOdd(remaining);
    Grows(addend, 2, remaining);
    Grows(addend, 2, TopPower(remaining));
  }

  lemma OddTooLarge(result: nat, addend: nat, remaining: nat, limit: nat)
    requires remaining > 1 && remaining % 2 == 1 && addend < TWO_127 && result <= limit <= TWO_127 && result + addend > limit
    ensures result + addend * remaining > limit
    ensures !Wraps(result + addend * (remaining - TopPower(remaining)), addend * TopPower(remaining), limit)
    ensures ShiftAdd(result, addend, remaining, limit) == None
  {
    TopOfOdd(remaining);
    Grows(addend, 1, remaining);
    Grows(addend, 1, remaining - TopPower(remaining));
  }

  lemma Grows(a: nat, m: nat, n: nat)
    requires m <= n
    ensures a * m <= a * n
  {
  }

  /** `checked_multiply` on `Int128`. */
  function CheckedMultiply(left: Limbs, right: Limbs): Result<Limbs, ArithmeticError> {
    var negative := Negative(left) != Negative(right);
    match ShiftAdd(0, Unsigned(Magnitude(left)), Unsigned(Magnitude(right)), Limit(negative))
    case Some(n) => Ok(FromMagnitude(Limbs(n / TWO_64 % TWO_64, n % TWO_64), negative))
    case None => Err(MultiplyOverflow)
  }

  method Multiply(left: Limbs, right: Limbs) returns (r: Result<Limbs, ArithmeticError>)
    ensures r == CheckedMultiply(left, right)
  {
    var negative := Negative(left) != Negative(right);
    var limit := if negative then Limbs(TWO_63, 0) else Limbs(TWO_63 - 1, TWO_64 - 1);
    var m := MultiplyMagnitude(Magnitude(left), Magnitude(right), limit);
    if m.Err? { return Err(m.error); }
    HighWord(m.value);
    LimbsUnique(m.value, Limbs(Unsigned(m.value) / TWO_64 % TWO_64, Unsigned(m.value) % TWO_64));
    r := Ok(FromMagnitude(m.value, negative));
  }

  predicate WrapsFor(l: nat, r: nat, limit: nat) {
    r > 0 && Wraps(l * (r - TopPower(r)), l * TopPower(r), limit)
  }

  /** The operand pairs whose product is accepted with a wrong value. */
  predicate MultiplyWraps(x: int, y: int) { WrapsFor(Abs(x), Abs(y), Limit((x < 0) != (y < 0))) }

  lemma ProductSign(x: int, y: int)
    ensures x * y == if (x < 0) != (y < 0) then -(Abs(x) * Abs(y)) else Abs(x) * Abs(y)
  {
  }

  /** `multiply_magnitude` on all magnitudes, against the limit of the product's sign. */
  lemma MagnitudeOutcome(l: nat, r: nat, limit: nat)
    requires l < TWO_128 && limit <= TWO_127
    ensures ShiftAdd(0, l, r, limit)
         == if l * r <= limit then Some(l * r) else if WrapsFor(l, r, limit) then Some(l * r - TWO_128) else None
    ensures WrapsFor(l, r, limit) ==> TWO_128 <= l * r < TWO_128 + limit
  {
    hide Wraps, TopPower, ShiftAdd;
    if r == 0 {
      NothingToAdd(l, limit);
    } else {
      ShiftAddExact(0, l, r, limit);
      ProductSplits(l, r);
      WrapIsLarge(l * (r - TopPower(r)), l * TopPower(r), limit);
    }
  }

  lemma NothingToAdd(l: nat, limit: nat)
    requires l < TWO_128
    ensures l * 0 == 0 && ShiftAdd(0, l, 0, limit) == Some(0)
  {
  }

  lemma NumberToLimbs(n: nat, negative: bool)
    requires n <= Limit(negative)
    ensures Signed(FromMagnitude(Limbs(n / TWO_64 % TWO_64, n % TWO_64), negative)) == if negative then 0 - n else n
  {
    hide Negate;
    assert n / TWO_64 % TWO_64 == n / TWO_64;
    assert Unsigned(Limbs(n / TWO_64, n % TWO_64)) == n;
  }

  /** Every 128-bit multiplication: exact when the product is in range; out of range it is
      rejected, except for the pairs of `MultiplyWraps`, which yield the product modulo 2^128. */
  lemma MultiplyOutcome(a: Limbs, b: Limbs)
    ensures var x, y := Signed(a), Signed(b); var r := CheckedMultiply(a, b);
            && (Fits128(x * y) ==> r.Ok? && Signed(r.value) == x * y && !MultiplyWraps(x, y))
            && (!Fits128(x * y) ==> (r.Ok? <==> MultiplyWraps(x, y)))
            && (MultiplyWraps(x, y) ==> r.Ok? && Abs(Signed(r.value)) == Abs(x) * Abs(y) - TWO_128 && Signed(r.value) != x * y)
  {
    hide ShiftAdd, WrapsFor, FromMagnitude, Unsigned, Magnitude;
    var x, y := Signed(a), Signed(b);
    var negative := Negative(a) != Negative(b);
    var n := Abs(x) * Abs(y);
    SignedSign(a);
    SignedSign(b);
    ProductSign(x, y);
    MagnitudeOutcome(Abs(x), Abs(y), Limit(negative));
    if n <= Limit(negative) { NumberToLimbs(n, negative); }
    if WrapsFor(Abs(x), Abs(y), Limit(negative)) { NumberToLimbs(n - TWO_128, negative); }
  }

  lemma SignedSign(x: Limbs)
    ensures Negative(x) <==> Signed(x) < 0
  {
  }

  lemma WrapIsLarge(rest: nat, last: nat, limit: nat)
    requires limit <= TWO_127
    ensures Wraps(rest, last, limit) ==> TWO_128 <= rest + last < TWO_128 + limit
  {
  }

  /** Rejected products are out of range; so are the wrapped ones, whose magnitude is 2^128 or more. */
  lemma RejectionsAreGenuine(a: Limbs, b: Limbs)
    ensures CheckedMultiply(a, b).Err? ==> !Fits128(Signed(a) * Signed(b))
    ensures Abs(Signed(a)) * Abs(Signed(b)) < TWO_128 ==>
              (CheckedMultiply(a, b).Ok? <==> Fits128(Signed(a) * Signed(b)))
              && (CheckedMultiply(a, b).Ok? ==> Signed(CheckedMultiply(a, b).value) == Signed(a) * Signed(b))
  {
    hide CheckedMultiply, Signed;
    MultiplyOutcome(a, b);
  }

  /** The largest Int128 times three is accepted as 2^127 - 3. */
  lemma MaximumTimesThree()
    ensures var max, three := Limbs(TWO_63 - 1, TWO_64 - 1), FromU64(3);
            && Signed(max) == TWO_127 - 1 && !Fits128(Signed(max) * Signed(three))
            && CheckedMultiply(max, three).Ok? && Signed(CheckedMultiply(max, three).value) == TWO_127 - 3
  {
    var max, three := Limbs(TWO_63 - 1, TWO_64 - 1), FromU64(3);
    assert TopPower(3) == 2;
    MultiplyOutcome(max, three);
    ShiftAddExact(0, TWO_127 - 1, 3, TWO_127 - 1);
  }

  // ----- narrowing ---------------------------------------------------------

  /** `narrow_i64`. */
  function Narrow(x: Limbs): (r: Result<i64, ArithmeticError>)
    ensures r.Ok? <==> Fits64(Signed(x))
    ensures r.Ok? ==> r.value == Signed(x)
  {
    if x.high == 0 && x.low <= TWO_63 - 1 then Ok(x.low)
    else if x.high == TWO_64 - 1 && x.low >= TWO_63 then
      if x.low == TWO_63 then Ok(-TWO_63) else Ok(-((TWO_64 - 1 - x.low + 1) % TWO_64))
    else Err(MultiplyOverflow)
  }

  function CheckedMultiply64(a: i64, b: i64): Result<i64, ArithmeticError> {
    var product :- CheckedMultiply(FromI64(a), FromI64(b));
    Narrow(product)
  }

  lemma SmallProduct(x: int, y: int, m: nat, n: nat)
    requires Abs(x) <= m && Abs(y) <= n
    ensures Abs(x * y) <= m * n
  {
    ProductSign(x, y);
    Grows(Abs(x), Abs(y), n);
    Grows(n, Abs(x), m);
  }

  /** The 64-bit product is exact if and only if it is in range. */
  lemma Multiply64Exact(a: i64, b: i64)
    ensures CheckedMultiply64(a, b).Ok? <==> Fits64(a * b)
    ensures CheckedMultiply64(a, b).Ok? ==> CheckedMultiply64(a, b).value == a * b
  {
    hide CheckedMultiply, MultiplyWraps;
    SmallProduct(a, b, TWO_63, TWO_63);
    MultiplyOutcome(FromI64(a), FromI64(b));
  }

  /** Quotients round down: a quotient is determined by its remainder. */
  lemma QuotientIs(n: int, d: nat, q: int, r: nat)
    requires n == q * d + r && r < d
    ensures n / d == q
  {
    var q', r' := n / d, n % d;
    assert n == q' * d + r';
    if q' > q { Spread(d, q, q'); } else if q' < q { Spread(d, q', q); }
  }

  lemma Spread(d: nat, low: int, high: int)
    requires low < high
    ensures low * d + d <= high * d
  {
    assert high * d == low * d + (high - low) * d;
    Grows(d, 1, high - low);
  }
}
