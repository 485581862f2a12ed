/** Shared vocabulary: outcomes, machine words, bytes and the orders the code sorts by. */
module Base {

  datatype Option<+T> = None | Some(value: T)

  /** A thrown exception is an `Err` carrying its error code. */
  datatype Result<+T, +E> = Ok(value: T) | Err(error: E) {
    predicate IsFailure() { Err? }
    function PropagateFailure<U>(): Result<U, E>
      requires Err?
    {
      Err(error)
    }
    function Extract(): T
      requires Ok?
    {
      value
    }
  }

  /** `require(condition, code, ...)` of the C++ sources. */
  function Require<E>(condition: bool, code: E): Result<(), E> {
    if condition then Ok(()) else Err(code)
  }

  const TWO_31: int := 0x8000_0000
  const TWO_32: int := 0x1_0000_0000
  const TWO_63: int := 0x8000_0000_0000_0000
  const TWO_64: int := 0x1_0000_0000_0000_0000

  type byte = x: int | 0 <= x < 0x100
  type u16 = x: int | 0 <= x < 0x1_0000
  type u32 = x: int | 0 <= x < 0x1_0000_0000
  type u64 = x: int | 0 <= x < 0x1_0000_0000_0000_0000
  type i64 = x: int | -0x8000_0000_0000_0000 <= x < 0x8000_0000_0000_0000

  type Bytes = seq<byte>

  /** A SHA-256 digest. The compression function is a parameter `sha: Bytes -> Digest`. */
  type Digest = d: Bytes | |d| == 32 witness seq(32, _ => 0)

  /** No two distinct members of `inputs` share a digest. */
  ghost predicate CollisionFree(sha: Bytes -> Digest, inputs: set<Bytes>) {
    forall x, y :: x in inputs && y in inputs && sha(x) == sha(y) ==> x == y
  }

  // ----- big-endian words -------------------------------------------------

  function Pow256(n: nat): (p: nat)
    ensures p > 0
  {
    if n == 0 then 1 else 256 * Pow256(n - 1)
  }

  /** The `width` low-order bytes of `value`, most significant first. */
  function Big(value: nat, width: nat): (b: Bytes)
    ensures |b| == width
  {
    if width == 0 then [] else Big(value / 256, width - 1) + [value % 256]
  }

  /** The number a big-endian byte string denotes. */
  function Number(b: Bytes): nat {
    if b == [] then 0 else Number(b[..|b| - 1]) * 256 + b[|b| - 1]
  }

  lemma {:induction false} NumberOfBig(value: nat, width: nat)
    requires value < Pow256(width)
    ensures Number(Big(value, width)) == value
  {
    if width > 0 {
      NumberOfBig(value / 256, width - 1);
      assert Big(value, width)[..width - 1] == Big(value / 256, width - 1);
    }
  }

  lemma {:induction false} BigOfNumber(b: Bytes)
    ensures Number(b) < Pow256(|b|)
    ensures Big(Number(b), |b|) == b
  {
    if b != [] {
      BigOfNumber(b[..|b| - 1]);
      assert b == b[..|b| - 1] + [b[|b| - 1]];
    }
  }

  /** The word widths in use: one unfolding of `Pow256` per byte. */
  lemma WordRanges()
    ensures Pow256(1) == 0x100 && Pow256(2) == 0x1_0000
    ensures Pow256(4) == TWO_32 && Pow256(8) == TWO_64
  {
    assert Pow256(3) == 0x100_0000;
    assert Pow256(4) == TWO_32;
    assert Pow256(5) == 0x100_0000_0000;
    assert Pow256(6) == 0x1_0000_0000_0000;
    assert Pow256(7) == 0x100_0000_0000_0000;
  }

  // ----- slices ------------------------------------------------------------

  /** The middle of three parts, and the parts regrouped. */
  lemma Window<T>(p: seq<T>, m: seq<T>, s: seq<T>)
    ensures (p + (m + s))[|p|..|p| + |m|] == m && (p + (m + s))[|p| + |m|..] == s
    ensures p + (m + s) == (p + m) + s
  {
  }

  lemma Rejoin<T>(b: seq<T>, i: nat, j: nat)
    requires i <= j <= |b|
    ensures b[..j] == b[..i] + b[i..j]
  {
  }

  lemma CutTwice<T>(b: seq<T>, i: nat, k: nat)
    requires i + k <= |b|
    ensures b[..i + k] == b[..i] + b[i..][..k]
  {
  }

  // ----- lexicographic order ----------------------------------------------

  /** Lexicographic order on number sequences: `std::string` compares its bytes this way. */
  predicate Less(a: seq<int>, b: seq<int>) {
    b != [] && (a == [] || a[0] < b[0] || (a[0] == b[0] && Less(a[1..], b[1..])))
  }

  lemma {:induction false} LessIrreflexive(a: seq<int>)
    ensures !Less(a, a)
  {
    if a != [] { LessIrreflexive(a[1..]); }
  }

  lemma {:induction false} LessTransitive(a: seq<int>, b: seq<int>, c: seq<int>)
    requires Less(a, b) && Less(b, c)
    ensures Less(a, c)
  {
    if a != [] && a[0] == b[0] && b[0] == c[0] {
      LessTransitive(a[1..], b[1..], c[1..]);
    }
  }

  lemma {:induction false} LessTotal(a: seq<int>, b: seq<int>)
    ensures Less(a, b) || a == b || Less(b, a)
  {
    if a != [] && b != [] && a[0] == b[0] {
      LessTotal(a[1..], b[1..]);
      assert a == [a[0]] + a[1..] && b == [b[0]] + b[1..];
    }
  }

  function Codes(s: string): (c: seq<int>)
    ensures |c| == |s|
    ensures forall i :: 0 <= i < |s| ==> c[i] == s[i] as int
  {
    seq(|s|, i requires 0 <= i < |s| => s[i] as int)
  }

  lemma CodesInjective(a: string, b: string)
    requires Codes(a) == Codes(b)
    ensures a == b
  {
    forall i | 0 <= i < |a| ensures a[i] == b[i] {
      assert Codes(a)[i] == Codes(b)[i];
    }
  }

  /** `operator<` on `std::string`. */
  predicate StringLess(a: string, b: string) {
    Less(Codes(a), Codes(b))
  }

  predicate StrictlySorted(values: seq<string>) {
    forall i :: 0 < i < |values| ==> StringLess(values[i - 1], values[i])
  }

  lemma {:induction false} SortedPairs(values: seq<string>, i: nat, j: nat)
    requires StrictlySorted(values) && i < j < |values|
    ensures StringLess(values[i], values[j]) && values[i] != values[j]
    decreases j
  {
    if i + 1 < j {
      SortedPairs(values, i, j - 1);
      LessTransitive(Codes(values[i]), Codes(values[j - 1]), Codes(values[j]));
    }
    LessIrreflexive(Codes(values[i]));
  }

  // ----- sizes and multisets ------------------------------------------------

  lemma SubsetSize<T>(a: set<T>, b: set<T>)
    requires a <= b
    ensures |a| <= |b|
  {
    assert b == a + (b - a);
  }

  lemma RemoveOne<T>(s: seq<T>, k: nat)
    requires k < |s|
    ensures multiset(s[..k] + s[k + 1..]) == multiset(s) - multiset{s[k]}
  {
    assert s == s[..k] + [s[k]] + s[k + 1..];
  }

  /** The character does not occur. */
  predicate Free(s: string, c: char) { forall i :: 0 <= i < |s| ==> s[i] != c }
}
