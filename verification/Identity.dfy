/** Content identifiers: "sha256:" and the lowercase hexadecimal digest of a domain-separated input. */
module Identity {
  import opened Base

  predicate IsHexDigit(c: char) {
    ('0' <= c <= '9') || ('a' <= c <= 'f')
  }

  function HexDigit(n: nat): (c: char)
    requires n < 16
    ensures IsHexDigit(c) && Nibble(c) == n
  {
    if n < 10 then '0' + (n as char) else 'a' + ((n - 10) as char)
  }

  /** The nibble of a digit, as `digest_bytes` computes it. */
  function Nibble(c: char): (n: nat)
    requires IsHexDigit(c)
    ensures n < 16
  {
    if c <= '9' then c as int - '0' as int else 10 + (c as int - 'a' as int)
  }

  function Hex(b: Bytes): (s: string)
    ensures |s| == 2 * |b|
    ensures forall i :: 0 <= i < |s| ==> IsHexDigit(s[i])
  {
    if b == [] then "" else [HexDigit(b[0] / 16), HexDigit(b[0] % 16)] + Hex(b[1..])
  }

  function Unhex(s: string): (b: Bytes)
    requires |s| % 2 == 0 && forall i :: 0 <= i < |s| ==> IsHexDigit(s[i])
    ensures 2 * |b| == |s|
  {
    if s == "" then [] else [Nibble(s[0]) * 16 + Nibble(s[1])] + Unhex(s[2..])
  }

  lemma {:induction false} UnhexOfHex(b: Bytes)
    ensures Unhex(Hex(b)) == b
  {
    if b != [] {
      assert Hex(b)[2..] == Hex(b[1..]);
      UnhexOfHex(b[1..]);
      assert Hex(b)[0] == HexDigit(b[0] / 16) && Hex(b)[1] == HexDigit(b[0] % 16);
    }
  }

  const PREFIX: string := "sha256:"

  predicate IsContentId(s: string) {
    |s| == 71 && s[..7] == PREFIX && forall i :: 7 <= i < 71 ==> IsHexDigit(s[i])
  }

  /** Characters as bytes; the cast keeps the low eight bits. */
  function Ascii(s: string): (b: Bytes)
    ensures |b| == |s|
    ensures forall i :: 0 <= i < |s| ==> b[i] == s[i] as int % 256
  {
    seq(|s|, i requires 0 <= i < |s| => s[i] as int % 256)
  }

  lemma AsciiInjective(a: string, b: string)
    requires forall i :: 0 <= i < |a| ==> a[i] as int < 256
    requires forall i :: 0 <= i < |b| ==> b[i] as int < 256
    requires Ascii(a) == Ascii(b)
    ensures a == b
  {
    assert |a| == |b|;
    forall i | 0 <= i < |a| ensures a[i] == b[i] {
      assert Ascii(a)[i] == Ascii(b)[i];
    }
  }

  /** The bytes that are hashed: domain, a zero byte, payload. */
  function Separated(domain: string, payload: Bytes): Bytes {
    Ascii(domain) + [0] + payload
  }

  lemma SeparatedInjective(domain: string, x: Bytes, y: Bytes)
    requires Separated(domain, x) == Separated(domain, y)
    ensures x == y
  {
    assert Separated(domain, x)[|domain| + 1..] == x && Separated(domain, y)[|domain| + 1..] == y;
  }

  function IdOf(d: Digest): (id: string)
    ensures IsContentId(id)
  {
    PREFIX + Hex(d)
  }

  /** `digest_bytes`: the 32 bytes an identifier names. */
  function DigestOf(id: string): Digest
    requires IsContentId(id)
  {
    Unhex(id[7..])
  }

  lemma DigestOfId(d: Digest)
    ensures DigestOf(IdOf(d)) == d
  {
    assert IdOf(d)[7..] == Hex(d);
    UnhexOfHex(d);
  }

  lemma IdInjective(a: Digest, b: Digest)
    requires IdOf(a) == IdOf(b)
    ensures a == b
  {
    DigestOfId(a);
    DigestOfId(b);
  }
}
