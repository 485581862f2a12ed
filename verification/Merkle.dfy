/** The aggregate Merkle tree: the level loop, the tree it builds and what equal roots imply. */
module Merkle {
  import opened Base
  import opened Identity
  import opened Json

  datatype CertificateError =
    | IdentifierInvalid | ContextMismatch | ParentMismatch | OrderInvalid | QuorumInvalid | MembershipMutation
    | ArithmeticInvalid | CoverageIncomplete | CoverageDuplicate | ApplyConflict | LimitExceeded

  const MAX_ENTRIES: nat := 100_000

  predicate IsLabelChar(c: char) {
    ('0' <= c <= '9') || ('a' <= c <= 'z') || ('A' <= c <= 'Z') || c in {'.', '_', ':', '-'}
  }

  predicate IsLabel(s: string) {
    0 < |s| <= 128 && forall i :: 0 <= i < |s| ==> IsLabelChar(s[i])
  }

  datatype RootLeaf = RootLeaf(domainId: string, shardQcId: string, shardId: string)

  predicate LeafOk(leaf: RootLeaf) {
    IsLabel(leaf.domainId) && IsLabel(leaf.shardId) && IsContentId(leaf.shardQcId)
  }

  const LEAF_DOMAIN: string := "deltareduce.008.aggregate-leaf.v1"
  const NODE_DOMAIN: string := "deltareduce.008.aggregate-node.v1"

  /** The canonical JSON object of a leaf. */
  function LeafJson(leaf: RootLeaf): Json {
    Object([Field("domain_id", Text(leaf.domainId)), Field("parameter_shard_qc_id", Text(leaf.shardQcId)),
            Field("shard_id", Text(leaf.shardId))])
  }

  function LeafInput(leaf: RootLeaf): Bytes { Separated(LEAF_DOMAIN, Document(LeafJson(leaf))) }

  function NodeInput(left: Digest, right: Digest): Bytes { Separated(NODE_DOMAIN, left + right) }

  // ----- the tree ----------------------------------------------------------

  datatype Tree = Leaf(leaf: RootLeaf) | Node(left: Tree, right: Tree)

  function TreeDigest(sha: Bytes -> Digest, t: Tree): Digest {
    match t
    case Leaf(leaf) => sha(LeafInput(leaf))
    case Node(l, r) => sha(NodeInput(TreeDigest(sha, l), TreeDigest(sha, r)))
  }

  /** Every byte string hashed to compute the root. */
  function Inputs(sha: Bytes -> Digest, t: Tree): set<Bytes> {
    match t
    case Leaf(leaf) => {LeafInput(leaf)}
    case Node(l, r) => {NodeInput(TreeDigest(sha, l), TreeDigest(sha, r))} + Inputs(sha, l) + Inputs(sha, r)
  }

  function Fringe(t: Tree): seq<RootLeaf> {
    match t
    case Leaf(leaf) => [leaf]
    case Node(l, r) => Fringe(l) + Fringe(r)
  }

  function Fringes(ts: seq<Tree>): seq<RootLeaf> {
    if ts == [] then [] else Fringe(ts[0]) + Fringes(ts[1..])
  }

  /** One pass of the level loop: neighbours are paired, an odd last tree is promoted unchanged. */
  function NextLevel(ts: seq<Tree>): (r: seq<Tree>)
    ensures |r| == (|ts| + 1) / 2
  {
    seq((|ts| + 1) / 2, i requires 0 <= i < (|ts| + 1) / 2 =>
      if 2 * i + 1 < |ts| then Node(ts[2 * i], ts[2 * i + 1]) else ts[2 * i])
  }

  function Collapse(ts: seq<Tree>): Tree
    requires ts != []
    decreases |ts|
  {
    if |ts| == 1 then ts[0] else Collapse(NextLevel(ts))
  }

  function Leaves(leaves: seq<RootLeaf>): (ts: seq<Tree>)
    ensures |ts| == |leaves|
  {
    seq(|leaves|, i requires 0 <= i < |leaves| => Leaf(leaves[i]))
  }

  function TreeOf(leaves: seq<RootLeaf>): Tree
    requires leaves != []
  {
    Collapse(Leaves(leaves))
  }

  // ----- the fringe is the leaf list ---------------------------------------

  lemma {:induction false} NextLevelKeepsFringe(ts: seq<Tree>)
    ensures Fringes(NextLevel(ts)) == Fringes(ts)
    decreases |ts|
  {
    if |ts| >= 2 {
      NextLevelKeepsFringe(ts[2..]);
      assert NextLevel(ts)[1..] == NextLevel(ts[2..]);
      assert ts[1..][1..] == ts[2..];
      assert Fringes(ts) == Fringe(ts[0]) + (Fringe(ts[1]) + Fringes(ts[2..]));
    } else {
      assert NextLevel(ts) == ts;
    }
  }

  lemma {:induction false} CollapseKeepsFringe(ts: seq<Tree>)
    requires ts != []
    ensures Fringe(Collapse(ts)) == Fringes(ts)
    decreases |ts|
  {
    if |ts| > 1 {
      NextLevelKeepsFringe(ts);
      CollapseKeepsFringe(NextLevel(ts));
    }
  }

  lemma {:induction false} LeavesFringe(leaves: seq<RootLeaf>)
    ensures Fringes(Leaves(leaves)) == leaves
  {
    if leaves != [] {
      LeavesFringe(leaves[1..]);
      assert Leaves(leaves)[1..] == Leaves(leaves[1..]);
    }
  }

  /** The level loop loses, adds and reorders nothing. */
  lemma FringeIsLeafList(leaves: seq<RootLeaf>)
    requires leaves != []
    ensures Fringe(TreeOf(leaves)) == leaves
  {
    CollapseKeepsFringe(Leaves(leaves));
    LeavesFringe(leaves);
  }

  // ----- hash inputs are unambiguous ----------------------------------------

  /** No leaf input is a node input. */
  lemma DomainsDiffer(x: Bytes, y: Bytes)
    ensures Separated(LEAF_DOMAIN, x) != Separated(NODE_DOMAIN, y)
  {
    assert Separated(LEAF_DOMAIN, x)[26] == Ascii(LEAF_DOMAIN)[26] == 'l' as int;
    assert Separated(NODE_DOMAIN, y)[26] == Ascii(NODE_DOMAIN)[26] == 'n' as int;
  }

  lemma LabelIsQuotable(s: string)
    requires IsLabel(s)
    ensures Quotable(s)
  {
    assert forall i :: 0 <= i < |s| ==> IsLabelChar(s[i]);
  }

  lemma ContentIdIsQuotable(s: string)
    requires IsContentId(s)
    ensures Quotable(s)
  {
    forall i | 0 <= i < |s| ensures 0x20 <= s[i] as int <= 0x7e && s[i] != '"' && s[i] != '\\' {
      if i < 7 { assert s[..7][i] == PREFIX[i]; }
    }
  }

  lemma OkLeafIsPrintable(leaf: RootLeaf)
    requires LeafOk(leaf)
    ensures Printable(LeafJson(leaf))
  {
    hide IsLabel, IsContentId;
    LabelIsQuotable(leaf.domainId);
    ContentIdIsQuotable(leaf.shardQcId);
    LabelIsQuotable(leaf.shardId);
    var f := LeafJson(leaf).fields;
    assert Quotable("domain_id") && Quotable("parameter_shard_qc_id") && Quotable("shard_id");
    assert f[2..] == [f[2]] && f[2..][1..] == [] && f[1..][1..] == f[2..] && f[1..][0] == f[1];
    assert PrintableFields(f[2..]);
    assert PrintableFields(f[1..]);
    assert f[0].key == "domain_id" && Printable(f[0].value);
    assert PrintableFields(f);
  }

  lemma LeafJsonInjective(a: RootLeaf, b: RootLeaf)
    requires LeafOk(a) && LeafOk(b) && Document(LeafJson(a)) == Document(LeafJson(b))
    ensures a == b
  {
    hide LeafOk, Document;
    OkLeafIsPrintable(a);
    OkLeafIsPrintable(b);
    DocumentInjective(LeafJson(a), LeafJson(b));
    var f, g := LeafJson(a).fields, LeafJson(b).fields;
    assert f[0] == g[0] && f[1] == g[1] && f[2] == g[2];
  }

  lemma LeafInputInjective(a: RootLeaf, b: RootLeaf)
    requires LeafOk(a) && LeafOk(b) && LeafInput(a) == LeafInput(b)
    ensures a == b
  {
    hide LeafJson, LeafOk, Document;
    SeparatedInjective(LEAF_DOMAIN, Document(LeafJson(a)), Document(LeafJson(b)));
    LeafJsonInjective(a, b);
  }

  lemma NodeInputInjective(a: Digest, b: Digest, c: Digest, d: Digest)
    requires NodeInput(a, b) == NodeInput(c, d)
    ensures a == c && b == d
  {
    SeparatedInjective(NODE_DOMAIN, a + b, c + d);
    assert (a + b)[..32] == a && (c + d)[..32] == c && (a + b)[32..] == b && (c + d)[32..] == d;
  }

  // ----- equal roots ---------------------------------------------------------

  predicate TreeOk(t: Tree) {
    match t
    case Leaf(leaf) => LeafOk(leaf)
    case Node(l, r) => TreeOk(l) && TreeOk(r)
  }

  lemma {:induction false} TreeOkFromFringe(t: Tree)
    requires forall i :: 0 <= i < |Fringe(t)| ==> LeafOk(Fringe(t)[i])
    ensures TreeOk(t)
  {
    hide LeafOk;
    match t
    case Leaf(leaf) =>
      assert Fringe(t)[0] == leaf;
    case Node(l, r) =>
      forall i | 0 <= i < |Fringe(l)| ensures LeafOk(Fringe(l)[i]) { assert Fringe(t)[i] == Fringe(l)[i]; }
      forall i | 0 <= i < |Fringe(r)| ensures LeafOk(Fringe(r)[i]) { assert Fringe(t)[|Fringe(l)| + i] == Fringe(r)[i]; }
      TreeOkFromFringe(l);
      TreeOkFromFringe(r);
  }

  /** Trees of any two shapes with one digest are the same tree, unless hashing them collided. */
  lemma {:induction false} EqualDigestsEqualTrees(sha: Bytes -> Digest, s: Tree, t: Tree, hashed: set<Bytes>)
    requires TreeOk(s) && TreeOk(t)
    requires Inputs(sha, s) <= hashed && Inputs(sha, t) <= hashed && CollisionFree(sha, hashed)
    requires TreeDigest(sha, s) == TreeDigest(sha, t)
    ensures s == t
    decreases s
  {
    hide LeafInput, NodeInput, LeafOk;
    match (s, t)
    case (Leaf(a), Leaf(b)) =>
      assert LeafInput(a) in hashed && LeafInput(b) in hashed;
      LeafInputInjective(a, b);
    case (Node(l, r), Node(l', r')) =>
      assert NodeInput(TreeDigest(sha, l), TreeDigest(sha, r)) in hashed;
      assert NodeInput(TreeDigest(sha, l'), TreeDigest(sha, r')) in hashed;
      NodeInputInjective(TreeDigest(sha, l), TreeDigest(sha, r), TreeDigest(sha, l'), TreeDigest(sha, r'));
      EqualDigestsEqualTrees(sha, l, l', hashed);
      EqualDigestsEqualTrees(sha, r, r', hashed);
    case (Leaf(a), Node(l, r)) =>
      LeafIsNoNode(sha, hashed, a, TreeDigest(sha, l), TreeDigest(sha, r));
    case (Node(l, r), Leaf(a)) =>
      LeafIsNoNode(sha, hashed, a, TreeDigest(sha, l), TreeDigest(sha, r));
  }

  lemma LeafIsNoNode(sha: Bytes -> Digest, hashed: set<Bytes>, a: RootLeaf, l: Digest, r: Digest)
    requires LeafInput(a) in hashed && NodeInput(l, r) in hashed && CollisionFree(sha, hashed)
    ensures sha(LeafInput(a)) != sha(NodeInput(l, r))
  {
    DomainsDiffer(Document(LeafJson(a)), l + r);
  }

  predicate LeavesOk(leaves: seq<RootLeaf>) {
    0 < |leaves| <= MAX_ENTRIES && forall i :: 0 <= i < |leaves| ==> LeafOk(leaves[i])
  }

  function MerkleRoot(sha: Bytes -> Digest, leaves: seq<RootLeaf>): (id: string)
    requires leaves != []
    ensures IsContentId(id)
  {
    IdOf(TreeDigest(sha, TreeOf(leaves)))
  }

  function HashedFor(sha: Bytes -> Digest, leaves: seq<RootLeaf>): set<Bytes>
    requires leaves != []
  {
    Inputs(sha, TreeOf(leaves))
  }

  /** Equal roots commit to equal leaf lists, whatever the two lengths, unless two of the strings
      hashed on the way collide. */
  lemma EqualRootsEqualLeaves(sha: Bytes -> Digest, a: seq<RootLeaf>, b: seq<RootLeaf>)
    requires LeavesOk(a) && LeavesOk(b)
    requires CollisionFree(sha, HashedFor(sha, a) + HashedFor(sha, b))
    requires MerkleRoot(sha, a) == MerkleRoot(sha, b)
    ensures a == b
  {
    hide LeafOk, TreeOf, TreeDigest, Inputs, Fringe, TreeOk, IdOf;
    FringeIsLeafList(a);
    FringeIsLeafList(b);
    TreeOkFromFringe(TreeOf(a));
    TreeOkFromFringe(TreeOf(b));
    IdInjective(TreeDigest(sha, TreeOf(a)), TreeDigest(sha, TreeOf(b)));
    EqualDigestsEqualTrees(sha, TreeOf(a), TreeOf(b), HashedFor(sha, a) + HashedFor(sha, b));
  }

  // ----- the loops ---------------------------------------------------------

  function Id(sha: Bytes -> Digest, t: Tree): string { IdOf(TreeDigest(sha, t)) }

  predicate IsLevel(sha: Bytes -> Digest, level: seq<string>, ts: seq<Tree>) {
    |level| == |ts| && forall i :: 0 <= i < |ts| ==> level[i] == Id(sha, ts[i])
  }

  lemma PairId(sha: Bytes -> Digest, l: Tree, r: Tree)
    ensures IsContentId(Id(sha, l)) && IsContentId(Id(sha, r))
    ensures IdOf(sha(NodeInput(DigestOf(Id(sha, l)), DigestOf(Id(sha, r))))) == Id(sha, Node(l, r))
  {
    hide NodeInput, IdOf, DigestOf, IsContentId;
    DigestOfId(TreeDigest(sha, l));
    DigestOfId(TreeDigest(sha, r));
  }

  /** One level up. */
  method Pairs(sha: Bytes -> Digest, level: seq<string>, ghost ts: seq<Tree>) returns (parent: seq<string>)
    requires IsLevel(sha, level, ts)
    ensures IsLevel(sha, parent, NextLevel(ts))
  {
    hide NodeInput, IdOf, DigestOf, IsContentId, Id;
    parent := [];
    var index := 0;
    while index < |level|
      invariant index <= |level| + 1 && (index % 2 == 0) && |parent| == index / 2
      invariant forall i :: 0 <= i < |parent| ==> parent[i] == Id(sha, NextLevel(ts)[i])
    {
      if index + 1 == |level| {
        parent := parent + [level[index]];
      } else {
        PairId(sha, ts[index], ts[index + 1]);
        var pair := NodeInput(DigestOf(level[index]), DigestOf(level[index + 1]));
        assert NextLevel(ts)[index / 2] == Node(ts[index], ts[index + 1]);
        parent := parent + [IdOf(sha(pair))];
      }
      index := index + 2;
    }
  }

  /** `aggregate_merkle_root`. */
  method AggregateMerkleRoot(sha: Bytes -> Digest, leaves: seq<RootLeaf>) returns (r: Result<string, CertificateError>)
    ensures r.Ok? <==> LeavesOk(leaves)
    ensures r.Ok? ==> r.value == MerkleRoot(sha, leaves)
    ensures r.Err? ==> r.error == if 0 < |leaves| <= MAX_ENTRIES then IdentifierInvalid else LimitExceeded
  {
    hide LeafOk, LeafInput, IdOf;
    if !(0 < |leaves| <= MAX_ENTRIES) { return Err(LimitExceeded); }
    var level: seq<string> := [];
    for k := 0 to |leaves|
      invariant |level| == k
      invariant forall i :: 0 <= i < k ==> LeafOk(leaves[i]) && level[i] == Id(sha, Leaf(leaves[i]))
    {
      if !LeafOk(leaves[k]) { return Err(IdentifierInvalid); }
      level := level + [IdOf(sha(LeafInput(leaves[k])))];
    }
    ghost var ts := Leaves(leaves);
    while |level| > 1
      invariant 1 <= |level| && IsLevel(sha, level, ts) && Collapse(ts) == TreeOf(leaves)
      decreases |level|
    {
      level := Pairs(sha, level, ts);
      ts := NextLevel(ts);
    }
    r := Ok(level[0]);
  }
}
