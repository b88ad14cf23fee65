/** Compound policies with any number of conditions.

    A TPM2_PolicyOR assertion takes at most eight digests, so a list of conditions is
    turned into a tree of nodes of up to eight digests. The tree is a flat slice; each
    node holds the relative index of its parent, zero at the root. Executing the policy
    finds the leaf that contains the session digest and climbs to the root.
  */
module PolicyOrTree {
  import opened Digests
  import opened Tpm

  datatype OrNode = OrNode(next: nat, digests: seq<Digest>)

  type OrTree = seq<OrNode>

  /** TPM2_PolicyOR needs two digests, so a single one is given twice. */
  function EnsureSufficient(ds: seq<Digest>): (r: seq<Digest>)
    ensures forall d :: d in r <==> d in ds
    ensures 1 <= |ds| <= MAX_OR_DIGESTS ==> MIN_OR_DIGESTS <= |r| <= MAX_OR_DIGESTS
  {
    if |ds| == 1 then [ds[0], ds[0]] else ds
  }

  /** The session digest that a node's assertion leaves. */
  function NodeDigest(alg: HashAlg, ds: seq<Digest>): (d: Digest)
    ensures IsOrDigest(d)
  {
    PolicyOrDigest(alg, EnsureSufficient(ds))
  }

  // ------------------------------------------------------- the tree, by levels

  function NodeCount(n: nat): nat {
    (n + 7) / 8
  }

  /** The digests of the i-th node of a level. */
  function Chunk(ds: seq<Digest>, i: nat): (c: seq<Digest>)
    requires i < NodeCount(|ds|)
    ensures 1 <= |c| <= 8
  {
    ds[8 * i..if 8 * i + 8 <= |ds| then 8 * i + 8 else |ds|]
  }

  /** The digests that the nodes of a level leave: the next level up. */
  function Parents(alg: HashAlg, ds: seq<Digest>): (r: seq<Digest>)
    ensures |r| == NodeCount(|ds|)
    ensures forall i | 0 <= i < |r| :: r[i] == NodeDigest(alg, Chunk(ds, i))
  {
    seq(NodeCount(|ds|), i requires 0 <= i < NodeCount(|ds|) => NodeDigest(alg, Chunk(ds, i)))
  }

  /** From the i-th of m nodes to its parent: past the end of the level, then on to the node of its group of eight. */
  function Link(m: nat, i: nat): nat
    requires i < m
  {
    m - i + i / 8
  }

  /** The nodes of a level that has a level above it. */
  function LevelNodes(ds: seq<Digest>): (r: OrTree)
    ensures |r| == NodeCount(|ds|)
    ensures forall i | 0 <= i < |r| :: r[i] == OrNode(Link(NodeCount(|ds|), i), Chunk(ds, i))
  {
    seq(NodeCount(|ds|), i requires 0 <= i < NodeCount(|ds|) => OrNode(Link(NodeCount(|ds|), i), Chunk(ds, i)))
  }

  function Flatten(alg: HashAlg, ds: seq<Digest>): (r: OrTree)
    ensures |r| > 0
    decreases |ds|
  {
    if |ds| <= 8 then [OrNode(0, ds)] else LevelNodes(ds) + Flatten(alg, Parents(alg, ds))
  }

  function RootDigest(alg: HashAlg, ds: seq<Digest>): (d: Digest)
    ensures IsOrDigest(d)
    decreases |ds|
  {
    if |ds| <= 8 then NodeDigest(alg, ds) else RootDigest(alg, Parents(alg, ds))
  }

  // ------------------------------------------------------------- computing it

  /** A software policy computation: assertions are not checked. */
  class TrialPolicy {
    const alg: HashAlg
    var digest: Digest

    constructor (alg: HashAlg)
      ensures this.alg == alg && digest == Zeros(alg)
    {
      this.alg := alg;
      digest := Zeros(alg);
    }

    method PolicyOR(ds: seq<Digest>)
      modifies this
      ensures digest == PolicyOrDigest(alg, ds)
    {
      digest := PolicyOrDigest(alg, ds);
    }

    method PolicyPCR(pcrDigest: Digest, pcrs: set<Pcr>)
      modifies this
      ensures digest == PolicyPcrDigest(alg, old(digest), pcrs, pcrDigest)
    {
      digest := PolicyPcrDigest(alg, digest, pcrs, pcrDigest);
    }

    method PolicyNV(name: Name, count: nat)
      modifies this
      ensures digest == PolicyNvDigest(alg, old(digest), name, count)
    {
      digest := PolicyNvDigest(alg, digest, name, count);
    }

    method PolicyAuthorize(policyRef: Digest, keyName: Name)
      modifies this
      ensures digest == PolicyAuthorizeDigest(alg, policyRef, keyName)
    {
      digest := PolicyAuthorizeDigest(alg, policyRef, keyName);
    }

    method PolicyAuthValue()
      modifies this
      ensures digest == PolicyAuthValueDigest(alg, old(digest))
    {
      digest := PolicyAuthValueDigest(alg, digest);
    }
  }

  /** The first k nodes of a level, before their parents are known. */
  ghost function Unlinked(ds: seq<Digest>, k: nat): (r: OrTree)
    requires k <= NodeCount(|ds|)
    ensures |r| == k
    ensures forall i | 0 <= i < k :: r[i] == OrNode(0, Chunk(ds, i))
  {
    seq(k, i requires 0 <= i < k => OrNode(0, Chunk(ds, i)))
  }

  lemma {:induction false} AppendUnlinked(done: OrTree, ds: seq<Digest>, k: nat)
    requires k < NodeCount(|ds|)
    ensures done + Unlinked(ds, k) + [OrNode(0, Chunk(ds, k))] == done + Unlinked(ds, k + 1)
  {
    assert Unlinked(ds, k) + [OrNode(0, Chunk(ds, k))] == Unlinked(ds, k + 1);
    assert done + Unlinked(ds, k) + [OrNode(0, Chunk(ds, k))] == done + (Unlinked(ds, k) + [OrNode(0, Chunk(ds, k))]);
  }

  /** Points every node of a finished level to its parent. */
  method LinkLevel(data: OrTree, curNode: nat, ghost ds: seq<Digest>, ghost done: OrTree) returns (out: OrTree)
    requires |done| == curNode && data == done + Unlinked(ds, NodeCount(|ds|))
    ensures out == done + LevelNodes(ds)
  {
    out := data;
    var m := |data| - curNode;
    ghost var linked, unlinked := LevelNodes(ds), Unlinked(ds, m);
    for i := 0 to m
      invariant out == done + linked[..i] + unlinked[i..]
    {
      assert out[curNode + i] == unlinked[i];
      out := out[curNode + i := out[curNode + i].(next := Link(m, i))];
      assert out[curNode + i] == linked[i];
    }
    assert linked[..m] == linked;
  }

  /** The loop state: `done` are the finished levels, `level` is the level being cut into
      nodes, `next` the digests of its nodes so far and `rest` its digests still to consume. */
  ghost predicate Building(alg: HashAlg, digests: seq<Digest>, level: seq<Digest>, done: OrTree, data: OrTree,
                           rest: seq<Digest>, next: seq<Digest>)
  {
    && done + Flatten(alg, level) == Flatten(alg, digests)
    && RootDigest(alg, level) == RootDigest(alg, digests)
    && InLevel(alg, level, done, data, rest, next)
  }

  ghost predicate InLevel(alg: HashAlg, level: seq<Digest>, done: OrTree, data: OrTree, rest: seq<Digest>,
                          next: seq<Digest>) {
    && |next| <= NodeCount(|level|) && next == Parents(alg, level)[..|next|]
    && data == done + Unlinked(level, |next|)
    && 8 * |next| <= |level| && rest == level[8 * |next|..]
    && (|next| > 0 ==> rest != [] && |level| > 8)
  }

  lemma {:induction false} NodeBuilt(alg: HashAlg, level: seq<Digest>, done: OrTree, data: OrTree, rest: seq<Digest>,
                                     next: seq<Digest>)
    requires InLevel(alg, level, done, data, rest, next)
    requires |rest| > 8
    ensures InLevel(alg, level, done, data + [OrNode(0, rest[..8])], rest[8..], next + [NodeDigest(alg, rest[..8])])
  {
    var k := |next|;
    assert rest[..8] == Chunk(level, k);
    assert data + [OrNode(0, rest[..8])] == done + Unlinked(level, k + 1) by {
      AppendUnlinked(done, level, k);
    }
    assert next + [NodeDigest(alg, rest[..8])] == Parents(alg, level)[..k + 1];
    assert rest[8..] == level[8 * (k + 1)..];
  }

  lemma {:induction false} LastNodeBuilt(alg: HashAlg, level: seq<Digest>, done: OrTree, data: OrTree,
                                         rest: seq<Digest>, next: seq<Digest>)
    requires InLevel(alg, level, done, data, rest, next)
    requires |rest| <= 8 && next != []
    ensures |level| > 8
    ensures data + [OrNode(0, rest)] == done + Unlinked(level, NodeCount(|level|))
    ensures next + [NodeDigest(alg, rest)] == Parents(alg, level)
  {
    var k := |next|;
    LastNodeCount(|level|, k);
    assert rest == Chunk(level, k);
    AppendUnlinked(done, level, k);
    AppendLast(Parents(alg, level), next, NodeDigest(alg, rest));
  }

  lemma {:induction false} LastNodeCount(n: nat, k: nat)
    requires 8 * k < n <= 8 * k + 8
    ensures NodeCount(n) == k + 1
  {
  }

  lemma {:induction false} AppendLast(all: seq<Digest>, init: seq<Digest>, last: Digest)
    requires |all| == |init| + 1 && init == all[..|init|] && last == all[|init|]
    ensures init + [last] == all
  {
  }

  lemma {:induction false} LevelBuilt(alg: HashAlg, digests: seq<Digest>, level: seq<Digest>, done: OrTree)
    requires |level| > 8
    requires done + Flatten(alg, level) == Flatten(alg, digests)
    requires RootDigest(alg, level) == RootDigest(alg, digests)
    ensures
      var done', level' := done + LevelNodes(level), Parents(alg, level);
      Building(alg, digests, level', done', done', level', [])
  {
    var done', level' := done + LevelNodes(level), Parents(alg, level);
    assert done' + Flatten(alg, level') == done + (LevelNodes(level) + Flatten(alg, level'));
    assert done' == done' + Unlinked(level', 0);
  }

  /** Consumes the digests of one node, and moves to the next level when this one is used up. */
  method BuildNode(alg: HashAlg, data: OrTree, curNode: nat, rest: seq<Digest>, nextDigests: seq<Digest>,
                   ghost digests: seq<Digest>, ghost level: seq<Digest>, ghost done: OrTree)
      returns (data': OrTree, curNode': nat, rest': seq<Digest>, nextDigests': seq<Digest>,
               ghost level': seq<Digest>, ghost done': OrTree)
    requires Building(alg, digests, level, done, data, rest, nextDigests) && |done| == curNode
    requires |rest| > 8 || nextDigests != []
    ensures Building(alg, digests, level', done', data', rest', nextDigests') && |done'| == curNode'
    ensures |level'| < |level| || (level' == level && |rest'| < |rest|)
  {
    var n := if |rest| > 8 then 8 else |rest|;
    if |rest| > 8 {
      NodeBuilt(alg, level, done, data, rest, nextDigests);
    } else {
      LastNodeBuilt(alg, level, done, data, rest, nextDigests);
      assert rest[..n] == rest;
    }
    level', done', curNode' := level, done, curNode;
    data' := data + [OrNode(0, rest[..n])];
    var node := new TrialPolicy(alg);
    node.PolicyOR(EnsureSufficient(rest[..n]));
    nextDigests' := nextDigests + [node.digest];
    rest' := rest[n..];
    if |rest'| == 0 {
      data' := LinkLevel(data', curNode, level, done);
      LevelBuilt(alg, digests, level, done);
      curNode' := curNode + |nextDigests'|;
      level', done', rest', nextDigests' := nextDigests', data', nextDigests', [];
    }
  }

  /** Builds the tree of `digests` and asserts its root on the trial policy. */
  method ComputePolicyOrData(alg: HashAlg, trial: TrialPolicy, digests: seq<Digest>) returns (data: OrTree)
    requires trial.alg == alg
    modifies trial
    ensures data == Flatten(alg, digests)
    ensures trial.digest == RootDigest(alg, digests)
  {
    data := [];
    var curNode := 0;
    var rest := digests;
    var nextDigests: seq<Digest> := [];
    ghost var level := digests;
    ghost var done: OrTree := [];
    while |rest| > 8 || nextDigests != []
      invariant |done| == curNode
      invariant Building(alg, digests, level, done, data, rest, nextDigests)
      decreases |level|, |rest|
    {
      data, curNode, rest, nextDigests, level, done :=
        BuildNode(alg, data, curNode, rest, nextDigests, digests, level, done);
    }
    // All of the digests at this level fit in one node, which becomes the root.
    assert rest == level && data == done;
    data := data + [OrNode(0, rest)];
    trial.PolicyOR(EnsureSufficient(rest));
  }

  // -------------------------------------------------------------- its shape

  /** The digest of every node is in the node that its link leads to, and only the last node has no link. */
  ghost predicate LinkedUp(alg: HashAlg, tree: OrTree) {
    && |tree| > 0 && tree[|tree| - 1].next == 0
    && forall i | 0 <= i < |tree| - 1 :: LinkOk(alg, tree, i)
  }

  ghost predicate LinkOk(alg: HashAlg, tree: OrTree, i: nat)
    requires i < |tree|
  {
    var up := i + tree[i].next;
    0 < tree[i].next && up < |tree| && NodeDigest(alg, tree[i].digests) in tree[up].digests
  }

  /** How many leaf nodes the executor will look at. */
  function LeafCount(tree: OrTree): nat {
    if tree == [] then 0 else if tree[0].next == 0 then 1 else tree[0].next
  }

  function Concatenated(nodes: OrTree): seq<Digest> {
    if nodes == [] then [] else nodes[0].digests + Concatenated(nodes[1..])
  }

  /** From the i-th node on, the nodes of a level hold the digests from the 8i-th on. */
  lemma {:induction false} ConcatenatedChunks(ds: seq<Digest>, i: nat)
    requires i < NodeCount(|ds|)
    ensures Concatenated(LevelNodes(ds)[i..]) == ds[8 * i..]
    decreases NodeCount(|ds|) - i
  {
    var nodes := LevelNodes(ds);
    assert nodes[i..][0].digests == Chunk(ds, i);
    assert nodes[i..][1..] == nodes[i + 1..];
    if i + 1 < NodeCount(|ds|) {
      ConcatenatedChunks(ds, i + 1);
      assert Chunk(ds, i) + ds[8 * (i + 1)..] == ds[8 * i..];
    } else {
      assert Concatenated([]) == [];
      assert Chunk(ds, i) == ds[8 * i..];
    }
  }

  lemma {:induction false} LastNode(alg: HashAlg, ds: seq<Digest>)
    ensures Flatten(alg, ds)[|Flatten(alg, ds)| - 1].next == 0
    ensures NodeDigest(alg, Flatten(alg, ds)[|Flatten(alg, ds)| - 1].digests) == RootDigest(alg, ds)
    decreases |ds|
  {
    if |ds| > 8 {
      LastNode(alg, Parents(alg, ds));
    }
  }

  lemma {:induction false} FirstNodes(alg: HashAlg, ds: seq<Digest>, i: nat)
    requires i < NodeCount(|ds|)
    ensures i < |Flatten(alg, ds)| && Flatten(alg, ds)[i].digests == Chunk(ds, i)
  {
    if |ds| <= 8 {
      assert Chunk(ds, 0) == ds;
    }
  }

  lemma {:induction false} ChunkHolds(ds: seq<Digest>, k: nat)
    requires k < |ds|
    ensures k / 8 < NodeCount(|ds|) && k % 8 < |Chunk(ds, k / 8)| && Chunk(ds, k / 8)[k % 8] == ds[k]
  {
  }

  /** The parent of the i-th node of a level is the node i/8 of the level above. */
  lemma {:induction false} LevelLinkOk(alg: HashAlg, ds: seq<Digest>, i: nat)
    requires i < NodeCount(|ds|)
    ensures LinkOk(alg, LevelNodes(ds) + Flatten(alg, Parents(alg, ds)), i)
  {
    var up := Parents(alg, ds);
    ChunkHolds(up, i);
    FirstNodes(alg, up, i / 8);
    JoinedLinkOk(alg, LevelNodes(ds), Flatten(alg, up), i, i / 8);
  }

  lemma {:induction false} JoinedLinkOk(alg: HashAlg, level: OrTree, rest: OrTree, i: nat, j: nat)
    requires i < |level| && j < |rest| && level[i].next == |level| - i + j
    requires NodeDigest(alg, level[i].digests) in rest[j].digests
    ensures LinkOk(alg, level + rest, i)
  {
    assert (level + rest)[|level| + j] == rest[j];
  }

  lemma {:induction false} ShiftedLinkOk(alg: HashAlg, level: OrTree, tree: OrTree, i: nat)
    requires i < |tree| && LinkOk(alg, tree, i)
    ensures LinkOk(alg, level + tree, |level| + i)
  {
    assert (level + tree)[|level| + i + tree[i].next] == tree[i + tree[i].next];
  }

  lemma {:induction false} LinkedConcat(alg: HashAlg, level: OrTree, rest: OrTree)
    requires LinkedUp(alg, rest)
    requires forall i | 0 <= i < |level| :: LinkOk(alg, level + rest, i)
    ensures LinkedUp(alg, level + rest)
  {
    var tree := level + rest;
    assert tree[|tree| - 1] == rest[|rest| - 1];
    forall i | |level| <= i < |tree| - 1
      ensures LinkOk(alg, tree, i)
    {
      assert LinkOk(alg, rest, i - |level|);
      ShiftedLinkOk(alg, level, rest, i - |level|);
    }
  }

  lemma {:induction false} FlattenLinked(alg: HashAlg, ds: seq<Digest>)
    ensures LinkedUp(alg, Flatten(alg, ds))
    decreases |ds|
  {
    if |ds| > 8 {
      var level, rest := LevelNodes(ds), Flatten(alg, Parents(alg, ds));
      FlattenLinked(alg, Parents(alg, ds));
      forall i | 0 <= i < |level|
        ensures LinkOk(alg, level + rest, i)
      {
        LevelLinkOk(alg, ds, i);
      }
      LinkedConcat(alg, level, rest);
    }
  }

  /** The leaves of the tree are the conditions, cut into nodes of at most eight, and the first link is their number. */
  lemma {:induction false} LeavesAreConditions(alg: HashAlg, ds: seq<Digest>)
    requires ds != []
    ensures LeafCount(Flatten(alg, ds)) == NodeCount(|ds|) <= |Flatten(alg, ds)|
    ensures Concatenated(Flatten(alg, ds)[..NodeCount(|ds|)]) == ds
  {
    var tree := Flatten(alg, ds);
    if |ds| <= 8 {
      assert tree[..1] == tree && tree[1..] == [];
      assert Concatenated(tree) == ds + Concatenated([]);
    } else {
      ConcatenatedChunks(ds, 0);
      assert tree[..NodeCount(|ds|)] == LevelNodes(ds) == LevelNodes(ds)[0..];
    }
  }

  /** Condition j is digest j % 8 of node j / 8, so all leaf nodes but the last are full. */
  lemma {:induction false} ConditionAt(alg: HashAlg, ds: seq<Digest>, j: nat)
    requires j < |ds|
    ensures
      var tree := Flatten(alg, ds);
      && j / 8 < LeafCount(tree) && j / 8 < |tree| && j % 8 < |tree[j / 8].digests|
      && tree[j / 8].digests[j % 8] == ds[j]
  {
    LeavesAreConditions(alg, ds);
    FirstNodes(alg, ds, j / 8);
    ChunkAt(ds, j);
  }

  lemma {:induction false} ChunkAt(ds: seq<Digest>, j: nat)
    requires j < |ds|
    ensures j / 8 < NodeCount(|ds|) && j % 8 < |Chunk(ds, j / 8)| && Chunk(ds, j / 8)[j % 8] == ds[j]
  {
  }

  /** Every node fits one assertion, and every link is at most the number of leaves, so 32 bits hold it
      whenever they hold the number of leaves. */
  lemma {:induction false} NodesFit(alg: HashAlg, ds: seq<Digest>, i: nat)
    requires ds != [] && i < |Flatten(alg, ds)|
    ensures 1 <= |Flatten(alg, ds)[i].digests| <= 8
    ensures Flatten(alg, ds)[i].next <= NodeCount(|ds|)
    decreases |ds|
  {
    if |ds| > 8 && i >= NodeCount(|ds|) {
      NodesFit(alg, Parents(alg, ds), i - NodeCount(|ds|));
    }
  }

  // ------------------------------------------------------------ executing it

  datatype OrError = NoPolicyData | DigestNotFound | AssertionFailed

  /** The first of the leaf nodes from `i` on that contains the digest. */
  function FindLeaf(tree: OrTree, end: nat, d: Digest, i: nat): (r: Option<nat>)
    ensures r.Some? ==> i <= r.value < |tree| && r.value < end && d in tree[r.value].digests
    ensures r.None? ==> forall k | i <= k < |tree| && k < end :: d !in tree[k].digests
    decreases |tree| - i
  {
    if i >= |tree| || i >= end then None
    else if d in tree[i].digests then Some(i)
    else FindLeaf(tree, end, d, i + 1)
  }

  /** The session digest, and the error if there was one, after climbing from a node. The links of the
      tree are arbitrary; a link that leaves the tree ends the climb. */
  function Climb(alg: HashAlg, tree: OrTree, index: nat, d: Digest): (Digest, Option<OrError>)
    requires index < |tree|
    decreases |tree| - index
  {
    var ds := EnsureSufficient(tree[index].digests);
    var up := index + tree[index].next;
    if !OrAllowed(d, ds) then (d, Some(AssertionFailed))
    else if tree[index].next == 0 || up >= |tree| then (PolicyOrDigest(alg, ds), None)
    else Climb(alg, tree, up, PolicyOrDigest(alg, ds))
  }

  function ExecuteOr(alg: HashAlg, tree: OrTree, d: Digest): (Digest, Option<OrError>) {
    if tree == [] then (d, Some(NoPolicyData))
    else
      match FindLeaf(tree, LeafCount(tree), d, 0)
      case None => (d, Some(DigestNotFound))
      case Some(i) => Climb(alg, tree, i, d)
  }

  method ExecutePolicyOrAssertions(session: PolicySession, data: OrTree) returns (err: Option<OrError>)
    modifies session
    ensures (session.digest, err) == ExecuteOr(session.alg, data, old(session.digest))
  {
    var currentDigest := session.digest;
    if |data| == 0 {
      return Some(NoPolicyData);
    }
    var index: int := -1;
    var end := data[0].next;
    if end == 0 {
      end := 1;
    }
    var i := 0;
    while i < |data| && i < end
      invariant FindLeaf(data, end, currentDigest, 0) == FindLeaf(data, end, currentDigest, i)
      decreases |data| - i
    {
      if currentDigest in data[i].digests {
        index := i;
        break;
      }
      i := i + 1;
    }
    if index == -1 {
      return Some(DigestNotFound);
    }
    var lastIndex: int := -1;
    ghost var goal := Climb(session.alg, data, index, session.digest);
    while index > lastIndex && index < |data|
      invariant 0 <= index && lastIndex < index
      invariant if index < |data| then goal == Climb(session.alg, data, index, session.digest)
                else goal == (session.digest, None)
      decreases |data| - index
    {
      lastIndex := index;
      var ok := session.PolicyOR(EnsureSufficient(data[index].digests));
      if !ok {
        return Some(AssertionFailed);
      }
      if data[index].next == 0 {
        return None;
      }
      index := index + data[index].next;
    }
    return None;
  }

  // ------------------------------------------------------- execution is exact

  lemma {:induction false} ClimbLinked(alg: HashAlg, tree: OrTree, index: nat, d: Digest)
    requires LinkedUp(alg, tree) && index < |tree| && d in tree[index].digests
    requires forall i | 0 <= i < |tree| :: 1 <= |tree[i].digests| <= 8
    ensures Climb(alg, tree, index, d) == (NodeDigest(alg, tree[|tree| - 1].digests), None)
    decreases |tree| - index
  {
    if index < |tree| - 1 {
      assert LinkOk(alg, tree, index);
      ClimbLinked(alg, tree, index + tree[index].next, NodeDigest(alg, tree[index].digests));
    }
  }

  lemma {:induction false} LeafOf(alg: HashAlg, ds: seq<Digest>, d: Digest) returns (i: nat)
    requires d in ds
    ensures i < NodeCount(|ds|) && d in Chunk(ds, i)
  {
    var k :| 0 <= k < |ds| && ds[k] == d;
    i := k / 8;
    ChunkHolds(ds, k);
  }

  lemma {:induction false} FoundLeaf(alg: HashAlg, ds: seq<Digest>, d: Digest)
    requires ds != []
    ensures FindLeaf(Flatten(alg, ds), LeafCount(Flatten(alg, ds)), d, 0).Some? <==> d in ds
  {
    var tree := Flatten(alg, ds);
    LeavesAreConditions(alg, ds);
    var found := FindLeaf(tree, LeafCount(tree), d, 0);
    if found.Some? {
      FirstNodes(alg, ds, found.value);
    } else if d in ds {
      var i := LeafOf(alg, ds, d);
      FirstNodes(alg, ds, i);
    }
  }

  lemma {:induction false} ClimbFlattened(alg: HashAlg, ds: seq<Digest>, i: nat, d: Digest)
    requires ds != [] && i < |Flatten(alg, ds)| && d in Flatten(alg, ds)[i].digests
    ensures Climb(alg, Flatten(alg, ds), i, d) == (RootDigest(alg, ds), None)
  {
    var tree := Flatten(alg, ds);
    FlattenLinked(alg, ds);
    LastNode(alg, ds);
    forall k | 0 <= k < |tree|
      ensures 1 <= |tree[k].digests| <= 8
    {
      NodesFit(alg, ds, k);
    }
    ClimbLinked(alg, tree, i, d);
  }

  /** Executing the tree of a list of conditions succeeds exactly from those conditions, and always
      reaches the digest that was predicted. */
  lemma {:induction false} ExecutionIsExact(alg: HashAlg, ds: seq<Digest>, d: Digest)
    requires ds != []
    ensures d in ds ==> ExecuteOr(alg, Flatten(alg, ds), d) == (RootDigest(alg, ds), None)
    ensures d !in ds ==> ExecuteOr(alg, Flatten(alg, ds), d) == (d, Some(DigestNotFound))
  {
    FoundLeaf(alg, ds, d);
    if d in ds {
      var tree := Flatten(alg, ds);
      ClimbFlattened(alg, ds, FindLeaf(tree, LeafCount(tree), d, 0).value, d);
    }
  }

  // ----------------------------------------------- soundness on arbitrary data

  /** A digest of some level of the tree of a list of conditions. */
  predicate AtSomeLevel(alg: HashAlg, ds: seq<Digest>, d: Digest)
    decreases |ds|
  {
    d in ds || (|ds| > 8 && AtSomeLevel(alg, Parents(alg, ds), d))
  }

  lemma {:induction false} BelowRoot(alg: HashAlg, ds: seq<Digest>, list: seq<Digest>, d: Digest)
    requires PolicyOrDigest(alg, list) == RootDigest(alg, ds) && d in list
    ensures AtSomeLevel(alg, ds, d)
    decreases |ds|
  {
    if |ds| <= 8 {
      PolicyOrInjective(alg, alg, list, EnsureSufficient(ds));
    } else {
      BelowRoot(alg, Parents(alg, ds), list, d);
    }
  }

  lemma {:induction false} BelowLevel(alg: HashAlg, ds: seq<Digest>, list: seq<Digest>, d: Digest)
    requires forall x | x in ds :: !IsOrDigest(x)
    requires AtSomeLevel(alg, ds, PolicyOrDigest(alg, list)) && d in list
    ensures AtSomeLevel(alg, ds, d)
  {
    BelowUpperLevel(alg, ds, Parents(alg, ds), list, d);
  }

  lemma {:induction false} BelowUpperLevel(alg: HashAlg, ds: seq<Digest>, up: seq<Digest>, list: seq<Digest>, d: Digest)
    requires |ds| > 8 && up == Parents(alg, ds)
    requires AtSomeLevel(alg, up, PolicyOrDigest(alg, list)) && d in list
    ensures AtSomeLevel(alg, ds, d)
    decreases |ds|
  {
    if PolicyOrDigest(alg, list) in up {
      var i :| 0 <= i < |up| && up[i] == PolicyOrDigest(alg, list);
      PolicyOrInjective(alg, alg, list, EnsureSufficient(Chunk(ds, i)));
    } else {
      BelowUpperLevel(alg, up, Parents(alg, up), list, d);
    }
  }

  /** Whatever the tree, a climb that ends at the predicted digest (or inside the predicted tree) started in it. */
  lemma {:induction false} ClimbSound(alg: HashAlg, tree: OrTree, index: nat, d: Digest, ds: seq<Digest>)
    requires index < |tree|
    requires forall x | x in ds :: !IsOrDigest(x)
    requires Climb(alg, tree, index, d) == (RootDigest(alg, ds), None)
    ensures AtSomeLevel(alg, ds, d)
    decreases |tree| - index
  {
    var list := EnsureSufficient(tree[index].digests);
    var up := index + tree[index].next;
    if tree[index].next == 0 || up >= |tree| {
      BelowRoot(alg, ds, list, d);
    } else {
      ClimbSound(alg, tree, up, PolicyOrDigest(alg, list), ds);
      BelowLevel(alg, ds, list, d);
    }
  }

  /** No metadata leads a session from a digest outside the conditions to the digest of the conditions. */
  lemma {:induction false} ExecutionIsSound(alg: HashAlg, tree: OrTree, d: Digest, ds: seq<Digest>)
    requires !IsOrDigest(d) && forall x | x in ds :: !IsOrDigest(x)
    requires ExecuteOr(alg, tree, d) == (RootDigest(alg, ds), None)
    ensures d in ds
  {
    ClimbSound(alg, tree, FindLeaf(tree, LeafCount(tree), d, 0).value, d, ds);
    NotOrMeansCondition(alg, ds, d);
  }

  lemma {:induction false} NotOrMeansCondition(alg: HashAlg, ds: seq<Digest>, d: Digest)
    requires AtSomeLevel(alg, ds, d) && !IsOrDigest(d)
    ensures d in ds
    decreases |ds|
  {
    if d !in ds {
      NotOrMeansCondition(alg, Parents(alg, ds), d);
    }
  }
}
