/** Digests as free terms.

    A digest is the hash of a stream of symbols, and two hashes are equal only when
    the algorithm and the whole input stream are. Concatenation stays concatenation:
    symbols of different fields run into one another, so an ambiguity in how a
    message is laid out is visible in the model. A symbol is either one octet, a
    block holding a digest, or one marshalled TPM structure.
  */
module Digests {

  datatype HashAlg = SHA1 | SHA256 | SHA384 | SHA512

  newtype byte = x: int | 0 <= x < 256

  type Bytes = seq<byte>

  datatype Pcr = Pcr(alg: HashAlg, index: int)

  type PcrValues = map<Pcr, Digest>

  datatype Digest =
    | Zeros(alg: HashAlg)
    | Hash(alg: HashAlg, input: seq<Sym>)

  datatype Command =
    | CcPolicyOR
    | CcPolicyPCR
    | CcPolicyNV
    | CcPolicyAuthorize
    | CcPolicyAuthValue
    | CcPolicyNvWritten
    | CcPolicySigned

  datatype Sym =
    | Octet(b: byte)
    | Block(d: Digest)
    | Cc(cc: Command)
    | Selection(pcrs: set<Pcr>)
    | Count(count: nat)                // an 8-byte operand
    | UnsignedLE                       // offset 0 and the operation code
    | Flag(b0: bool)
    | NameOf(name: Name)
    | TpmNonce(nonce: nat)
    | ZeroExpiration

  datatype KeyType = ECC | RSA

  datatype KeyScheme = NullScheme | Ecdsa(hash: HashAlg) | RsaPss(hash: HashAlg)

  /** The public area of a signing key; `unique` stands for the public point. */
  datatype PublicKey = PublicKey(keyType: KeyType, nameAlg: HashAlg, scheme: KeyScheme, unique: nat)

  /** The public area of a counter NV index. */
  datatype NvPublic = NvPublic(handle: nat, nameAlg: HashAlg, authPolicy: Digest, written: bool)

  datatype Name =
    | KeyName(pub: PublicKey)
    | NvName(nv: NvPublic)
    | NullName                         // the name of TPM_RH_NULL is its handle

  datatype Option<+T> = None | Some(value: T)

  datatype Result<+T, +E> = Success(value: T) | Failure(error: E)

  lemma {:induction false} Regroup<T>(a: seq<T>, b: seq<T>, c: seq<T>)
    ensures a + (b + c) == a + b + c
  {
  }

  // ---------------------------------------------------------------- extending

  /** The value a PCR takes when it is extended. */
  function Extend(prev: Digest, alg: HashAlg, value: Digest): Digest {
    Hash(alg, [Block(prev), Block(value)])
  }

  /** The value of a PCR after extending it with each of `vs`. */
  function Fold(d: Digest, alg: HashAlg, vs: seq<Digest>): Digest {
    if vs == [] then d else Extend(Fold(d, alg, vs[..|vs| - 1]), alg, vs[|vs| - 1])
  }

  lemma {:induction false} FoldConcat(d: Digest, alg: HashAlg, a: seq<Digest>, b: seq<Digest>)
    ensures Fold(d, alg, a + b) == Fold(Fold(d, alg, a), alg, b)
    decreases |b|
  {
    if b == [] {
      assert a + b == a;
    } else {
      assert (a + b)[..|a + b| - 1] == a + b[..|b| - 1];
      FoldConcat(d, alg, a, b[..|b| - 1]);
    }
  }

  lemma {:induction false} ExtendInjective(old1: Digest, old2: Digest, alg1: HashAlg, alg2: HashAlg, v1: Digest,
                                           v2: Digest)
    requires Extend(old1, alg1, v1) == Extend(old2, alg2, v2)
    ensures old1 == old2 && alg1 == alg2 && v1 == v2
  {
    var s1 := [Block(old1), Block(v1)];
    var s2 := [Block(old2), Block(v2)];
    assert s1[0] == s2[0] && s1[1] == s2[1];
  }

  function Blocks(ds: seq<Digest>): (s: seq<Sym>)
    ensures |s| == |ds|
    ensures forall i | 0 <= i < |ds| :: s[i] == Block(ds[i])
  {
    seq(|ds|, i requires 0 <= i < |ds| => Block(ds[i]))
  }

  lemma {:induction false} BlocksInjective(ds1: seq<Digest>, ds2: seq<Digest>)
    requires Blocks(ds1) == Blocks(ds2)
    ensures ds1 == ds2
  {
    assert |ds1| == |ds2|;
    forall i | 0 <= i < |ds1|
      ensures ds1[i] == ds2[i]
    {
      assert Blocks(ds1)[i] == Blocks(ds2)[i];
    }
  }

  function Octets(bs: seq<byte>): (s: seq<Sym>)
    ensures |s| == |bs|
    ensures forall i | 0 <= i < |bs| :: s[i] == Octet(bs[i])
  {
    seq(|bs|, i requires 0 <= i < |bs| => Octet(bs[i]))
  }

  lemma {:induction false} OctetsInjective(a: seq<byte>, b: seq<byte>)
    requires Octets(a) == Octets(b)
    ensures a == b
  {
    assert |a| == |b|;
    forall i | 0 <= i < |a|
      ensures a[i] == b[i]
    {
      assert Octets(a)[i] == Octets(b)[i];
    }
  }

  // ------------------------------------------------------------------ numbers

  const UINT32_LIMIT := 0x1_0000_0000

  function Uint32(b: Bytes): (n: nat)
    requires |b| == 4
    ensures n < UINT32_LIMIT
  {
    b[0] as nat + 0x100 * b[1] as nat + 0x10000 * b[2] as nat + 0x1000000 * b[3] as nat
  }

  function Uint16(b: Bytes): nat
    requires |b| == 2
  {
    b[0] as nat + 0x100 * b[1] as nat
  }

  /** The low 32 bits, least significant octet first. */
  function EncodeUint32(n: nat): (b: Bytes)
    ensures |b| == 4
  {
    [(n % 0x100) as byte, (n / 0x100 % 0x100) as byte, (n / 0x10000 % 0x100) as byte, (n / 0x1000000 % 0x100) as byte]
  }

  lemma {:induction false} EncodedUint32(n: nat)
    requires n < UINT32_LIMIT
    ensures Uint32(EncodeUint32(n)) == n
  {
    assert n / 0x10000 == n / 0x100 / 0x100;
    assert n / 0x1000000 == n / 0x10000 / 0x100;
  }

  lemma {:induction false} Uint32Encoded(b: Bytes)
    requires |b| == 4
    ensures EncodeUint32(Uint32(b)) == b
  {
    var n := Uint32(b);
    assert n / 0x100 == b[1] as nat + 0x100 * b[2] as nat + 0x10000 * b[3] as nat;
    assert n / 0x10000 == b[2] as nat + 0x100 * b[3] as nat;
    assert n / 0x1000000 == b[3] as nat;
  }

  // ------------------------------------------------ the digest of a PCR selection

  function AlgRank(alg: HashAlg): nat {
    match alg
    case SHA1 => 0
    case SHA256 => 1
    case SHA384 => 2
    case SHA512 => 3
  }

  predicate PcrBefore(a: Pcr, b: Pcr) {
    AlgRank(a.alg) < AlgRank(b.alg) || (a.alg == b.alg && a.index < b.index)
  }

  /** The first PCR of a selection: lowest bank, then lowest index. */
  predicate IsFirst(m: Pcr, s: set<Pcr>) {
    m in s && forall x | x in s :: x == m || PcrBefore(m, x)
  }

  lemma {:induction false} FirstPcrExists(s: set<Pcr>)
    requires s != {}
    ensures exists m :: IsFirst(m, s)
    decreases |s|
  {
    var a :| a in s;
    var t := s - {a};
    if t == {} {
      assert s == {a};
      assert IsFirst(a, s);
    } else {
      FirstPcrExists(t);
      var m :| IsFirst(m, t);
      var first := if PcrBefore(a, m) then a else m;
      assert s == t + {a};
      assert IsFirst(first, s);
    }
  }

  /** The PCRs of a selection in the order in which the TPM concatenates them. */
  function Ascending(s: set<Pcr>): (r: seq<Pcr>)
    ensures forall p :: p in r <==> p in s
    decreases |s|
  {
    if s == {} then []
    else
      FirstPcrExists(s);
      var m :| IsFirst(m, s);
      [m] + Ascending(s - {m})
  }

  /** The PCR digest of a set of PCR values: the hash of the selected values, concatenated. */
  function PcrDigest(alg: HashAlg, values: PcrValues): Digest {
    var order := Ascending(values.Keys);
    Hash(alg, Blocks(seq(|order|, i requires 0 <= i < |order| => values[order[i]])))
  }

  /** The TPM concatenates the values bank by bank, and in a bank by index. */
  lemma {:induction false} AscendingIsSorted(s: set<Pcr>, i: nat, j: nat)
    requires i < j < |Ascending(s)|
    ensures PcrBefore(Ascending(s)[i], Ascending(s)[j])
    decreases |s|
  {
    var m :| IsFirst(m, s) && Ascending(s) == [m] + Ascending(s - {m});
    if i > 0 {
      AscendingIsSorted(s - {m}, i - 1, j - 1);
    } else {
      assert Ascending(s)[j] in Ascending(s - {m});
    }
  }

  /** For a fixed selection, equal PCR digests mean equal PCR values. */
  lemma {:induction false} PcrDigestInjective(alg: HashAlg, v1: PcrValues, v2: PcrValues)
    requires v1.Keys == v2.Keys
    requires PcrDigest(alg, v1) == PcrDigest(alg, v2)
    ensures v1 == v2
  {
    var order := Ascending(v1.Keys);
    var d1 := seq(|order|, i requires 0 <= i < |order| => v1[order[i]]);
    var d2 := seq(|order|, i requires 0 <= i < |order| => v2[order[i]]);
    assert Blocks(d1) == Blocks(d2);
    BlocksInjective(d1, d2);
    forall p | p in v1
      ensures v1[p] == v2[p]
    {
      assert p in order;
      var i :| 0 <= i < |order| && order[i] == p;
      assert d1[i] == d2[i];
    }
  }
}
