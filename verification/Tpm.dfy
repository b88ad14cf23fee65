/** The TPM side: the digest that each policy assertion leaves in a session, and the
    checks that the TPM makes before it updates that digest. The formulas are those of
    the TPM 2.0 Library Specification, Part 3: sections 23.6 (PolicyOR), 23.7 (PolicyPCR),
    23.9 (PolicyNV), 23.16 (PolicyAuthorize) and 23.17 (PolicyAuthValue).
  */
module Tpm {
  import opened Digests

  const MIN_OR_DIGESTS := 2
  const MAX_OR_DIGESTS := 8

  // ---------------------------------------------------------- policy digests

  /** PolicyOR starts again from a zero digest. */
  function PolicyOrDigest(alg: HashAlg, ds: seq<Digest>): Digest {
    Hash(alg, [Block(Zeros(alg)), Cc(CcPolicyOR)] + Blocks(ds))
  }

  function PolicyPcrDigest(alg: HashAlg, prev: Digest, pcrs: set<Pcr>, pcrDigest: Digest): Digest {
    Hash(alg, [Block(prev), Cc(CcPolicyPCR), Selection(pcrs), Block(pcrDigest)])
  }

  /** The assertion that the counter `name` is not greater than `count`. */
  function PolicyNvDigest(alg: HashAlg, prev: Digest, name: Name, count: nat): Digest {
    Hash(alg, [Block(prev), Cc(CcPolicyNV), Block(Hash(alg, [Count(count), UnsignedLE])), NameOf(name)])
  }

  /** PolicyAuthorize starts again from a zero digest, and hashes the policy reference separately. */
  function PolicyAuthorizeDigest(alg: HashAlg, policyRef: Digest, keyName: Name): Digest {
    Hash(alg, [Block(Hash(alg, [Block(Zeros(alg)), Cc(CcPolicyAuthorize), NameOf(keyName)])), Block(policyRef)])
  }

  function PolicyAuthValueDigest(alg: HashAlg, prev: Digest): Digest {
    Hash(alg, [Block(prev), Cc(CcPolicyAuthValue)])
  }

  function PolicyNvWrittenDigest(alg: HashAlg, prev: Digest, written: bool): Digest {
    Hash(alg, [Block(prev), Cc(CcPolicyNvWritten), Flag(written)])
  }

  function PolicySignedDigest(alg: HashAlg, prev: Digest, keyName: Name): Digest {
    Hash(alg, [Block(Hash(alg, [Block(prev), Cc(CcPolicySigned), NameOf(keyName)]))])
  }

  predicate IsOrDigest(d: Digest) {
    d.Hash? && |d.input| >= 2 && d.input[1] == Cc(CcPolicyOR)
  }

  lemma {:induction false} PolicyOrInjective(alg1: HashAlg, alg2: HashAlg, ds1: seq<Digest>, ds2: seq<Digest>)
    requires PolicyOrDigest(alg1, ds1) == PolicyOrDigest(alg2, ds2)
    ensures alg1 == alg2 && ds1 == ds2
  {
    var s1 := [Block(Zeros(alg1)), Cc(CcPolicyOR)] + Blocks(ds1);
    var s2 := [Block(Zeros(alg2)), Cc(CcPolicyOR)] + Blocks(ds2);
    assert s1[2..] == Blocks(ds1) && s2[2..] == Blocks(ds2);
    BlocksInjective(ds1, ds2);
  }

  lemma {:induction false} PolicyPcrInjective(alg: HashAlg, prev1: Digest, prev2: Digest, pcrs1: set<Pcr>,
                                              pcrs2: set<Pcr>, d1: Digest, d2: Digest)
    requires PolicyPcrDigest(alg, prev1, pcrs1, d1) == PolicyPcrDigest(alg, prev2, pcrs2, d2)
    ensures prev1 == prev2 && pcrs1 == pcrs2 && d1 == d2
  {
    var s1 := PolicyPcrDigest(alg, prev1, pcrs1, d1).input;
    var s2 := PolicyPcrDigest(alg, prev2, pcrs2, d2).input;
    assert s1[0] == s2[0] && s1[2] == s2[2] && s1[3] == s2[3];
  }

  lemma {:induction false} PolicyNvInjective(alg: HashAlg, prev1: Digest, prev2: Digest, n1: Name, n2: Name, c1: nat,
                                             c2: nat)
    requires PolicyNvDigest(alg, prev1, n1, c1) == PolicyNvDigest(alg, prev2, n2, c2)
    ensures prev1 == prev2 && n1 == n2 && c1 == c2
  {
    var s1 := PolicyNvDigest(alg, prev1, n1, c1).input;
    var s2 := PolicyNvDigest(alg, prev2, n2, c2).input;
    assert s1[0] == s2[0] && s1[2] == s2[2] && s1[3] == s2[3];
    assert s1[2].d.input[0] == s2[2].d.input[0];
  }

  lemma {:induction false} PolicyAuthorizeInjective(alg: HashAlg, r1: Digest, r2: Digest, k1: Name, k2: Name)
    requires PolicyAuthorizeDigest(alg, r1, k1) == PolicyAuthorizeDigest(alg, r2, k2)
    ensures r1 == r2 && k1 == k2
  {
    var s1 := PolicyAuthorizeDigest(alg, r1, k1).input;
    var s2 := PolicyAuthorizeDigest(alg, r2, k2).input;
    assert s1[0] == s2[0] && s1[1] == s2[1];
    assert s1[0].d.input[2] == s2[0].d.input[2];
  }

  lemma {:induction false} PolicyAuthValueInjective(alg1: HashAlg, alg2: HashAlg, d1: Digest, d2: Digest)
    requires PolicyAuthValueDigest(alg1, d1) == PolicyAuthValueDigest(alg2, d2)
    ensures alg1 == alg2 && d1 == d2
  {
    assert PolicyAuthValueDigest(alg1, d1).input[0] == PolicyAuthValueDigest(alg2, d2).input[0];
  }

  // ----------------------------------------------------------- TPM resources

  type Handle = nat

  const HANDLE_NULL: Handle := 0x40000007

  /** The most significant octet of an NV index handle is 0x01. */
  predicate IsNvHandle(h: Handle) {
    0x01000000 <= h < 0x02000000
  }

  datatype NvIndex = NvIndex(pub: NvPublic, value: nat)

  /** What a policy session reads from the TPM. A PCR that is not a key of `pcrs` is not implemented. */
  datatype TpmState = TpmState(pcrs: PcrValues, nv: map<Handle, NvIndex>)

  function Selected(pcrs: PcrValues, selection: set<Pcr>): (r: PcrValues)
    ensures r.Keys == pcrs.Keys * selection
    ensures forall p | p in r :: r[p] == pcrs[p]
  {
    map p | p in pcrs && p in selection :: pcrs[p]
  }

  // ----------------------------------------------------------- a policy session

  class PolicySession {
    const alg: HashAlg
    var digest: Digest

    constructor (alg: HashAlg)
      ensures this.alg == alg && digest == Zeros(alg)
    {
      this.alg := alg;
      digest := Zeros(alg);
    }

    /** The session digest must be one of two to eight digests. */
    method PolicyOR(ds: seq<Digest>) returns (ok: bool)
      modifies this
      ensures ok == OrAllowed(old(digest), ds)
      ensures digest == if ok then PolicyOrDigest(alg, ds) else old(digest)
    {
      ok := OrAllowed(digest, ds);
      if ok {
        digest := PolicyOrDigest(alg, ds);
      }
    }

    /** Unimplemented PCRs are dropped from the selection. */
    method PolicyPCR(tpm: TpmState, selection: set<Pcr>)
      modifies this
      ensures digest == PcrAsserted(tpm, alg, old(digest), selection)
    {
      digest := PcrAsserted(tpm, alg, digest, selection);
    }

    /** Fails unless the counter is at most `count`. */
    method PolicyNV(index: NvIndex, count: nat) returns (ok: bool)
      modifies this
      ensures ok == (index.value <= count)
      ensures digest == if ok then PolicyNvDigest(alg, old(digest), NvName(index.pub), count) else old(digest)
    {
      ok := index.value <= count;
      if ok {
        digest := PolicyNvDigest(alg, digest, NvName(index.pub), count);
      }
    }

    /** Fails unless the session digest is the approved policy; the ticket has been checked by the caller. */
    method PolicyAuthorize(approved: Digest, policyRef: Digest, keyName: Name) returns (ok: bool)
      modifies this
      ensures ok == (old(digest) == approved)
      ensures digest == if ok then PolicyAuthorizeDigest(alg, policyRef, keyName) else old(digest)
    {
      ok := digest == approved;
      if ok {
        digest := PolicyAuthorizeDigest(alg, policyRef, keyName);
      }
    }

    method PolicyAuthValue()
      modifies this
      ensures digest == PolicyAuthValueDigest(alg, old(digest))
    {
      digest := PolicyAuthValueDigest(alg, digest);
    }
  }

  predicate OrAllowed(current: Digest, ds: seq<Digest>) {
    MIN_OR_DIGESTS <= |ds| <= MAX_OR_DIGESTS && current in ds
  }

  function PcrAsserted(tpm: TpmState, alg: HashAlg, prev: Digest, selection: set<Pcr>): Digest {
    var values := Selected(tpm.pcrs, selection);
    PolicyPcrDigest(alg, prev, values.Keys, PcrDigest(alg, values))
  }
}
