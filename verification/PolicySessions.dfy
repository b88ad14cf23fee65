/** The authorization policy of a sealed key: its static part, its signed PCR policy,
    and the session that satisfies both.

    Signatures are free terms. A signature verifies under a public key exactly when it was made
    with the matching private key on the same message. Metadata version 1.
  */
module PolicySessions {
  import opened Digests
  import opened Tpm
  import opened PolicyOrTree

  // ----------------------------------------------------- keys and signatures

  type PrivateKey = nat

  datatype Signature = Signature(key: PrivateKey, message: Digest)

  predicate Matches(pub: PublicKey, key: PrivateKey) {
    pub.unique == key
  }

  predicate Verifies(pub: PublicKey, message: Digest, signature: Signature) {
    Matches(pub, signature.key) && signature.message == message
  }

  // ---------------------------------------------------------- policy metadata

  datatype StaticData = StaticData(authKey: PublicKey, counterHandle: Handle)

  datatype DynamicData = DynamicData(
    pcrs: set<Pcr>,
    orData: OrTree,
    policyCount: nat,
    authorizedPolicy: Digest,
    signature: Signature)

  datatype DynamicParams = DynamicParams(
    key: PrivateKey,
    signAlg: HashAlg,
    pcrs: set<Pcr>,
    pcrDigests: seq<Digest>,
    counter: Option<NvPublic>,
    count: nat)

  const AUTH_PCR_POLICY: seq<byte> :=
    [0x41, 0x55, 0x54, 0x48, 0x2D, 0x50, 0x43, 0x52, 0x2D, 0x50, 0x4F, 0x4C, 0x49, 0x43, 0x59]

  /** The reference of signed PCR policies: it says what they are for, and binds the counter. */
  function PcrPolicyRef(counter: Option<Name>): Digest {
    Hash(SHA256, Octets(AUTH_PCR_POLICY) + [NameOf(if counter.Some? then counter.value else NullName)])
  }

  lemma {:induction false} PcrPolicyRefInjective(c1: Option<Name>, c2: Option<Name>)
    requires PcrPolicyRef(c1) == PcrPolicyRef(c2)
    requires c1 != Some(NullName) && c2 != Some(NullName)
    ensures c1 == c2
  {
    var s1, s2 := PcrPolicyRef(c1).input, PcrPolicyRef(c2).input;
    assert s1[|AUTH_PCR_POLICY|] == s2[|AUTH_PCR_POLICY|];
  }

  // --------------------------------------------------------- static policy

  /** The policy digest of a sealed key: a PCR policy signed by `authKey` for `counter`, and the PIN. */
  function StaticPolicyDigest(alg: HashAlg, authKey: PublicKey, counter: Option<Name>): Digest {
    PolicyAuthValueDigest(alg, PolicyAuthorizeDigest(alg, PcrPolicyRef(counter), KeyName(authKey)))
  }

  method ComputeStaticPolicy(alg: HashAlg, authKey: PublicKey, counterPub: Option<NvPublic>)
      returns (data: StaticData, policy: Digest)
    ensures data == StaticData(authKey, if counterPub.Some? then counterPub.value.handle else HANDLE_NULL)
    ensures policy == StaticPolicyDigest(alg, authKey, CounterName(counterPub))
  {
    var handle := HANDLE_NULL;
    var name: Option<Name> := None;
    if counterPub.Some? {
      handle := counterPub.value.handle;
      name := Some(NvName(counterPub.value));
    }
    var trial := new TrialPolicy(alg);
    trial.PolicyAuthorize(PcrPolicyRef(name), KeyName(authKey));
    trial.PolicyAuthValue();
    return StaticData(authKey, handle), trial.digest;
  }

  function CounterName(counterPub: Option<NvPublic>): Option<Name> {
    match counterPub
    case None => None
    case Some(pub) => Some(NvName(pub))
  }

  /** Two sealed keys with the same policy digest have the same signing key and the same counter. */
  lemma {:induction false} StaticPolicyInjective(alg: HashAlg, k1: PublicKey, k2: PublicKey, c1: Option<NvPublic>,
                                                 c2: Option<NvPublic>)
    requires StaticPolicyDigest(alg, k1, CounterName(c1)) == StaticPolicyDigest(alg, k2, CounterName(c2))
    ensures k1 == k2 && c1 == c2
  {
    var d1 := PolicyAuthorizeDigest(alg, PcrPolicyRef(CounterName(c1)), KeyName(k1));
    var d2 := PolicyAuthorizeDigest(alg, PcrPolicyRef(CounterName(c2)), KeyName(k2));
    PolicyAuthValueInjective(alg, alg, d1, d2);
    PolicyAuthorizeInjective(alg, PcrPolicyRef(CounterName(c1)), PcrPolicyRef(CounterName(c2)), KeyName(k1),
                             KeyName(k2));
    PcrPolicyRefInjective(CounterName(c1), CounterName(c2));
  }

  // -------------------------------------------------------- dynamic policy

  /** The session digest that each approved PCR digest leads to. */
  function PcrConditions(alg: HashAlg, pcrs: set<Pcr>, pcrDigests: seq<Digest>): (r: seq<Digest>)
    ensures |r| == |pcrDigests|
    ensures forall i | 0 <= i < |r| :: r[i] == PolicyPcrDigest(alg, Zeros(alg), pcrs, pcrDigests[i])
  {
    seq(|pcrDigests|, i requires 0 <= i < |pcrDigests| => PolicyPcrDigest(alg, Zeros(alg), pcrs, pcrDigests[i]))
  }

  /** The digest of a PCR policy: one of the PCR digests, and the counter not past the count. */
  function PcrPolicyDigest(alg: HashAlg, p: DynamicParams): Digest {
    var root := RootDigest(alg, PcrConditions(alg, p.pcrs, p.pcrDigests));
    if p.counter.Some? then PolicyNvDigest(alg, root, NvName(p.counter.value), p.count) else root
  }

  /** What is signed to authorize a PCR policy. */
  function AuthorizationMessage(signAlg: HashAlg, policy: Digest, policyRef: Digest): Digest {
    Hash(signAlg, [Block(policy), Block(policyRef)])
  }

  lemma {:induction false} AuthorizationMessageInjective(a1: HashAlg, a2: HashAlg, p1: Digest, p2: Digest, r1: Digest,
                                                         r2: Digest)
    requires AuthorizationMessage(a1, p1, r1) == AuthorizationMessage(a2, p2, r2)
    ensures a1 == a2 && p1 == p2 && r1 == r2
  {
    var s1, s2 := AuthorizationMessage(a1, p1, r1).input, AuthorizationMessage(a2, p2, r2).input;
    assert s1[0] == s2[0] && s1[1] == s2[1];
  }

  function AuthorizationOf(alg: HashAlg, p: DynamicParams): Signature {
    Signature(p.key, AuthorizationMessage(p.signAlg, PcrPolicyDigest(alg, p), PcrPolicyRef(CounterName(p.counter))))
  }

  function DynamicDataOf(alg: HashAlg, p: DynamicParams): DynamicData {
    DynamicData(p.pcrs, Flatten(alg, PcrConditions(alg, p.pcrs, p.pcrDigests)), p.count, PcrPolicyDigest(alg, p),
                AuthorizationOf(alg, p))
  }

  datatype DynamicError = NoPcrDigests

  method ComputeDynamicPolicy(alg: HashAlg, p: DynamicParams) returns (r: Result<DynamicData, DynamicError>)
    ensures r == if p.pcrDigests == [] then Failure(NoPcrDigests) else Success(DynamicDataOf(alg, p))
  {
    if |p.pcrDigests| == 0 {
      return Failure(NoPcrDigests);
    }
    var conditions: seq<Digest> := [];
    for i := 0 to |p.pcrDigests|
      invariant conditions == PcrConditions(alg, p.pcrs, p.pcrDigests)[..i]
    {
      var trial := new TrialPolicy(alg);
      trial.PolicyPCR(p.pcrDigests[i], p.pcrs);
      conditions := conditions + [trial.digest];
    }
    assert conditions == PcrConditions(alg, p.pcrs, p.pcrDigests);
    var trial := new TrialPolicy(alg);
    var orData := ComputePolicyOrData(alg, trial, conditions);
    if p.counter.Some? {
      trial.PolicyNV(NvName(p.counter.value), p.count);
    }
    var message := AuthorizationMessage(p.signAlg, trial.digest, PcrPolicyRef(CounterName(p.counter)));
    return Success(DynamicData(p.pcrs, orData, p.count, trial.digest, Signature(p.key, message)));
  }

  // ------------------------------------------------------------- the session

  datatype SessionError =
    | OrFailed(err: OrError)
    | InvalidCounterHandle
    | NoCounter
    | PolicyRevoked
    | BadSignature
    | InvalidPolicy

  /** The counter that the metadata names, if it names one. */
  function CounterOf(tpm: TpmState, static_: StaticData): Result<Option<NvIndex>, SessionError> {
    if static_.counterHandle == HANDLE_NULL then Success(None)
    else if !IsNvHandle(static_.counterHandle) then Failure(InvalidCounterHandle)
    else if static_.counterHandle !in tpm.nv then Failure(NoCounter)
    else Success(Some(tpm.nv[static_.counterHandle]))
  }

  function PublicOf(index: Option<NvIndex>): Option<NvPublic> {
    if index.Some? then Some(index.value.pub) else None
  }

  /** The session digest when the session succeeds, the error otherwise. */
  function Execute(tpm: TpmState, alg: HashAlg, static_: StaticData,
                   dynamic: DynamicData): Result<Digest, SessionError> {
    var (d1, err) := ExecuteOr(alg, dynamic.orData, PcrAsserted(tpm, alg, Zeros(alg), dynamic.pcrs));
    if err.Some? then Failure(OrFailed(err.value))
    else
      match CounterOf(tpm, static_)
      case Failure(e) => Failure(e)
      case Success(index) =>
        if index.Some? && index.value.value > dynamic.policyCount then Failure(PolicyRevoked)
        else
          var d2 := if index.Some? then PolicyNvDigest(alg, d1, NvName(index.value.pub), dynamic.policyCount) else d1;
          var policyRef := PcrPolicyRef(CounterName(PublicOf(index)));
          var message := AuthorizationMessage(static_.authKey.nameAlg, dynamic.authorizedPolicy, policyRef);
          if !Verifies(static_.authKey, message, dynamic.signature) then Failure(BadSignature)
          else if d2 != dynamic.authorizedPolicy then Failure(InvalidPolicy)
          else Success(PolicyAuthValueDigest(alg, PolicyAuthorizeDigest(alg, policyRef, KeyName(static_.authKey))))
  }

  method ExecutePolicySession(tpm: TpmState, session: PolicySession, static_: StaticData, dynamic: DynamicData)
      returns (err: Option<SessionError>)
    requires session.digest == Zeros(session.alg)
    modifies session
    ensures match Execute(tpm, session.alg, static_, dynamic)
            case Failure(e) => err == Some(e)
            case Success(d) => err == None && session.digest == d
  {
    session.PolicyPCR(tpm, dynamic.pcrs);
    var orErr := ExecutePolicyOrAssertions(session, dynamic.orData);
    if orErr.Some? {
      return Some(OrFailed(orErr.value));
    }
    if static_.counterHandle != HANDLE_NULL && !IsNvHandle(static_.counterHandle) {
      return Some(InvalidCounterHandle);
    }
    var counterName: Option<Name> := None;
    if static_.counterHandle != HANDLE_NULL {
      if static_.counterHandle !in tpm.nv {
        return Some(NoCounter);
      }
      var index := tpm.nv[static_.counterHandle];
      counterName := Some(NvName(index.pub));
      var ok := session.PolicyNV(index, dynamic.policyCount);
      if !ok {
        return Some(PolicyRevoked);
      }
    }
    var policyRef := PcrPolicyRef(counterName);
    var message := AuthorizationMessage(static_.authKey.nameAlg, dynamic.authorizedPolicy, policyRef);
    if !Verifies(static_.authKey, message, dynamic.signature) {
      return Some(BadSignature);
    }
    var ok := session.PolicyAuthorize(dynamic.authorizedPolicy, policyRef, KeyName(static_.authKey));
    if !ok {
      return Some(InvalidPolicy);
    }
    session.PolicyAuthValue();
    return None;
  }

  // ------------------------------------------------------------ completeness

  /** The session digest that the current PCR values lead to is a condition of the policy exactly when
      their digest is approved. */
  lemma {:induction false} ConditionIffApproved(tpm: TpmState, alg: HashAlg, pcrs: set<Pcr>, pcrDigests: seq<Digest>)
    requires pcrs <= tpm.pcrs.Keys
    ensures PcrAsserted(tpm, alg, Zeros(alg), pcrs) in PcrConditions(alg, pcrs, pcrDigests) <==>
            PcrDigest(alg, Selected(tpm.pcrs, pcrs)) in pcrDigests
  {
    var values := Selected(tpm.pcrs, pcrs);
    assert values.Keys == pcrs;
    var conditions := PcrConditions(alg, pcrs, pcrDigests);
    var now := PcrDigest(alg, values);
    if PcrAsserted(tpm, alg, Zeros(alg), pcrs) in conditions {
      var i :| 0 <= i < |conditions| && conditions[i] == PcrAsserted(tpm, alg, Zeros(alg), pcrs);
      PolicyPcrInjective(alg, Zeros(alg), Zeros(alg), pcrs, pcrs, pcrDigests[i], now);
    }
    if now in pcrDigests {
      var i :| 0 <= i < |pcrDigests| && pcrDigests[i] == now;
      assert conditions[i] == PcrAsserted(tpm, alg, Zeros(alg), pcrs);
    }
  }

  /** Freshly computed metadata works exactly when the PCRs are in an approved state and the policy is
      not revoked, and then leads to the policy digest of the sealed key. */
  lemma {:induction false} FreshMetadataIsExact(tpm: TpmState, alg: HashAlg, static_: StaticData, p: DynamicParams)
    requires p.pcrDigests != [] && p.pcrs <= tpm.pcrs.Keys
    requires Matches(static_.authKey, p.key) && p.signAlg == static_.authKey.nameAlg
    requires CounterOf(tpm, static_).Success? && PublicOf(CounterOf(tpm, static_).value) == p.counter
    ensures Execute(tpm, alg, static_, DynamicDataOf(alg, p)) ==
            if PcrDigest(alg, Selected(tpm.pcrs, p.pcrs)) !in p.pcrDigests then Failure(OrFailed(DigestNotFound))
            else if p.counter.Some? && CounterOf(tpm, static_).value.value.value > p.count then Failure(PolicyRevoked)
            else Success(StaticPolicyDigest(alg, static_.authKey, CounterName(p.counter)))
  {
    ConditionIffApproved(tpm, alg, p.pcrs, p.pcrDigests);
    ExecutionIsExact(alg, PcrConditions(alg, p.pcrs, p.pcrDigests), PcrAsserted(tpm, alg, Zeros(alg), p.pcrs));
  }

  /** What a session says about metadata that was changed: another signature, another policy that is signed, another
      count, or a counter that is gone. */
  lemma {:induction false} ChangedMetadataFails(tpm: TpmState, alg: HashAlg, static_: StaticData, p: DynamicParams,
                                                signature: Signature, policy: Digest, count: nat)
    requires p.pcrDigests != [] && p.pcrs <= tpm.pcrs.Keys
    requires Matches(static_.authKey, p.key) && p.signAlg == static_.authKey.nameAlg
    requires PcrDigest(alg, Selected(tpm.pcrs, p.pcrs)) in p.pcrDigests
    ensures
      var fresh_ := DynamicDataOf(alg, p);
      var signed := Signature(p.key, AuthorizationMessage(p.signAlg, policy, PcrPolicyRef(CounterName(p.counter))));
      match CounterOf(tpm, static_)
      case Failure(err) => Execute(tpm, alg, static_, fresh_) == Failure(err)
      case Success(index) =>
        PublicOf(index) == p.counter && (index.Some? ==> index.value.value <= p.count) ==>
          && (signature.key != static_.authKey.unique || signature.message != fresh_.signature.message ==>
                Execute(tpm, alg, static_, fresh_.(signature := signature)) == Failure(BadSignature))
          && (policy != fresh_.authorizedPolicy ==>
                Execute(tpm, alg, static_, fresh_.(authorizedPolicy := policy, signature := signed)) ==
                Failure(InvalidPolicy))
          && (index.Some? && count != p.count ==>
                Execute(tpm, alg, static_, fresh_.(policyCount := count)) ==
                if index.value.value > count then Failure(PolicyRevoked) else Failure(InvalidPolicy))
  {
    ConditionIffApproved(tpm, alg, p.pcrs, p.pcrDigests);
    ExecutionIsExact(alg, PcrConditions(alg, p.pcrs, p.pcrDigests), PcrAsserted(tpm, alg, Zeros(alg), p.pcrs));
    var root := RootDigest(alg, PcrConditions(alg, p.pcrs, p.pcrDigests));
    if p.counter.Some? && PolicyNvDigest(alg, root, NvName(p.counter.value), count) ==
                          PolicyNvDigest(alg, root, NvName(p.counter.value), p.count) {
      PolicyNvInjective(alg, root, root, NvName(p.counter.value), NvName(p.counter.value), count, p.count);
    }
  }

  // --------------------------------------------------------------- soundness

  /** A PCR policy that the holder of a signing key has authorized. */
  datatype Authorization = Authorization(alg: HashAlg, params: DynamicParams)

  /** What is signed to increment the counter: a nonce from the TPM, and no expiration. */
  function IncrementMessage(alg: HashAlg, nonce: nat): Digest {
    Hash(alg, [TpmNonce(nonce), ZeroExpiration])
  }

  lemma {:induction false} MessagesDiffer(signAlg: HashAlg, policy: Digest, policyRef: Digest, alg: HashAlg, nonce: nat)
    ensures AuthorizationMessage(signAlg, policy, policyRef) != IncrementMessage(alg, nonce)
  {
    var s1, s2 := AuthorizationMessage(signAlg, policy, policyRef).input, IncrementMessage(alg, nonce).input;
    assert s1[0] != s2[0];
  }

  /** Every signature in circulation was made to authorize a policy of the ledger, or to increment a counter. */
  ghost predicate Issued(signature: Signature, ledger: seq<Authorization>) {
    || (exists a :: a in ledger && signature == AuthorizationOf(a.alg, a.params))
    || (exists alg, nonce :: signature.message == IncrementMessage(alg, nonce))
  }

  /** The authorization holds now: the PCRs are in a state that it approves, and it is not revoked. */
  ghost predicate InForce(tpm: TpmState, a: Authorization, authKey: PublicKey, counter: Option<NvPublic>) {
    && Matches(authKey, a.params.key)
    && a.params.counter == counter
    && a.params.pcrs <= tpm.pcrs.Keys
    && PcrDigest(a.alg, Selected(tpm.pcrs, a.params.pcrs)) in a.params.pcrDigests
    && (counter.Some? ==> exists h ::
        h in tpm.nv && tpm.nv[h].pub == counter.value && tpm.nv[h].value <= a.params.count)
  }

  lemma {:induction false} ClimbAlg(alg: HashAlg, tree: OrTree, index: nat, d: Digest)
    requires index < |tree| && Climb(alg, tree, index, d).1 == None
    ensures Climb(alg, tree, index, d).0.alg == alg
    decreases |tree| - index
  {
    var up := index + tree[index].next;
    if tree[index].next != 0 && up < |tree| {
      ClimbAlg(alg, tree, up, PolicyOrDigest(alg, EnsureSufficient(tree[index].digests)));
    }
  }

  lemma {:induction false} RootAlg(alg: HashAlg, ds: seq<Digest>)
    ensures RootDigest(alg, ds).alg == alg
    decreases |ds|
  {
    if |ds| > 8 {
      RootAlg(alg, Parents(alg, ds));
    }
  }

  /** The signature that authorized the policy of the session is in the ledger. */
  lemma {:induction false} SignatureInLedger(signature: Signature, signAlg: HashAlg, policy: Digest, policyRef: Digest,
                                             ledger: seq<Authorization>)
      returns (a: Authorization)
    requires Issued(signature, ledger)
    requires signature.message == AuthorizationMessage(signAlg, policy, policyRef)
    ensures a in ledger && signature == AuthorizationOf(a.alg, a.params)
    ensures policy == PcrPolicyDigest(a.alg, a.params) && policyRef == PcrPolicyRef(CounterName(a.params.counter))
  {
    forall alg, nonce
      ensures signature.message != IncrementMessage(alg, nonce)
    {
      MessagesDiffer(signAlg, policy, policyRef, alg, nonce);
    }
    a :| a in ledger && signature == AuthorizationOf(a.alg, a.params);
    AuthorizationMessageInjective(signAlg, a.params.signAlg, policy, PcrPolicyDigest(a.alg, a.params), policyRef,
                                  PcrPolicyRef(CounterName(a.params.counter)));
  }

  /** Whatever OR data is presented, a session that reaches the digest of a set of PCR digests started
      from an approved PCR digest. */
  lemma {:induction false} ApprovedPcrs(tpm: TpmState, alg: HashAlg, tree: OrTree, selection: set<Pcr>, pcrs: set<Pcr>,
                                        pcrDigests: seq<Digest>)
    requires ExecuteOr(alg, tree, PcrAsserted(tpm, alg, Zeros(alg), selection)) ==
             (RootDigest(alg, PcrConditions(alg, pcrs, pcrDigests)), None)
    ensures pcrs <= tpm.pcrs.Keys && PcrDigest(alg, Selected(tpm.pcrs, pcrs)) in pcrDigests
  {
    var conditions := PcrConditions(alg, pcrs, pcrDigests);
    var start := PcrAsserted(tpm, alg, Zeros(alg), selection);
    ExecutionIsSound(alg, tree, start, conditions);
    var i :| 0 <= i < |conditions| && conditions[i] == start;
    var values := Selected(tpm.pcrs, selection);
    PolicyPcrInjective(alg, Zeros(alg), Zeros(alg), pcrs, values.Keys, pcrDigests[i], PcrDigest(alg, values));
    assert Selected(tpm.pcrs, pcrs) == values;
  }

  /** For arbitrary metadata: if a session ends at the policy digest of a sealed key, then an authorization
      made with that key, for that counter, is in force. */
  lemma {:induction false} SessionIsSound(tpm: TpmState, alg: HashAlg, static_: StaticData, dynamic: DynamicData,
                                          authKey: PublicKey, counter: Option<NvPublic>, ledger: seq<Authorization>)
      returns (a: Authorization)
    requires Issued(dynamic.signature, ledger)
    requires Execute(tpm, alg, static_, dynamic) == Success(StaticPolicyDigest(alg, authKey, CounterName(counter)))
    ensures a in ledger && a.alg == alg && InForce(tpm, a, authKey, counter)
  {
    var index := CounterOf(tpm, static_).value;
    StaticPolicyInjective(alg, static_.authKey, authKey, PublicOf(index), counter);
    var policyRef := PcrPolicyRef(CounterName(counter));
    a := SignatureInLedger(dynamic.signature, authKey.nameAlg, dynamic.authorizedPolicy, policyRef, ledger);
    PcrPolicyRefInjective(CounterName(a.params.counter), CounterName(counter));
    var start := PcrAsserted(tpm, alg, Zeros(alg), dynamic.pcrs);
    var d1 := ExecuteOr(alg, dynamic.orData, start).0;
    ClimbAlg(alg, dynamic.orData, FindLeaf(dynamic.orData, LeafCount(dynamic.orData), start, 0).value, start);
    var root := RootDigest(a.alg, PcrConditions(a.alg, a.params.pcrs, a.params.pcrDigests));
    RootAlg(a.alg, PcrConditions(a.alg, a.params.pcrs, a.params.pcrDigests));
    if counter.Some? {
      PolicyNvInjective(alg, d1, root, NvName(counter.value), NvName(counter.value), dynamic.policyCount,
                        a.params.count);
      assert tpm.nv[static_.counterHandle].pub == counter.value;
    }
    ApprovedPcrs(tpm, alg, dynamic.orData, dynamic.pcrs, a.params.pcrs, a.params.pcrDigests);
  }
}
