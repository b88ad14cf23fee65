/** Sealed key files: their contents, their validation, and what unsealing one takes.
    Metadata version 1.
  */
module KeyFiles {
  import opened Digests
  import opened Tpm
  import opened PolicyOrTree
  import opened PolicySessions

  // --------------------------------------------------- the PCR policy counter

  /** The counter may be written when it is new, or with an assertion signed by the update key. */
  function CounterAuthPolicies(alg: HashAlg, keyName: Name): seq<Digest> {
    [PolicyNvWrittenDigest(alg, Zeros(alg), false), PolicySignedDigest(alg, Zeros(alg), keyName)]
  }

  function CounterAuthPolicy(alg: HashAlg, keyName: Name): Digest {
    PolicyOrDigest(alg, CounterAuthPolicies(alg, keyName))
  }

  /** The public area of a new counter. Its name changes when it is first written. */
  function NewCounterPublic(handle: Handle, keyName: Name): NvPublic {
    NvPublic(handle, SHA256, CounterAuthPolicy(SHA256, keyName), false)
  }

  function Written(pub: NvPublic): NvPublic {
    pub.(written := true)
  }

  /** A command of a policy session on an NV index. PolicySigned is part of a session only if the holder of the key has
      signed the nonce of the session. */
  datatype NvCommand = PolicyNvWritten(written: bool) | PolicySigned(keyName: Name) | PolicyOr(digests: seq<Digest>)

  /** The digest of a session on an index, unless the TPM refuses one of its commands. */
  function SessionDigest(index: NvPublic, commands: seq<NvCommand>): Option<Digest> {
    if commands == [] then Some(Zeros(index.nameAlg))
    else
      match SessionDigest(index, commands[..|commands| - 1])
      case None => None
      case Some(d) =>
        match commands[|commands| - 1]
        case PolicyNvWritten(written) =>
          if written == index.written then Some(PolicyNvWrittenDigest(index.nameAlg, d, written)) else None
        case PolicySigned(keyName) => Some(PolicySignedDigest(index.nameAlg, d, keyName))
        case PolicyOr(digests) => if OrAllowed(d, digests) then Some(PolicyOrDigest(index.nameAlg, digests)) else None
  }

  /** The session authorizes a command on the index. */
  predicate Authorizes(index: NvPublic, commands: seq<NvCommand>) {
    SessionDigest(index, commands) == Some(index.authPolicy)
  }

  /** The session that gives a new counter its first value. */
  function InitSession(alg: HashAlg, keyName: Name): seq<NvCommand> {
    [PolicyNvWritten(false), PolicyOr(CounterAuthPolicies(alg, keyName))]
  }

  /** The session that increments a counter. */
  function IncrementSession(alg: HashAlg, keyName: Name): seq<NvCommand> {
    [PolicySigned(keyName), PolicyOr(CounterAuthPolicies(alg, keyName))]
  }

  predicate MayInitialise(index: NvPublic, keyName: Name) {
    Authorizes(index, InitSession(index.nameAlg, keyName))
  }

  predicate MayIncrement(index: NvPublic, keyName: Name) {
    Authorizes(index, IncrementSession(index.nameAlg, keyName))
  }

  lemma {:induction false} SignedInjective(alg: HashAlg, d1: Digest, d2: Digest, k1: Name, k2: Name)
    requires PolicySignedDigest(alg, d1, k1) == PolicySignedDigest(alg, d2, k2)
    ensures d1 == d2 && k1 == k2
  {
    var s1, s2 := PolicySignedDigest(alg, d1, k1).input, PolicySignedDigest(alg, d2, k2).input;
    assert s1[0] == s2[0];
    assert s1[0].d.input[0] == s2[0].d.input[0] && s1[0].d.input[2] == s2[0].d.input[2];
  }

  lemma {:induction false} CounterPolicyInjective(alg: HashAlg, k1: Name, k2: Name)
    requires CounterAuthPolicy(alg, k1) == CounterAuthPolicy(alg, k2)
    ensures k1 == k2
  {
    var l1, l2 := CounterAuthPolicies(alg, k1), CounterAuthPolicies(alg, k2);
    PolicyOrInjective(alg, alg, l1, l2);
    assert l1[1] == l2[1];
    SignedInjective(alg, Zeros(alg), Zeros(alg), k1, k2);
  }

  lemma {:induction false} TwoCommands(index: NvPublic, a: NvCommand, b: NvCommand)
    ensures SessionDigest(index, [a, b]) ==
            match SessionDigest(index, [a])
            case None => None
            case Some(d) =>
              match b
              case PolicyNvWritten(written) =>
                if written == index.written then Some(PolicyNvWrittenDigest(index.nameAlg, d, written)) else None
              case PolicySigned(keyName) => Some(PolicySignedDigest(index.nameAlg, d, keyName))
              case PolicyOr(digests) =>
                if OrAllowed(d, digests) then Some(PolicyOrDigest(index.nameAlg, digests)) else None
    ensures SessionDigest(index, [a]) ==
            match a
            case PolicyNvWritten(written) =>
              if written == index.written then Some(PolicyNvWrittenDigest(index.nameAlg, Zeros(index.nameAlg), written))
              else None
            case PolicySigned(keyName) => Some(PolicySignedDigest(index.nameAlg, Zeros(index.nameAlg), keyName))
            case PolicyOr(digests) =>
              if OrAllowed(Zeros(index.nameAlg), digests) then Some(PolicyOrDigest(index.nameAlg, digests)) else None
  {
    assert [a, b][..1] == [a] && [a][..0] == [];
  }

  /** A new counter can be initialised with no authorization, and a written one incremented with its own key and no
      other; initialising it again is refused. */
  lemma {:induction false} CounterBelongsToKey(handle: Handle, owner: Name, keyName: Name)
    ensures MayInitialise(NewCounterPublic(handle, owner), owner)
    ensures MayIncrement(Written(NewCounterPublic(handle, owner)), keyName) <==> keyName == owner
    ensures !MayInitialise(Written(NewCounterPublic(handle, owner)), keyName)
  {
    var new_, written := NewCounterPublic(handle, owner), Written(NewCounterPublic(handle, owner));
    var own, other := CounterAuthPolicies(SHA256, owner), CounterAuthPolicies(SHA256, keyName);
    TwoCommands(new_, PolicyNvWritten(false), PolicyOr(own));
    assert own[0] == PolicyNvWrittenDigest(SHA256, Zeros(SHA256), false);
    TwoCommands(written, PolicySigned(keyName), PolicyOr(other));
    assert other[1] == PolicySignedDigest(SHA256, Zeros(SHA256), keyName);
    TwoCommands(written, PolicyNvWritten(false), PolicyOr(other));
    if MayIncrement(written, keyName) {
      CounterPolicyInjective(SHA256, owner, keyName);
    }
  }

  /** The first and the later increments of a counter are authorized. */
  predicate Usable(pub: NvPublic, keyName: Name) {
    MayInitialise(pub, keyName) && MayIncrement(Written(pub), keyName)
  }

  lemma {:induction false} NewCounterUsable(handle: Handle, keyName: Name)
    ensures Usable(NewCounterPublic(handle, keyName), keyName)
  {
    CounterBelongsToKey(handle, keyName, keyName);
  }

  /** The last command of a session, from the digest of the session. */
  lemma {:induction false} LastCommand(index: NvPublic, commands: seq<NvCommand>, d: Digest)
    requires SessionDigest(index, commands) == Some(d) && d.Hash?
    ensures commands != [] && SessionDigest(index, commands[..|commands| - 1]).Some?
    ensures
      var before, last := SessionDigest(index, commands[..|commands| - 1]).value, commands[|commands| - 1];
      && (IsOrDigest(d) ==>
            last.PolicyOr? && OrAllowed(before, last.digests) && d == PolicyOrDigest(index.nameAlg, last.digests))
      && (|d.input| == 1 ==> last.PolicySigned? && d == PolicySignedDigest(index.nameAlg, before, last.keyName))
      && (|d.input| == 3 && d.input[1] == Cc(CcPolicyNvWritten) ==> d.input[2] == Flag(index.written))
  {
  }

  /** On a written index no session has the digest of the assertion that it is not written. */
  lemma {:induction false} NotReinitialised(index: NvPublic, commands: seq<NvCommand>, d: Digest)
    requires index.written && SessionDigest(index, commands) == Some(d)
    ensures d != PolicyNvWrittenDigest(index.nameAlg, Zeros(index.nameAlg), false)
  {
    if d.Hash? {
      LastCommand(index, commands, d);
    }
  }

  lemma {:induction false} SignedBefore(index: NvPublic, commands: seq<NvCommand>, keyName: Name)
    requires SessionDigest(index, commands) == Some(PolicySignedDigest(index.nameAlg, Zeros(index.nameAlg), keyName))
    ensures PolicySigned(keyName) in commands
  {
    var d := PolicySignedDigest(index.nameAlg, Zeros(index.nameAlg), keyName);
    LastCommand(index, commands, d);
    var n := |commands| - 1;
    SignedInjective(index.nameAlg, SessionDigest(index, commands[..n]).value, Zeros(index.nameAlg),
                    commands[n].keyName, keyName);
  }

  /** Whatever session authorizes a command on a written counter, it contains an assertion signed with its own key. */
  lemma {:induction false} OnlyOwnerIncrements(handle: Handle, owner: Name, commands: seq<NvCommand>)
    requires Authorizes(Written(NewCounterPublic(handle, owner)), commands)
    ensures PolicySigned(owner) in commands
  {
    var index := Written(NewCounterPublic(handle, owner));
    var own := CounterAuthPolicies(SHA256, owner);
    LastCommand(index, commands, index.authPolicy);
    var n := |commands| - 1;
    var before := SessionDigest(index, commands[..n]).value;
    PolicyOrInjective(SHA256, SHA256, commands[n].digests, own);
    NotReinitialised(index, commands[..n], before);
    assert before == PolicySignedDigest(SHA256, Zeros(SHA256), owner);
    SignedBefore(index, commands[..n], owner);
  }

  // ------------------------------------------------------------- the contents

  /** The public area of the sealed object. `fromTemplate` says whether its type and attributes are
      those that sealing uses. */
  datatype SealedPublic = SealedPublic(fromTemplate: bool, nameAlg: HashAlg, authPolicy: Digest)

  /** What is sealed: a key, and the key that signs updates of its PCR policy. */
  datatype SealedData = SealedData(key: Bytes, authKey: PrivateKey)

  /** The private area: it holds the PIN and the payload, and only loads with the public area it was made with. */
  datatype SealedPrivate = SealedPrivate(pub: SealedPublic, pin: string, payload: SealedData)

  datatype AuthMode = AuthModeNone | AuthModePin

  datatype KeyFile = KeyFile(
    priv: SealedPrivate,
    pub: SealedPublic,
    hint: AuthMode,
    static_: StaticData,
    dynamic: DynamicData)

  // --------------------------------------------------------------- validation

  datatype KeyFileError =
    | WrongObject
    | CannotLoad
    | BadCounterHandle
    | CounterUnavailable
    | WrongKeyType
    | WrongKeyScheme
    | InconsistentPolicy
    | WrongPrivateKey

  predicate SchemeAccepted(pub: PublicKey) {
    pub.scheme == NullScheme || pub.scheme == Ecdsa(pub.nameAlg)
  }

  function Validation(tpm: TpmState, f: KeyFile, authKey: Option<PrivateKey>): Result<Option<NvPublic>, KeyFileError> {
    if !f.pub.fromTemplate then Failure(WrongObject)
    else if f.priv.pub != f.pub then Failure(CannotLoad)
    else
      match CounterOf(tpm, f.static_)
      case Failure(e) => Failure(if e == NoCounter then CounterUnavailable else BadCounterHandle)
      case Success(index) =>
        if f.static_.authKey.keyType != ECC then Failure(WrongKeyType)
        else if !SchemeAccepted(f.static_.authKey) then Failure(WrongKeyScheme)
        else if StaticPolicyDigest(f.pub.nameAlg, f.static_.authKey,
                                   CounterName(PublicOf(index))) != f.pub.authPolicy then
          Failure(InconsistentPolicy)
        else if authKey.Some? && !Matches(f.static_.authKey, authKey.value) then Failure(WrongPrivateKey)
        else Success(PublicOf(index))
  }

  /** A key file that can be loaded and whose counter is there, with a signing key that is an ECC key for signing, the
      policy of that key and that counter, and the given private key. */
  ghost predicate Accepted(tpm: TpmState, f: KeyFile, authKey: Option<PrivateKey>) {
    && f.pub.fromTemplate && f.priv.pub == f.pub
    && (f.static_.counterHandle == HANDLE_NULL ||
        (0x01000000 <= f.static_.counterHandle < 0x02000000 && f.static_.counterHandle in tpm.nv))
    && f.static_.authKey.keyType == ECC
    && (f.static_.authKey.scheme == NullScheme || f.static_.authKey.scheme == Ecdsa(f.static_.authKey.nameAlg))
    && f.pub.authPolicy ==
       StaticPolicyDigest(f.pub.nameAlg, f.static_.authKey,
                          if f.static_.counterHandle == HANDLE_NULL then None
                          else Some(NvName(tpm.nv[f.static_.counterHandle].pub)))
    && (authKey.Some? ==> f.static_.authKey.unique == authKey.value)
  }

  method Validate(tpm: TpmState, f: KeyFile, authKey: Option<PrivateKey>)
      returns (r: Result<Option<NvPublic>, KeyFileError>)
    ensures r == Validation(tpm, f, authKey)
    ensures r.Success? <==> Accepted(tpm, f, authKey)
    ensures r.Success? ==>
              r.value == if f.static_.counterHandle == HANDLE_NULL then None
                         else Some(tpm.nv[f.static_.counterHandle].pub)
  {
    if !f.pub.fromTemplate {
      return Failure(WrongObject);
    }
    if f.priv.pub != f.pub {
      return Failure(CannotLoad);
    }
    var handle := f.static_.counterHandle;
    if handle != HANDLE_NULL && !IsNvHandle(handle) {
      return Failure(BadCounterHandle);
    }
    var counter: Option<NvPublic> := None;
    if handle != HANDLE_NULL {
      if handle !in tpm.nv {
        return Failure(CounterUnavailable);
      }
      counter := Some(tpm.nv[handle].pub);
    }
    var policyRef := PcrPolicyRef(CounterName(counter));
    if f.static_.authKey.keyType != ECC {
      return Failure(WrongKeyType);
    }
    if f.static_.authKey.scheme != NullScheme {
      if !f.static_.authKey.scheme.Ecdsa? || f.static_.authKey.scheme.hash != f.static_.authKey.nameAlg {
        return Failure(WrongKeyScheme);
      }
    }
    var trial := new TrialPolicy(f.pub.nameAlg);
    trial.PolicyAuthorize(policyRef, KeyName(f.static_.authKey));
    trial.PolicyAuthValue();
    if trial.digest != f.pub.authPolicy {
      return Failure(InconsistentPolicy);
    }
    if authKey.Some? && !Matches(f.static_.authKey, authKey.value) {
      return Failure(WrongPrivateKey);
    }
    return Success(counter);
  }

  /** Files that validate and have the same policy digest share the signing key and the counter. */
  lemma {:induction false} RelatedFiles(tpm: TpmState, f: KeyFile, g: KeyFile, key: Option<PrivateKey>)
    requires Validation(tpm, f, key).Success? && Validation(tpm, g, None).Success?
    requires f.pub.authPolicy == g.pub.authPolicy
    ensures f.pub.nameAlg == g.pub.nameAlg
    ensures f.static_.authKey == g.static_.authKey
    ensures Validation(tpm, f, key).value == Validation(tpm, g, None).value
  {
    var c1, c2 := CounterName(Validation(tpm, f, key).value), CounterName(Validation(tpm, g, None).value);
    var d1 := PolicyAuthorizeDigest(f.pub.nameAlg, PcrPolicyRef(c1), KeyName(f.static_.authKey));
    var d2 := PolicyAuthorizeDigest(g.pub.nameAlg, PcrPolicyRef(c2), KeyName(g.static_.authKey));
    PolicyAuthValueInjective(f.pub.nameAlg, g.pub.nameAlg, d1, d2);
    StaticPolicyInjective(f.pub.nameAlg, f.static_.authKey, g.static_.authKey, Validation(tpm, f, key).value,
                          Validation(tpm, g, None).value);
  }

  // ---------------------------------------------------------------- unsealing

  datatype UnsealError = BadKeyFile | SessionFailed(err: SessionError) | PolicyCheckFailed | PinFailed

  function Unsealing(tpm: TpmState, f: KeyFile, pin: string): Result<SealedData, UnsealError> {
    if f.priv.pub != f.pub then Failure(BadKeyFile)
    else
      match Execute(tpm, f.pub.nameAlg, f.static_, f.dynamic)
      case Failure(e) => Failure(SessionFailed(e))
      case Success(d) =>
        if d != f.pub.authPolicy then Failure(PolicyCheckFailed)
        else if pin != f.priv.pin then Failure(PinFailed)
        else Success(f.priv.payload)
  }

  method UnsealFromTpm(tpm: TpmState, f: KeyFile, pin: string) returns (r: Result<SealedData, UnsealError>)
    ensures r == Unsealing(tpm, f, pin)
  {
    if f.priv.pub != f.pub {
      return Failure(BadKeyFile);
    }
    var session := new PolicySession(f.pub.nameAlg);
    var err := ExecutePolicySession(tpm, session, f.static_, f.dynamic);
    if err.Some? {
      return Failure(SessionFailed(err.value));
    }
    if session.digest != f.pub.authPolicy {
      return Failure(PolicyCheckFailed);
    }
    if pin != f.priv.pin {
      return Failure(PinFailed);
    }
    return Success(f.priv.payload);
  }

  /** A payload is only released while an authorization of the key's policy is in force, and to the PIN. */
  lemma {:induction false} UnsealingIsSound(tpm: TpmState, f: KeyFile, pin: string, authKey: PublicKey,
                                            counter: Option<NvPublic>, ledger: seq<Authorization>)
      returns (a: Authorization)
    requires f.pub.authPolicy == StaticPolicyDigest(f.pub.nameAlg, authKey, CounterName(counter))
    requires Issued(f.dynamic.signature, ledger)
    requires Unsealing(tpm, f, pin).Success?
    ensures a in ledger && a.alg == f.pub.nameAlg && InForce(tpm, a, authKey, counter) && pin == f.priv.pin
  {
    a := SessionIsSound(tpm, f.pub.nameAlg, f.static_, f.dynamic, authKey, counter, ledger);
  }
}
