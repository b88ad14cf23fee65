/** Sealing keys, updating their PCR policies and changing their PINs, as plans.

    Every operation first reads, computes and signs, and then makes persistent changes one after the
    other: NV commands and file replacements. Power can be lost between any two of them, so an operation
    has a plan, and what happens is a prefix of it. `ledger` records every PCR policy that was ever signed.
  */
module Sealing {
  import opened Digests
  import opened Tpm
  import opened PolicyOrTree
  import opened PolicySessions
  import opened KeyFiles
  import opened PcrProfile
  import opened PcrEvaluator
  import opened PcrDigests

  type Path = string

  /** A file that was created but not completely written holds no key data. */
  datatype File = Partial | Key(f: KeyFile)

  /** `highWater` is the largest value that any NV counter of the TPM has had; new counters start above it. */
  datatype World = World(tpm: TpmState, highWater: nat, files: map<Path, File>, ledger: seq<Authorization>)

  // ----------------------------------------------------------------- effects

  datatype Effect =
    | DefineCounter(pub: NvPublic)
    | IncrementCounter(handle: Handle)
    | UndefineCounter(handle: Handle)
    | CreateFile(path: Path)
    | ReplaceFile(path: Path, f: KeyFile)
    | RemoveFile(path: Path)

  /** TPM2_NV_Increment: the first increment starts the counter above every earlier counter, and sets the
      written attribute. */
  function Incremented(index: NvIndex, highWater: nat): NvIndex {
    if index.pub.written then index.(value := index.value + 1) else NvIndex(Written(index.pub), highWater + 1)
  }

  function Max(a: nat, b: nat): nat {
    if a < b then b else a
  }

  function Apply(w: World, e: Effect): World {
    match e
    case DefineCounter(pub) => w.(tpm := w.tpm.(nv := w.tpm.nv[pub.handle := NvIndex(pub, 0)]))
    case IncrementCounter(h) =>
      if h !in w.tpm.nv then w
      else
        var index := Incremented(w.tpm.nv[h], w.highWater);
        w.(tpm := w.tpm.(nv := w.tpm.nv[h := index]), highWater := Max(w.highWater, index.value))
    case UndefineCounter(h) => w.(tpm := w.tpm.(nv := w.tpm.nv - {h}))
    case CreateFile(path) => w.(files := w.files[path := Partial])
    case ReplaceFile(path, f) => w.(files := w.files[path := Key(f)])
    case RemoveFile(path) => w.(files := w.files - {path})
  }

  function ApplyAll(w: World, es: seq<Effect>): World
    decreases |es|
  {
    if es == [] then w else ApplyAll(Apply(w, es[0]), es[1..])
  }

  lemma {:induction false} ApplyConcat(w: World, a: seq<Effect>, b: seq<Effect>)
    ensures ApplyAll(w, a + b) == ApplyAll(ApplyAll(w, a), b)
    decreases |a|
  {
    if a == [] {
      assert a + b == b;
    } else {
      assert (a + b)[1..] == a[1..] + b;
      ApplyConcat(Apply(w, a[0]), a[1..], b);
    }
  }

  // ------------------------------------------------ computing a new PCR policy

  datatype OpError =
    | NoFiles
    | CannotOpen
    | InvalidKeyFile
    | NotRelated
    | BadProfile(err: DigestError)
    | UnsupportedPcrs
    | BadHandle
    | CounterExists
    | FileExists
    | CannotRevoke
    | WrongPin

  /** The parameters of the policy that is signed next: the profile's digests, and the count after the
      current value of the counter. */
  ghost function NextPolicy(tpm: TpmState, alg: HashAlg, signAlg: HashAlg, key: PrivateKey, counter: Option<NvIndex>,
                            profile: Profile): Result<DynamicParams, OpError>
  {
    match Approved(profile, tpm.pcrs, alg)
    case Failure(e) => Failure(BadProfile(e))
    case Success((pcrs, digests)) =>
      if !(pcrs <= tpm.pcrs.Keys) then Failure(UnsupportedPcrs)
      else
        Success(DynamicParams(key, signAlg, pcrs, digests, PublicOf(counter),
                              if counter.Some? then counter.value.value + 1 else 0))
  }

  method ComputeSealedKeyDynamicAuthPolicy(tpm: TpmState, alg: HashAlg, signAlg: HashAlg, key: PrivateKey,
                                           counter: Option<NvIndex>, profile: Profile)
      returns (r: Result<DynamicData, OpError>)
    ensures match NextPolicy(tpm, alg, signAlg, key, counter, profile)
            case Failure(e) => r == Failure(e)
            case Success(p) => p.pcrDigests != [] && r == Success(DynamicDataOf(alg, p))
  {
    var count := 0;
    if counter.Some? {
      count := counter.value.value + 1;
    }
    var approved := ComputePcrDigests(profile, tpm.pcrs, alg);
    if approved.Failure? {
      return Failure(BadProfile(approved.error));
    }
    var (pcrs, digests) := approved.value;
    if !(pcrs <= tpm.pcrs.Keys) {
      return Failure(UnsupportedPcrs);
    }
    ApprovedNotEmpty(profile, tpm.pcrs, alg);
    var data := ComputeDynamicPolicy(alg, DynamicParams(key, signAlg, pcrs, digests, PublicOf(counter), count));
    return Success(data.value);
  }

  lemma {:induction false} ApprovedNotEmpty(profile: Profile, pcrs: PcrValues, alg: HashAlg)
    requires Approved(profile, pcrs, alg).Success?
    ensures Approved(profile, pcrs, alg).value.1 != []
  {
    DenoteLength(profile.instrs, [map[]], pcrs);
    var vs := Evaluate(profile, pcrs).value;
    ApprovedMeansAllowed(profile, pcrs, alg, vs[0]);
  }

  /** From a profile to an unsealed key: the policy computed from a profile is satisfied exactly in the PCR
      states that the profile allows, as long as the counter has not passed the policy's count. */
  lemma {:induction false} ProfileToSession(tpm: TpmState, now: TpmState, alg: HashAlg, key: PrivateKey,
                                            static_: StaticData, counter: Option<NvIndex>, profile: Profile)
    requires NextPolicy(tpm, alg, static_.authKey.nameAlg, key, counter, profile).Success?
    requires now.pcrs.Keys == tpm.pcrs.Keys && Matches(static_.authKey, key)
    requires CounterOf(now, static_).Success? && PublicOf(CounterOf(now, static_).value) == PublicOf(counter)
    ensures
      var p := NextPolicy(tpm, alg, static_.authKey.nameAlg, key, counter, profile).value;
      var current := CounterOf(now, static_).value;
      Execute(now, alg, static_, DynamicDataOf(alg, p)) ==
      if Selected(now.pcrs, p.pcrs) !in Evaluate(profile, tpm.pcrs).value then Failure(OrFailed(DigestNotFound))
      else if counter.Some? && current.value.value > counter.value.value + 1 then Failure(PolicyRevoked)
      else Success(StaticPolicyDigest(alg, static_.authKey, CounterName(PublicOf(counter))))
  {
    var p := NextPolicy(tpm, alg, static_.authKey.nameAlg, key, counter, profile).value;
    ApprovedNotEmpty(profile, tpm.pcrs, alg);
    ApprovedMeansAllowed(profile, tpm.pcrs, alg, Selected(now.pcrs, p.pcrs));
    FreshMetadataIsExact(now, alg, static_, p);
  }

  // ------------------------------------------------------------------- plans

  datatype Outcome = Done | Failed(error: OpError) | PowerLost

  /** What an operation signs, the changes it then makes, and how it ends if it is not interrupted. */
  datatype Plan = Plan(signed: seq<Authorization>, effects: seq<Effect>, end: Outcome)

  datatype KeyRequest = KeyRequest(path: Path, key: Bytes)

  datatype Op =
    | Seal(keys: seq<KeyRequest>, authKey: PrivateKey, handle: Handle, profile: Profile)
    | Update(paths: seq<Path>, authKey: PrivateKey, profile: Profile)
    | ChangePin(path: Path, oldPin: string, newPin: string)
    | Environment(pcrs: PcrValues)

  // --- updating

  function ReadFile(w: World, path: Path, key: Option<PrivateKey>): Result<KeyFile, OpError> {
    if path !in w.files then Failure(CannotOpen)
    else if w.files[path].Partial? then Failure(InvalidKeyFile)
    else if Validation(w.tpm, w.files[path].f, key).Failure? then Failure(InvalidKeyFile)
    else Success(w.files[path].f)
  }

  function ReadRelated(w: World, paths: seq<Path>, policy: Digest): Result<seq<KeyFile>, OpError> {
    if paths == [] then Success([])
    else
      match ReadFile(w, paths[0], None)
      case Failure(e) => Failure(e)
      case Success(f) =>
        if f.pub.authPolicy != policy then Failure(NotRelated)
        else
          match ReadRelated(w, paths[1..], policy)
          case Failure(e) => Failure(e)
          case Success(fs) => Success([f] + fs)
  }

  /** All files of an update, the primary one first. */
  function ReadFiles(w: World, paths: seq<Path>, key: PrivateKey): Result<seq<KeyFile>, OpError> {
    if paths == [] then Failure(NoFiles)
    else
      match ReadFile(w, paths[0], Some(key))
      case Failure(e) => Failure(e)
      case Success(f) =>
        match ReadRelated(w, paths[1..], f.pub.authPolicy)
        case Failure(e) => Failure(e)
        case Success(fs) => Success([f] + fs)
  }

  function Rewrites(paths: seq<Path>, fs: seq<KeyFile>, dynamic: DynamicData): (r: seq<Effect>)
    requires |paths| == |fs|
    ensures |r| == |paths|
    ensures forall i | 0 <= i < |r| :: r[i] == ReplaceFile(paths[i], fs[i].(dynamic := dynamic))
  {
    seq(|paths|, i requires 0 <= i < |paths| => ReplaceFile(paths[i], fs[i].(dynamic := dynamic)))
  }

  lemma {:induction false} ReadRelatedFiles(w: World, paths: seq<Path>, policy: Digest)
    requires ReadRelated(w, paths, policy).Success?
    ensures |ReadRelated(w, paths, policy).value| == |paths|
    ensures forall i | 0 <= i < |paths| ::
              && ReadFile(w, paths[i], None) == Success(ReadRelated(w, paths, policy).value[i])
              && ReadRelated(w, paths, policy).value[i].pub.authPolicy == policy
  {
    if paths != [] {
      ReadRelatedFiles(w, paths[1..], policy);
      assert forall i | 0 < i < |paths| :: paths[i] == paths[1..][i - 1];
    }
  }

  ghost function UpdatePlan(w: World, paths: seq<Path>, key: PrivateKey, profile: Profile): Plan {
    match ReadFiles(w, paths, key)
    case Failure(e) => Plan([], [], Failed(e))
    case Success(fs) =>
      var primary := fs[0];
      var index := CounterOf(w.tpm, primary.static_).value;
      match NextPolicy(w.tpm, primary.pub.nameAlg, primary.static_.authKey.nameAlg, key, index, profile)
      case Failure(e) => Plan([], [], Failed(e))
      case Success(p) =>
        ReadRelatedFiles(w, paths[1..], primary.pub.authPolicy);
        var signed := [Authorization(primary.pub.nameAlg, p)];
        var writes := Rewrites(paths, fs, DynamicDataOf(primary.pub.nameAlg, p));
        if index.None? then Plan(signed, writes, Done)
        else if !MayIncrement(index.value.pub, KeyName(primary.static_.authKey)) then
          Plan(signed, writes, Failed(CannotRevoke))
        else Plan(signed, writes + [IncrementCounter(primary.static_.counterHandle)], Done)
  }

  // --- sealing

  /** The public area of an ECDSA P-256 signing key. */
  function EcdsaPublic(key: PrivateKey): PublicKey {
    PublicKey(ECC, SHA256, Ecdsa(SHA256), key)
  }

  /** The sealed data holds the private part of the signing key beside the key. */
  function NewKeyFile(authKey: PublicKey, counter: Option<NvPublic>, key: Bytes, dynamic: DynamicData): KeyFile {
    var pub := SealedPublic(true, SHA256, StaticPolicyDigest(SHA256, authKey, CounterName(counter)));
    KeyFile(SealedPrivate(pub, "", SealedData(key, authKey.unique)), pub, AuthModeNone,
            StaticData(authKey, if counter.Some? then counter.value.handle else HANDLE_NULL), dynamic)
  }

  /** The first request whose file already exists, in the store or among the earlier requests. */
  function FirstExisting(files: map<Path, File>, keys: seq<KeyRequest>, i: nat): (r: nat)
    requires i <= |keys|
    ensures i <= r <= |keys|
    decreases |keys| - i
  {
    if i == |keys| || keys[i].path in files || keys[i].path in RequestPaths(keys[..i]) then i
    else FirstExisting(files, keys, i + 1)
  }

  function RequestPaths(keys: seq<KeyRequest>): (r: seq<Path>)
    ensures |r| == |keys|
    ensures forall i | 0 <= i < |r| :: r[i] == keys[i].path
  {
    seq(|keys|, i requires 0 <= i < |keys| => keys[i].path)
  }

  function Creations(keys: seq<KeyRequest>, authKey: PublicKey, counter: Option<NvPublic>,
                     dynamic: DynamicData): seq<Effect> {
    if keys == [] then []
    else
      Creations(keys[..|keys| - 1], authKey, counter, dynamic) +
      [CreateFile(keys[|keys| - 1].path),
       ReplaceFile(keys[|keys| - 1].path, NewKeyFile(authKey, counter, keys[|keys| - 1].key, dynamic))]
  }

  function Removals(keys: seq<KeyRequest>): (r: seq<Effect>)
    ensures |r| == |keys|
    ensures forall i | 0 <= i < |r| :: r[i] == RemoveFile(keys[i].path)
  {
    seq(|keys|, i requires 0 <= i < |keys| => RemoveFile(keys[i].path))
  }

  ghost function SealPlan(w: World, keys: seq<KeyRequest>, key: PrivateKey, handle: Handle, profile: Profile): Plan {
    var authKey := EcdsaPublic(key);
    var pub := NewCounterPublic(handle, KeyName(authKey));
    if keys == [] then Plan([], [], Failed(NoFiles))
    else if handle != HANDLE_NULL && !IsNvHandle(handle) then Plan([], [], Failed(BadHandle))
    else if handle in w.tpm.nv then Plan([], [], Failed(CounterExists))
    else
      var withCounter := handle != HANDLE_NULL;
      var index := if withCounter then Some(NvIndex(Written(pub), w.highWater + 1)) else None;
      var create := if withCounter then [DefineCounter(pub), IncrementCounter(handle)] else [];
      var increment := if withCounter then [IncrementCounter(handle)] else [];
      var undefine := if withCounter then [UndefineCounter(handle)] else [];
      match NextPolicy(w.tpm, SHA256, SHA256, key, index, profile)
      case Failure(e) => Plan([], create + undefine, Failed(e))
      case Success(p) =>
        var n := FirstExisting(w.files, keys, 0);
        var written := Creations(keys[..n], authKey, PublicOf(index), DynamicDataOf(SHA256, p));
        var signed := [Authorization(SHA256, p)];
        if n < |keys| then Plan(signed, create + written + Removals(keys) + undefine, Failed(FileExists))
        else Plan(signed, create + written + increment, Done)
  }

  // --- changing the PIN

  function WithPin(f: KeyFile, pin: string): KeyFile {
    f.(priv := f.priv.(pin := pin), hint := if pin == "" then AuthModeNone else AuthModePin)
  }

  function ChangePinPlan(w: World, path: Path, oldPin: string, newPin: string): Plan {
    match ReadFile(w, path, None)
    case Failure(e) => Plan([], [], Failed(e))
    case Success(f) =>
      if f.priv.pin != oldPin then Plan([], [], Failed(WrongPin))
      else Plan([], [ReplaceFile(path, WithPin(f, newPin))], Done)
  }

  // --- running

  ghost function PlanOf(w: World, op: Op): Plan {
    match op
    case Seal(keys, key, handle, profile) => SealPlan(w, keys, key, handle, profile)
    case Update(paths, key, profile) => UpdatePlan(w, paths, key, profile)
    case ChangePin(path, oldPin, newPin) => ChangePinPlan(w, path, oldPin, newPin)
    case Environment(_) => Plan([], [], Done)
  }

  /** PCRs change outside our control, but not which PCRs there are. */
  function InEnvironment(w: World, op: Op): World {
    if op.Environment? && op.pcrs.Keys == w.tpm.pcrs.Keys then w.(tpm := w.tpm.(pcrs := op.pcrs)) else w
  }

  /** The world after `power` changes of an operation, or after all of them if there are fewer. */
  ghost function After(w: World, op: Op, power: nat): World {
    var plan := PlanOf(w, op);
    var signed := InEnvironment(w, op).(ledger := w.ledger + plan.signed);
    ApplyAll(signed, if power < |plan.effects| then plan.effects[..power] else plan.effects)
  }

  ghost function OutcomeOf(w: World, op: Op, power: nat): Outcome {
    var plan := PlanOf(w, op);
    if power < |plan.effects| then PowerLost else plan.end
  }

  datatype Attempt = Attempt(op: Op, power: nat)

  ghost function Run(w: World, attempts: seq<Attempt>): World
    decreases |attempts|
  {
    if attempts == [] then w else Run(After(w, attempts[0].op, attempts[0].power), attempts[1..])
  }
}
