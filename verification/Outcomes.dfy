/** How the operations end, from the files, the TPM and the power alone. */
module Outcomes {
  import opened Digests
  import opened Tpm
  import opened PolicyOrTree
  import opened PolicySessions
  import opened KeyFiles
  import opened PcrProfile
  import opened PcrDigests
  import opened Sealing
  import opened Protocol
  import opened Revocation
  import opened Device
  import opened EndToEnd

  // ------------------------------------------------------------------ updating

  ghost predicate HoldsKey(w: World, path: Path) {
    path in w.files && w.files[path].Key?
  }

  /** What is wrong with a path of an update: there is no file, it is not a key file, it is the first and belongs to
      another key, or it has another policy than the first. */
  ghost function Fault(w: World, paths: seq<Path>, key: PrivateKey, i: nat): Option<OpError>
    requires i < |paths|
  {
    if paths[i] !in w.files then Some(CannotOpen)
    else if !HoldsKey(w, paths[i]) then Some(InvalidKeyFile)
    else if i == 0 then
      if w.files[paths[0]].f.static_.authKey.unique != key then Some(InvalidKeyFile) else None
    else if HoldsKey(w, paths[0]) && w.files[paths[i]].f.pub.authPolicy != w.files[paths[0]].f.pub.authPolicy then
      Some(NotRelated)
    else None
  }

  ghost predicate NoFault(w: World, paths: seq<Path>, key: PrivateKey, n: nat)
    requires n <= |paths|
  {
    forall i | 0 <= i < n :: Fault(w, paths, key, i) == None
  }

  ghost predicate FirstFault(w: World, paths: seq<Path>, key: PrivateKey, i: nat, err: OpError) {
    i < |paths| && Fault(w, paths, key, i) == Some(err) && NoFault(w, paths, key, i)
  }

  lemma {:induction false} ReadsFile(w: World, path: Path, key: Option<PrivateKey>)
    requires Consistent(w)
    ensures ReadFile(w, path, key) ==
            if path !in w.files then Failure(CannotOpen)
            else if w.files[path].Partial? then Failure(InvalidKeyFile)
            else if key.Some? && w.files[path].f.static_.authKey.unique != key.value then Failure(InvalidKeyFile)
            else Success(w.files[path].f)
  {
    if HoldsKey(w, path) {
      var f := w.files[path].f;
      assert FileOk(w, f);
      var a :| a in w.ledger && Backed(w.tpm, f, a);
    }
  }

  /** Reading the related files stops at the first fault. */
  lemma {:induction false} ReadsRelated(w: World, paths: seq<Path>, key: PrivateKey, n: nat)
    requires Consistent(w) && 0 < n <= |paths| && NoFault(w, paths, key, n) && HoldsKey(w, paths[0])
    ensures
      var r := ReadRelated(w, paths[n..], w.files[paths[0]].f.pub.authPolicy);
      && (r.Success? <==> NoFault(w, paths, key, |paths|))
      && (r.Failure? ==> exists i :: FirstFault(w, paths, key, i, r.error))
    decreases |paths| - n
  {
    if n < |paths| {
      var rest := paths[n..];
      assert rest[0] == paths[n] && rest[1..] == paths[n + 1..];
      ReadsFile(w, paths[n], None);
      if Fault(w, paths, key, n) == None {
        assert NoFault(w, paths, key, n + 1);
        ReadsRelated(w, paths, key, n + 1);
      } else {
        assert FirstFault(w, paths, key, n, Fault(w, paths, key, n).value);
      }
    }
  }

  lemma {:induction false} ReadsExactly(w: World, paths: seq<Path>, key: PrivateKey)
    requires Consistent(w)
    ensures ReadFiles(w, paths, key).Success? <==> paths != [] && NoFault(w, paths, key, |paths|)
    ensures ReadFiles(w, paths, key).Success? ==>
              HoldsKey(w, paths[0]) && ReadFiles(w, paths, key).value[0] == w.files[paths[0]].f
    ensures paths == [] ==> ReadFiles(w, paths, key) == Failure(NoFiles)
    ensures paths != [] && ReadFiles(w, paths, key).Failure? ==>
              exists i :: FirstFault(w, paths, key, i, ReadFiles(w, paths, key).error)
  {
    if paths != [] {
      ReadsFile(w, paths[0], Some(key));
      if Fault(w, paths, key, 0) == None {
        assert NoFault(w, paths, key, 1);
        ReadsRelated(w, paths, key, 1);
      } else {
        assert FirstFault(w, paths, key, 0, Fault(w, paths, key, 0).value);
      }
    }
  }

  /** The counter of a key file. */
  ghost function CounterIn(w: World, f: KeyFile): Option<NvIndex> {
    if f.static_.counterHandle == HANDLE_NULL || f.static_.counterHandle !in w.tpm.nv then None
    else Some(w.tpm.nv[f.static_.counterHandle])
  }

  lemma {:induction false} CounterInFile(w: World, f: KeyFile)
    requires Consistent(w) && FileOk(w, f)
    ensures f.pub.nameAlg == SHA256 && f.static_.authKey.nameAlg == SHA256
    ensures CounterOf(w.tpm, f.static_) == Success(CounterIn(w, f))
    ensures CounterIn(w, f).None? <==> f.static_.counterHandle == HANDLE_NULL
  {
    var a :| a in w.ledger && Backed(w.tpm, f, a);
  }

  /** How an update ends, for files that are all there and related. */
  lemma {:induction false} UpdateOfRelated(w: World, paths: seq<Path>, key: PrivateKey, profile: Profile, power: nat)
    requires Consistent(w) && paths != [] && NoFault(w, paths, key, |paths|)
    ensures HoldsKey(w, paths[0])
    ensures
      var counter := CounterIn(w, w.files[paths[0]].f);
      OutcomeOf(w, Update(paths, key, profile), power) ==
      match NextPolicy(w.tpm, SHA256, SHA256, key, counter, profile)
      case Failure(err) => Failed(err)
      case Success(_) => if power < |paths| + (if counter.Some? then 1 else 0) then PowerLost else Done
  {
    assert Fault(w, paths, key, 0) == None;
    ReadsExactly(w, paths, key);
    var fs := ReadFiles(w, paths, key).value;
    UpdateReads(w, paths, key, 0);
    CounterInFile(w, fs[0]);
    var plan := UpdatePlan(w, paths, key, profile);
    match NextPolicy(w.tpm, SHA256, SHA256, key, CounterIn(w, fs[0]), profile)
    case Failure(err) => assert plan == Plan([], [], Failed(err));
    case Success(p) => SignedUpdateIs(w, paths, key, profile, fs, p, plan);
  }

  lemma {:induction false} SignedUpdateIs(w: World, paths: seq<Path>, key: PrivateKey, profile: Profile,
                                          fs: seq<KeyFile>, p: DynamicParams, plan: Plan)
    requires Consistent(w) && ReadFiles(w, paths, key) == Success(fs) && |fs| == |paths| > 0 && FileOk(w, fs[0])
    requires CounterOf(w.tpm, fs[0].static_) == Success(CounterIn(w, fs[0]))
    requires CounterIn(w, fs[0]).None? <==> fs[0].static_.counterHandle == HANDLE_NULL
    requires fs[0].pub.nameAlg == SHA256 && fs[0].static_.authKey.nameAlg == SHA256
    requires NextPolicy(w.tpm, SHA256, SHA256, key, CounterIn(w, fs[0]), profile) == Success(p)
    requires plan == UpdatePlan(w, paths, key, profile)
    ensures plan.end == Done && |plan.effects| == |paths| + if CounterIn(w, fs[0]).Some? then 1 else 0
  {
    assert plan.signed == [Authorization(SHA256, p)];
    SignedPlanIs(w, paths, key, profile, fs, p);
  }

  /** How an update ends: with the error of the first path at fault, or of the profile, or without power, or done. */
  lemma {:induction false} UpdateEnds(w: World, paths: seq<Path>, key: PrivateKey, profile: Profile, power: nat)
    requires Consistent(w)
    ensures paths == [] ==> OutcomeOf(w, Update(paths, key, profile), power) == Failed(NoFiles)
    ensures forall i, err | FirstFault(w, paths, key, i, err) ::
              OutcomeOf(w, Update(paths, key, profile), power) == Failed(err)
    ensures paths != [] && NoFault(w, paths, key, |paths|) ==>
              && HoldsKey(w, paths[0])
              && var counter := CounterIn(w, w.files[paths[0]].f);
                 OutcomeOf(w, Update(paths, key, profile), power) ==
                 match NextPolicy(w.tpm, SHA256, SHA256, key, counter, profile)
                 case Failure(err) => Failed(err)
                 case Success(_) => if power < |paths| + (if counter.Some? then 1 else 0) then PowerLost else Done
    ensures OutcomeOf(w, Update(paths, key, profile), power) == Failed(NotRelated) <==>
            exists i :: FirstFault(w, paths, key, i, NotRelated)
  {
    ReadsExactly(w, paths, key);
    if paths != [] && NoFault(w, paths, key, |paths|) {
      UpdateOfRelated(w, paths, key, profile, power);
    } else {
      RefusedUpdate(w, paths, key, profile, power);
    }
    forall i, err | FirstFault(w, paths, key, i, err)
      ensures OutcomeOf(w, Update(paths, key, profile), power) == Failed(err)
    {
      FaultIsFirst(w, paths, key, i, err);
    }
  }

  lemma {:induction false} RefusedUpdate(w: World, paths: seq<Path>, key: PrivateKey, profile: Profile, power: nat)
    requires ReadFiles(w, paths, key).Failure?
    ensures OutcomeOf(w, Update(paths, key, profile), power) == Failed(ReadFiles(w, paths, key).error)
  {
  }

  lemma {:induction false} FaultIsFirst(w: World, paths: seq<Path>, key: PrivateKey, i: nat, err: OpError)
    requires Consistent(w) && FirstFault(w, paths, key, i, err)
    ensures ReadFiles(w, paths, key) == Failure(err)
  {
    ReadsExactly(w, paths, key);
    assert !NoFault(w, paths, key, |paths|);
    var j: nat :| FirstFault(w, paths, key, j, ReadFiles(w, paths, key).error);
  }

  // ------------------------------------------------------------------- sealing

  /** The file of a request is there already, or an earlier request asks for it too. */
  ghost predicate Taken(files: map<Path, File>, keys: seq<KeyRequest>, n: nat)
    requires n < |keys|
  {
    keys[n].path in files || exists m :: 0 <= m < n && keys[m].path == keys[n].path
  }

  ghost predicate NoneTaken(files: map<Path, File>, keys: seq<KeyRequest>, n: nat)
    requires n <= |keys|
  {
    forall i | 0 <= i < n :: !Taken(files, keys, i)
  }

  lemma {:induction false} FirstTaken(files: map<Path, File>, keys: seq<KeyRequest>, i: nat)
    requires i <= |keys| && NoneTaken(files, keys, i)
    ensures
      var n := FirstExisting(files, keys, i);
      NoneTaken(files, keys, n) && (n < |keys| ==> Taken(files, keys, n))
    decreases |keys| - i
  {
    if i < |keys| {
      var earlier := RequestPaths(keys[..i]);
      assert keys[i].path in earlier <==> exists m :: 0 <= m < i && keys[m].path == keys[i].path by {
        if m :| 0 <= m < i && keys[m].path == keys[i].path {
          assert earlier[m] == keys[i].path;
        }
      }
      if !Taken(files, keys, i) {
        FirstTaken(files, keys, i + 1);
      }
    }
  }

  /** A request can be sealed: it names keys, and its handle is free or there is none. */
  ghost predicate Acceptable(w: World, keys: seq<KeyRequest>, handle: Handle) {
    keys != [] && (handle == HANDLE_NULL || (0x01000000 <= handle < 0x02000000 && handle !in w.tpm.nv))
  }

  /** How sealing ends if it is not acceptable. */
  lemma {:induction false} RefusedSealEnds(w: World, keys: seq<KeyRequest>, key: PrivateKey, handle: Handle,
                                           profile: Profile, power: nat)
    requires CountersOk(w) && !Acceptable(w, keys, handle)
    ensures OutcomeOf(w, Seal(keys, key, handle, profile), power) ==
            Failed(if keys == [] then NoFiles else if handle in w.tpm.nv then CounterExists else BadHandle)
  {
    RefusedSeal(w, keys, key, handle, profile, power);
  }

  /** The error of a profile does not depend on the counter. */
  lemma {:induction false} SameError(tpm: TpmState, key: PrivateKey, counter: Option<NvIndex>, profile: Profile)
    ensures
      var with_, without := NextPolicy(tpm, SHA256, SHA256, key, counter, profile),
                            NextPolicy(tpm, SHA256, SHA256, key, None, profile);
      with_.Success? == without.Success? && (with_.Failure? ==> with_.error == without.error)
  {
  }

  /** How sealing ends if it is acceptable: the changes are the creation of the counter, two for each file, and the
      increment; or the counter and the files up to the first that is taken, and then all of them are removed. */
  lemma {:induction false} SealEnds(w: World, keys: seq<KeyRequest>, key: PrivateKey, handle: Handle, profile: Profile,
                                    power: nat, n: nat)
    requires CountersOk(w) && Acceptable(w, keys, handle) && n <= |keys|
    requires NoneTaken(w.files, keys, n) && (n < |keys| ==> Taken(w.files, keys, n))
    ensures
      var c := if handle == HANDLE_NULL then 0 else 3;
      OutcomeOf(w, Seal(keys, key, handle, profile), power) ==
      match NextPolicy(w.tpm, SHA256, SHA256, key, None, profile)
      case Failure(err) => if power < c then PowerLost else Failed(err)
      case Success(_) =>
        if n < |keys| then if power < c + 2 * n + |keys| then PowerLost else Failed(FileExists)
        else if power < c + 2 * |keys| then PowerLost else Done
  {
    var counter := NewCounter(w.highWater, key, handle);
    var next := NextPolicy(w.tpm, SHA256, SHA256, key, counter, profile);
    var plan := SealPlan(w, keys, key, handle, profile);
    SameError(w.tpm, key, counter, profile);
    TakenIsFirst(w.files, keys, n);
    AfterSeal(w, keys, key, handle, profile, power, plan);
    SealPlanParts(w, keys, key, handle, profile, next);
    PlanLength(plan, if handle == HANDLE_NULL then 0 else 2, keys, n, EcdsaPublic(key), handle, PublicOf(counter),
               next);
  }

  lemma {:induction false} TakenIsFirst(files: map<Path, File>, keys: seq<KeyRequest>, n: nat)
    requires n <= |keys| && NoneTaken(files, keys, n) && (n < |keys| ==> Taken(files, keys, n))
    ensures FirstExisting(files, keys, 0) == n
  {
    FirstTaken(files, keys, 0);
  }

  lemma {:induction false} PlanLength(plan: Plan, start: nat, keys: seq<KeyRequest>, n: nat, authKey: PublicKey,
                                      handle: Handle, counter: Option<NvPublic>, next: Result<DynamicParams, OpError>)
    requires n <= |keys| && PlannedSealing(plan, start, keys, n, authKey, handle, counter, next)
    requires counter.None? <==> handle == HANDLE_NULL
    ensures
      var u := if handle == HANDLE_NULL then 0 else 1;
      match next
      case Failure(err) => plan.end == Failed(err) && |plan.effects| == start + u
      case Success(_) =>
        && plan.end == (if n < |keys| then Failed(FileExists) else Done)
        && |plan.effects| == start + 2 * n + u + if n < |keys| then |keys| else 0
  {
  }

  // ---------------------------------------------------------------- changing the PIN

  /** How changing the PIN ends. */
  lemma {:induction false} ChangePinEnds(w: World, path: Path, oldPin: string, newPin: string, power: nat)
    requires Consistent(w)
    ensures OutcomeOf(w, Op.ChangePin(path, oldPin, newPin), power) ==
            if path !in w.files then Failed(CannotOpen)
            else if w.files[path].Partial? then Failed(InvalidKeyFile)
            else if w.files[path].f.priv.pin != oldPin then Failed(WrongPin)
            else if power == 0 then PowerLost
            else Done
  {
    ReadsFile(w, path, None);
  }
}
