/** From a request to seal or to update a key, to what unsealing it does afterwards. */
module EndToEnd {
  import opened Digests
  import opened Tpm
  import opened PolicyOrTree
  import opened PolicySessions
  import opened KeyFiles
  import opened PcrProfile
  import opened PcrDigests
  import opened Sealing
  import opened Protocol
  import opened Revocation
  import opened Device

  /** A device on which nothing has been sealed yet: every run starts here. */
  lemma {:induction false} FreshDevice(w: World)
    requires w.tpm.nv == map[] && w.files == map[] && w.ledger == []
    ensures Consistent(w) && AllUpToDate(w) && Generations(w)
  {
  }

  /** What unsealing a key file must do: release the payload exactly in the PCR states that the profile allows. */
  ghost predicate UnsealsExactly(now: TpmState, f: KeyFile, profile: Profile, pcrs: PcrValues) {
    var approved := Approved(profile, pcrs, SHA256);
    && approved.Success?
    && Unsealing(now, f, f.priv.pin) ==
       (if Selected(now.pcrs, approved.value.0) in Evaluate(profile, pcrs).value then Success(f.priv.payload)
        else Failure(SessionFailed(OrFailed(DigestNotFound))))
    && forall pin | pin != f.priv.pin ::
         Unsealing(now, f, pin) ==
         if Selected(now.pcrs, approved.value.0) in Evaluate(profile, pcrs).value then Failure(PinFailed)
         else Failure(SessionFailed(OrFailed(DigestNotFound)))
  }

  /** A key file with a policy computed from a profile unseals exactly as the profile says, as long as the counter
      has not passed the policy. */
  lemma {:induction false} FreshFileIsExact(now: TpmState, f: KeyFile, tpm: TpmState, key: PrivateKey,
                                            counter: Option<NvIndex>, profile: Profile, p: DynamicParams)
    requires NextPolicy(tpm, SHA256, SHA256, key, counter, profile) == Success(p) && now.pcrs.Keys == tpm.pcrs.Keys
    requires f.pub.nameAlg == SHA256 && f.priv.pub == f.pub && f.dynamic == DynamicDataOf(SHA256, p)
    requires f.static_.authKey.nameAlg == SHA256 && Matches(f.static_.authKey, key)
    requires f.pub.authPolicy == StaticPolicyDigest(SHA256, f.static_.authKey, CounterName(PublicOf(counter)))
    requires CounterOf(now, f.static_).Success? && PublicOf(CounterOf(now, f.static_).value) == PublicOf(counter)
    requires counter.Some? ==> CounterOf(now, f.static_).value.value.value <= counter.value.value + 1
    ensures UnsealsExactly(now, f, profile, tpm.pcrs)
  {
    ProfileToSession(tpm, now, SHA256, key, f.static_, counter, profile);
  }

  // ------------------------------------------------------------------- sealing

  /** The requested files do not exist, and their paths are different. */
  ghost predicate AllNew(files: map<Path, File>, keys: seq<KeyRequest>) {
    forall n | 0 <= n < |keys| :: keys[n].path !in files && forall m | 0 <= m < n :: keys[m].path != keys[n].path
  }

  lemma {:induction false} NoneExisting(files: map<Path, File>, keys: seq<KeyRequest>)
    requires FirstExisting(files, keys, 0) == |keys|
    ensures AllNew(files, keys)
  {
    forall n | 0 <= n < |keys|
      ensures keys[n].path !in files && forall m | 0 <= m < n :: keys[m].path != keys[n].path
    {
      BeforeFirstExisting(files, keys, 0, n);
      assert forall m | 0 <= m < n :: RequestPaths(keys[..n])[m] == keys[m].path;
    }
  }

  lemma {:induction false} CreatedFiles(w: World, keys: seq<KeyRequest>, authKey: PublicKey, counter: Option<NvPublic>,
                                        dynamic: DynamicData, i: nat)
    requires i < |keys| && forall n, m | 0 <= m < n < |keys| :: keys[m].path != keys[n].path
    ensures
      var files := ApplyAll(w, Creations(keys, authKey, counter, dynamic)).files;
      keys[i].path in files && files[keys[i].path] == Key(NewKeyFile(authKey, counter, keys[i].key, dynamic))
    decreases |keys|
  {
    var n := |keys| - 1;
    var front := Creations(keys[..n], authKey, counter, dynamic);
    var create, write := CreateFile(keys[n].path),
        ReplaceFile(keys[n].path, NewKeyFile(authKey, counter, keys[n].key, dynamic));
    assert Creations(keys, authKey, counter, dynamic) == front + [create] + [write];
    LastEffect(w, front + [create], write);
    LastEffect(w, front, create);
    if i < n {
      CreatedFiles(w, keys[..n], authKey, counter, dynamic, i);
    }
  }

  /** The state after sealing with a counter: the files are there, and the counter has reached the count of the
      policy. */
  lemma {:induction false} SealedWithCounter(w: World, keys: seq<KeyRequest>, key: PrivateKey, pub: NvPublic,
                                             dynamic: DynamicData, i: nat)
    requires pub.handle !in w.tpm.nv && !pub.written && i < |keys|
    requires forall n, m | 0 <= m < n < |keys| :: keys[m].path != keys[n].path
    ensures
      var written := Creations(keys, EcdsaPublic(key), Some(Written(pub)), dynamic);
      var w' := ApplyAll(w,
                         [DefineCounter(pub), IncrementCounter(pub.handle)] + written + [IncrementCounter(pub.handle)]);
      && keys[i].path in w'.files
      && w'.files[keys[i].path] == Key(NewKeyFile(EcdsaPublic(key), Some(Written(pub)), keys[i].key, dynamic))
      && w'.tpm.nv == w.tpm.nv[pub.handle := NvIndex(Written(pub), w.highWater + 2)]
  {
    var create := CreateCounter(pub);
    var written := Creations(keys, EcdsaPublic(key), Some(Written(pub)), dynamic);
    CreatedCounter(w, pub);
    ApplyConcat(w, create, written);
    LastEffect(w, create + written, IncrementCounter(pub.handle));
    CreatedFiles(WithCounter(w, pub), keys, EcdsaPublic(key), Some(Written(pub)), dynamic, i);
    CreationsAre(keys, EcdsaPublic(key), Some(Written(pub)), dynamic);
    FilesOnlyKeepsTpm(WithCounter(w, pub), written);
  }

  /** A seal operation that completes had a policy to sign, and found no file in its way. */
  lemma {:induction false} CompletedSeal(w: World, keys: seq<KeyRequest>, key: PrivateKey, handle: Handle,
                                         profile: Profile, power: nat)
      returns (p: DynamicParams)
    requires OutcomeOf(w, Seal(keys, key, handle, profile), power) == Done
    ensures keys != [] && (handle == HANDLE_NULL || IsNvHandle(handle)) && handle !in w.tpm.nv
    ensures NextPolicy(w.tpm, SHA256, SHA256, key, NewCounter(w.highWater, key, handle), profile) == Success(p)
    ensures FirstExisting(w.files, keys, 0) == |keys|
    ensures power >= |SealPlan(w, keys, key, handle, profile).effects|
  {
    var next := NextPolicy(w.tpm, SHA256, SHA256, key, NewCounter(w.highWater, key, handle), profile);
    if next.Failure? {
      AbandonedPlan(w, keys, key, handle, profile, next.error);
    }
    p := next.value;
  }

  /** What a completed seal operation leaves of a request: a file for it, with the policy that was computed, and the
      counter at the count of that policy. */
  ghost predicate Sealed(w: World, w': World, request: KeyRequest, key: PrivateKey, handle: Handle, p: DynamicParams) {
    var counter := NewCounter(w.highWater, key, handle);
    && request.path in w'.files
    && w'.files[request.path] ==
       Key(NewKeyFile(EcdsaPublic(key), PublicOf(counter), request.key, DynamicDataOf(SHA256, p)))
    && (counter.Some? ==> handle in w'.tpm.nv && w'.tpm.nv[handle] == counter.value.(value := w.highWater + 2))
  }

  lemma {:induction false} SealLeaves(w: World, keys: seq<KeyRequest>, key: PrivateKey, handle: Handle,
                                      profile: Profile, power: nat, i: nat)
      returns (p: DynamicParams)
    requires OutcomeOf(w, Seal(keys, key, handle, profile), power) == Done && i < |keys|
    ensures NextPolicy(w.tpm, SHA256, SHA256, key, NewCounter(w.highWater, key, handle), profile) == Success(p)
    ensures (handle == HANDLE_NULL || IsNvHandle(handle))
    ensures Sealed(w, After(w, Seal(keys, key, handle, profile), power), keys[i], key, handle, p)
  {
    p := CompletedSeal(w, keys, key, handle, profile, power);
    var plan := SealPlan(w, keys, key, handle, profile);
    AfterSeal(w, keys, key, handle, profile, power, plan);
    EffectsSeal(w, w.(ledger := w.ledger + plan.signed), keys, key, handle, profile, p, plan, i);
  }

  lemma {:induction false} EffectsSeal(w: World, ws: World, keys: seq<KeyRequest>, key: PrivateKey, handle: Handle,
                                       profile: Profile, p: DynamicParams, plan: Plan, i: nat)
    requires keys != [] && (handle == HANDLE_NULL || IsNvHandle(handle)) && handle !in w.tpm.nv && i < |keys|
    requires NextPolicy(w.tpm, SHA256, SHA256, key, NewCounter(w.highWater, key, handle), profile) == Success(p)
    requires FirstExisting(w.files, keys, 0) == |keys| && plan == SealPlan(w, keys, key, handle, profile)
    requires ws.tpm == w.tpm && ws.highWater == w.highWater
    ensures Sealed(w, ApplyAll(ws, plan.effects), keys[i], key, handle, p)
  {
    NoneExisting(w.files, keys);
    assert keys[..|keys|] == keys;
    var dynamic := DynamicDataOf(SHA256, p);
    if handle == HANDLE_NULL {
      CompletedWithoutCounter(w, keys, key, profile, p, |keys|, EcdsaPublic(key));
      var written := Creations(keys, EcdsaPublic(key), None, dynamic);
      assert [] + written + [] == written;
      CreatedFiles(ws, keys, EcdsaPublic(key), None, dynamic, i);
    } else {
      var pub := NewCounterPublic(handle, KeyName(EcdsaPublic(key)));
      CompletedWithCounter(w, keys, key, handle, profile, p, |keys|, EcdsaPublic(key), pub);
      SealedWithCounter(ws, keys, key, pub, dynamic, i);
    }
  }

  /** Sealing, end to end: after it completes, every requested file unseals without a PIN to its own key, exactly in
      the PCR states that the profile allows. */
  lemma {:induction false} SealedKeysUnseal(w: World, keys: seq<KeyRequest>, key: PrivateKey, handle: Handle,
                                            profile: Profile, power: nat, i: nat, now: TpmState)
    requires OutcomeOf(w, Seal(keys, key, handle, profile), power) == Done && i < |keys|
    requires now.nv == After(w, Seal(keys, key, handle, profile), power).tpm.nv && now.pcrs.Keys == w.tpm.pcrs.Keys
    ensures
      var files := After(w, Seal(keys, key, handle, profile), power).files;
      && keys[i].path in files && files[keys[i].path].Key?
      && var f := files[keys[i].path].f;
         f.priv.pin == "" && f.hint == AuthModeNone && f.priv.payload == SealedData(keys[i].key, key) &&
         UnsealsExactly(now, f, profile, w.tpm.pcrs)
  {
    var w' := After(w, Seal(keys, key, handle, profile), power);
    var p := SealLeaves(w, keys, key, handle, profile, power, i);
    SealedFileIsExact(w, w', keys[i], key, handle, profile, p, now);
  }

  lemma {:induction false} SealedFileIsExact(w: World, w': World, request: KeyRequest, key: PrivateKey, handle: Handle,
                                             profile: Profile, p: DynamicParams, now: TpmState)
    requires NextPolicy(w.tpm, SHA256, SHA256, key, NewCounter(w.highWater, key, handle), profile) == Success(p)
    requires handle == HANDLE_NULL || IsNvHandle(handle)
    requires Sealed(w, w', request, key, handle, p) && now.nv == w'.tpm.nv && now.pcrs.Keys == w.tpm.pcrs.Keys
    ensures UnsealsExactly(now, w'.files[request.path].f, profile, w.tpm.pcrs)
  {
    var f := w'.files[request.path].f;
    FreshFileIsExact(now, f, w.tpm, key, NewCounter(w.highWater, key, handle), profile, p);
  }

  // ------------------------------------------------------------- failed sealing

  /** Files that were created for some requests, and then removed together with all requested files. */
  lemma {:induction false} CreatedAndRemoved(w: World, keys: seq<KeyRequest>, written: seq<Effect>)
    requires FilesOnly(written) && forall i | 0 <= i < |written| :: written[i].path in PathSet(keys)
    ensures ApplyAll(w, written + Removals(keys)).tpm == w.tpm
    ensures ApplyAll(w, written + Removals(keys)).files == w.files - PathSet(keys)
  {
    var w' := ApplyAll(w, written);
    FilesOnlyKeepsTpm(w, written);
    ApplyConcat(w, written, Removals(keys));
    FilesOnlyKeepsTpm(w', Removals(keys));
    var files := ApplyAll(w', Removals(keys)).files;
    forall path
      ensures path in files <==> path in w.files && path !in PathSet(keys)
      ensures path in files ==> files[path] == w.files[path]
    {
      FileAfter(w', Removals(keys), path);
      FileAfter(w, written, path);
      if path in PathSet(keys) {
        var i :| 0 <= i < |keys| && keys[i].path == path;
        assert Removals(keys)[i].path == path;
      }
    }
  }

  lemma {:induction false} CreationPaths(keys: seq<KeyRequest>, n: nat, authKey: PublicKey, counter: Option<NvPublic>,
                                         dynamic: DynamicData)
    requires n <= |keys|
    ensures
      var written := Creations(keys[..n], authKey, counter, dynamic);
      FilesOnly(written) && forall i | 0 <= i < |written| :: written[i].path in PathSet(keys)
  {
    CreationsAre(keys[..n], authKey, counter, dynamic);
    forall path | path in RequestPaths(keys[..n])
      ensures path in PathSet(keys)
    {
      var i :| 0 <= i < n && RequestPaths(keys[..n])[i] == path;
      assert keys[i].path == path;
    }
  }

  /** A counter that is created, and undefined after changes of files. */
  lemma {:induction false} CounterUndone(w: World, pub: NvPublic, es: seq<Effect>)
    requires pub.handle !in w.tpm.nv && !pub.written && FilesOnly(es)
    ensures
      var w' := ApplyAll(w, CreateCounter(pub) + es + [UndefineCounter(pub.handle)]);
      w'.tpm == w.tpm && w'.files == ApplyAll(WithCounter(w, pub), es).files
  {
    var create := CreateCounter(pub);
    CreatedCounter(w, pub);
    ApplyConcat(w, create, es);
    FilesOnlyKeepsTpm(WithCounter(w, pub), es);
    LastEffect(w, create + es, UndefineCounter(pub.handle));
    assert WithCounter(w, pub).tpm.nv - {pub.handle} == w.tpm.nv;
  }

  /** The changes of a seal operation that fails after it was accepted. */
  lemma {:induction false} AbandonedEffects(w: World, keys: seq<KeyRequest>, key: PrivateKey, handle: Handle,
                                            profile: Profile, e: OpError)
    requires keys != [] && (handle == HANDLE_NULL || IsNvHandle(handle)) && handle !in w.tpm.nv
    requires NextPolicy(w.tpm, SHA256, SHA256, key, NewCounter(w.highWater, key, handle), profile) == Failure(e)
    ensures e != FileExists
    ensures
      var plan := SealPlan(w, keys, key, handle, profile);
      var pub := NewCounterPublic(handle, KeyName(EcdsaPublic(key)));
      plan.end == Failed(e) &&
      plan.effects == if handle == HANDLE_NULL then [] else CreateCounter(pub) + [] + [UndefineCounter(handle)]
  {
  }

  /** What failed sealing leaves: the TPM as it was, no new file, and the old files; but if it failed because a
      requested file existed already, then that file is gone too. */
  lemma {:induction false} FailedSealLeaves(w: World, keys: seq<KeyRequest>, key: PrivateKey, handle: Handle,
                                            profile: Profile, power: nat)
    requires OutcomeOf(w, Seal(keys, key, handle, profile), power).Failed?
    ensures
      var w' := After(w, Seal(keys, key, handle, profile), power);
      && w'.tpm == w.tpm
      && w'.files == (if OutcomeOf(w, Seal(keys, key, handle, profile), power) == Failed(FileExists)
                      then w.files - PathSet(keys) else w.files)
  {
    if keys == [] || (handle != HANDLE_NULL && !IsNvHandle(handle)) || handle in w.tpm.nv {
      RefusedSeal(w, keys, key, handle, profile, power);
    } else {
      var plan := SealPlan(w, keys, key, handle, profile);
      var ws := w.(ledger := w.ledger + plan.signed);
      AfterSeal(w, keys, key, handle, profile, power, plan);
      FailedPlanUndoes(w, ws, keys, key, handle, profile, plan);
    }
  }

  /** The world is as before, except for what was signed and for the files. */
  ghost predicate Undone(w: World, w': World, files: map<Path, File>) {
    w'.tpm == w.tpm && w'.files == files
  }

  lemma {:induction false} AbandonedUndoes(w: World, ws: World, keys: seq<KeyRequest>, key: PrivateKey, handle: Handle,
                                           profile: Profile, e: OpError)
    requires keys != [] && (handle == HANDLE_NULL || IsNvHandle(handle)) && handle !in w.tpm.nv && ws.tpm == w.tpm
    requires NextPolicy(w.tpm, SHA256, SHA256, key, NewCounter(w.highWater, key, handle), profile) == Failure(e)
    ensures SealPlan(w, keys, key, handle, profile).end == Failed(e) && e != FileExists
    ensures Undone(ws, ApplyAll(ws, SealPlan(w, keys, key, handle, profile).effects), ws.files)
  {
    AbandonedEffects(w, keys, key, handle, profile, e);
    if handle != HANDLE_NULL {
      CounterUndone(ws, NewCounterPublic(handle, KeyName(EcdsaPublic(key))), []);
    }
  }

  lemma {:induction false} WrittenUndone(ws: World, keys: seq<KeyRequest>, n: nat, authKey: PublicKey,
                                         dynamic: DynamicData)
    requires n <= |keys|
    ensures Undone(ws, ApplyAll(ws, [] + Creations(keys[..n], authKey, None, dynamic) + Removals(keys) + []),
                   ws.files - PathSet(keys))
  {
    var written := Creations(keys[..n], authKey, None, dynamic);
    EmptyEnds(written, Removals(keys));
    CreationPaths(keys, n, authKey, None, dynamic);
    CreatedAndRemoved(ws, keys, written);
  }

  lemma {:induction false} WrittenUndoneWithCounter(ws: World, keys: seq<KeyRequest>, n: nat, authKey: PublicKey,
                                                    pub: NvPublic, dynamic: DynamicData)
    requires n <= |keys| && pub.handle !in ws.tpm.nv && !pub.written
    ensures
      var written := Creations(keys[..n], authKey, Some(Written(pub)), dynamic);
      Undone(ws, ApplyAll(ws, CreateCounter(pub) + written + Removals(keys) + [UndefineCounter(pub.handle)]),
             ws.files - PathSet(keys))
  {
    var written := Creations(keys[..n], authKey, Some(Written(pub)), dynamic);
    CreationPaths(keys, n, authKey, Some(Written(pub)), dynamic);
    CreatedAndRemoved(WithCounter(ws, pub), keys, written);
    Regroup(CreateCounter(pub), written, Removals(keys));
    CounterUndone(ws, pub, written + Removals(keys));
  }

  lemma {:induction false} FailedPlanUndoes(w: World, ws: World, keys: seq<KeyRequest>, key: PrivateKey, handle: Handle,
                                            profile: Profile, plan: Plan)
    requires keys != [] && (handle == HANDLE_NULL || IsNvHandle(handle)) && handle !in w.tpm.nv
    requires plan == SealPlan(w, keys, key, handle, profile) && plan.end.Failed? && ws.tpm == w.tpm
    ensures Undone(ws, ApplyAll(ws, plan.effects),
                   if plan.end == Failed(FileExists) then ws.files - PathSet(keys) else ws.files)
  {
    var authKey := EcdsaPublic(key);
    var n := FirstExisting(w.files, keys, 0);
    match NextPolicy(w.tpm, SHA256, SHA256, key, NewCounter(w.highWater, key, handle), profile)
    case Failure(e) => AbandonedUndoes(w, ws, keys, key, handle, profile, e);
    case Success(p) =>
      if handle == HANDLE_NULL {
        CompletedWithoutCounter(w, keys, key, profile, p, n, authKey);
        WrittenUndone(ws, keys, n, authKey, DynamicDataOf(SHA256, p));
      } else {
        var pub := NewCounterPublic(handle, KeyName(authKey));
        CompletedWithCounter(w, keys, key, handle, profile, p, n, authKey, pub);
        WrittenUndoneWithCounter(ws, keys, n, authKey, pub, DynamicDataOf(SHA256, p));
      }
  }

  // ------------------------------------------------------------------ updating

  /** Updating, end to end: after it completes, every named file still holds its own key and PIN, and unseals exactly
      in the PCR states that the new profile allows. */
  lemma {:induction false} UpdatedKeysUnseal(w: World, paths: seq<Path>, key: PrivateKey, profile: Profile, power: nat,
                                             path: Path, now: TpmState)
    requires Consistent(w) && OutcomeOf(w, Update(paths, key, profile), power) == Done && path in paths
    requires now.nv == After(w, Update(paths, key, profile), power).tpm.nv && now.pcrs.Keys == w.tpm.pcrs.Keys
    ensures
      var files := After(w, Update(paths, key, profile), power).files;
      && path in w.files && w.files[path].Key? && path in files && files[path].Key?
      && files[path].f.priv == w.files[path].f.priv && files[path].f.hint == w.files[path].f.hint
      && UnsealsExactly(now, files[path].f, profile, w.tpm.pcrs)
  {
    var w' := After(w, Update(paths, key, profile), power);
    var fs, p := UpdateLeaves(w, paths, key, profile, power, path, w');
    UpdatedFileIsExact(w, w', paths, key, profile, fs, p, path, now);
  }

  /** What a completed update leaves of a file that it names, and of its counter. */
  lemma {:induction false} UpdateLeaves(w: World, paths: seq<Path>, key: PrivateKey, profile: Profile, power: nat,
                                        path: Path, w': World)
      returns (fs: seq<KeyFile>, p: DynamicParams)
    requires Consistent(w) && OutcomeOf(w, Update(paths, key, profile), power) == Done && path in paths
    requires w' == After(w, Update(paths, key, profile), power)
    ensures Updating(w, paths, key, profile, fs, p)
    ensures path in w.files && w.files[path].Key? && path in w'.files
    ensures w'.files[path] == Key(w.files[path].f.(dynamic := DynamicDataOf(SHA256, p)))
    ensures Counted(w, w', fs[0].static_.counterHandle, p)
  {
    DoneIsSigned(w, Update(paths, key, profile), power);
    fs, p := CompletedIsRewritten(w, Update(paths, key, profile), power);
    RewrittenCounted(w, paths, key, profile, fs, p);
    RewrittenFileIs(w, paths, key, profile, fs, p, path);
  }

  lemma {:induction false} RewrittenCounted(w: World, paths: seq<Path>, key: PrivateKey, profile: Profile,
                                            fs: seq<KeyFile>, p: DynamicParams)
    requires Consistent(w) && Updating(w, paths, key, profile, fs, p)
    ensures Counted(w, Rewritten(w, paths, fs, p), fs[0].static_.counterHandle, p)
  {
    RewrittenTpm(w, paths, key, profile, fs, p);
  }

  /** The counter of an update is one higher afterwards. */
  ghost predicate Counted(w: World, w': World, h: Handle, p: DynamicParams) {
    if h == HANDLE_NULL then p.counter == None && w'.tpm.nv == w.tpm.nv
    else h in w.tpm.nv && w'.tpm.nv == w.tpm.nv[h := w.tpm.nv[h].(value := w.tpm.nv[h].value + 1)]
  }

  /** A named file is rewritten with the new policy, and otherwise unchanged. */
  lemma {:induction false} RewrittenFileIs(w: World, paths: seq<Path>, key: PrivateKey, profile: Profile,
                                           fs: seq<KeyFile>, p: DynamicParams, path: Path)
    requires Consistent(w) && Updating(w, paths, key, profile, fs, p) && path in paths
    ensures
      var files := Rewritten(w, paths, fs, p).files;
      && path in w.files && w.files[path].Key? && path in files
      && files[path] == Key(w.files[path].f.(dynamic := DynamicDataOf(SHA256, p)))
  {
    var ws := w.(ledger := w.ledger + [Authorization(SHA256, p)]);
    var dynamic := DynamicDataOf(SHA256, p);
    var writes := Rewrites(paths, fs, dynamic);
    RewriteOne(w, ws, paths, key, fs, dynamic, path);
    var h := fs[0].static_.counterHandle;
    if h == HANDLE_NULL {
      assert writes + [] == writes;
    } else {
      LastEffect(ws, writes, IncrementCounter(h));
    }
  }

  lemma {:induction false} RewriteOne(w: World, ws: World, paths: seq<Path>, key: PrivateKey, fs: seq<KeyFile>,
                                      dynamic: DynamicData, path: Path)
    requires Consistent(w) && ReadFiles(w, paths, key) == Success(fs) && |fs| == |paths| && path in paths
    ensures
      var files := ApplyAll(ws, Rewrites(paths, fs, dynamic)).files;
      && path in w.files && w.files[path].Key? && path in files
      && files[path] == Key(w.files[path].f.(dynamic := dynamic))
  {
    var writes := Rewrites(paths, fs, dynamic);
    var i :| 0 <= i < |paths| && paths[i] == path;
    assert writes[i].path == path;
    FileAfter(ws, writes, path);
    var files := ApplyAll(ws, writes).files;
    var j :| 0 <= j < |writes| && writes[j].path == path && (path in files <==> !writes[j].RemoveFile?) &&
             (path in files ==> files[path] == if writes[j].CreateFile? then Partial else Key(writes[j].f));
    UpdateReads(w, paths, key, j);
  }

  lemma {:induction false} FileFacts(w: World, f: KeyFile)
    requires FileOk(w, f)
    ensures f.pub.nameAlg == SHA256 && f.priv.pub == f.pub && f.static_.authKey.nameAlg == SHA256
    ensures CounterOf(w.tpm, f.static_).Success?
    ensures f.pub.authPolicy ==
            StaticPolicyDigest(SHA256, f.static_.authKey, CounterName(PublicOf(CounterOf(w.tpm, f.static_).value)))
  {
    var a :| a in w.ledger && Backed(w.tpm, f, a);
  }

  lemma {:induction false} UpdatedFileIsExact(w: World, w': World, paths: seq<Path>, key: PrivateKey, profile: Profile,
                                              fs: seq<KeyFile>, p: DynamicParams, path: Path, now: TpmState)
    requires Consistent(w) && Updating(w, paths, key, profile, fs, p) && path in paths && path in w.files &&
             w.files[path].Key?
    requires path in w'.files && w'.files[path] == Key(w.files[path].f.(dynamic := DynamicDataOf(SHA256, p)))
    requires now.nv == w'.tpm.nv && now.pcrs.Keys == w.tpm.pcrs.Keys
    requires Counted(w, w', fs[0].static_.counterHandle, p)
    ensures UnsealsExactly(now, w'.files[path].f, profile, w.tpm.pcrs)
  {
    var i :| 0 <= i < |paths| && paths[i] == path;
    UpdateReads(w, paths, key, i);
    UpdateReads(w, paths, key, 0);
    var f := w'.files[path].f;
    FileFacts(w, fs[i]);
    FileFacts(w, fs[0]);
    FreshFileIsExact(now, f, w.tpm, key, CounterOf(w.tpm, fs[0].static_).value, profile, p);
  }

  // -------------------------------------------------- updating only some files

  lemma {:induction false} EffectsKeepPcrs(w: World, es: seq<Effect>)
    ensures ApplyAll(w, es).tpm.pcrs == w.tpm.pcrs
    decreases |es|
  {
    if es != [] {
      EffectsKeepPcrs(Apply(w, es[0]), es[1..]);
    }
  }

  /** Two new keys are sealed together. */
  lemma {:induction false} SealTwo(w: World, k1: KeyRequest, k2: KeyRequest, key: PrivateKey, handle: Handle,
                                   profile: Profile, power: nat)
    requires k1.path != k2.path && k1.path !in w.files && k2.path !in w.files && IsNvHandle(handle) &&
             handle !in w.tpm.nv
    requires NextPolicy(w.tpm, SHA256, SHA256, key, None, profile).Success?
    requires power == |SealPlan(w, [k1, k2], key, handle, profile).effects|
    ensures OutcomeOf(w, Seal([k1, k2], key, handle, profile), power) == Done
    ensures After(w, Seal([k1, k2], key, handle, profile), power).tpm.pcrs == w.tpm.pcrs
  {
    var keys := [k1, k2];
    var plan := SealPlan(w, keys, key, handle, profile);
    assert RequestPaths(keys[..0]) == [] && RequestPaths(keys[..1]) == [k1.path];
    assert FirstExisting(w.files, keys, 2) == 2;
    assert FirstExisting(w.files, keys, 1) == 2;
    var p := NextPolicy(w.tpm, SHA256, SHA256, key, NewCounter(w.highWater, key, handle), profile).value;
    var pub := NewCounterPublic(handle, KeyName(EcdsaPublic(key)));
    CompletedWithCounter(w, keys, key, handle, profile, p, 2, EcdsaPublic(key), pub);
    AfterSeal(w, keys, key, handle, profile, power, plan);
    EffectsKeepPcrs(w.(ledger := w.ledger + plan.signed), plan.effects);
  }

  /** A sealed file can be updated with the key that was sealed with it. */
  lemma {:induction false} UpdateOne(w: World, w1: World, k: KeyRequest, key: PrivateKey, handle: Handle,
                                     p: DynamicParams, profile: Profile, power: nat)
    requires Sealed(w, w1, k, key, handle, p) && IsNvHandle(handle)
    requires NextPolicy(w1.tpm, SHA256, SHA256, key, None, profile).Success?
    requires power == |UpdatePlan(w1, [k.path], key, profile).effects|
    ensures OutcomeOf(w1, Update([k.path], key, profile), power) == Done
    ensures CompletesUpdate(w1, Update([k.path], key, profile), power, handle)
  {
    var f := w1.files[k.path].f;
    var authKey := EcdsaPublic(key);
    var index := w1.tpm.nv[handle];
    assert CounterOf(w1.tpm, f.static_) == Success(Some(index));
    assert Validation(w1.tpm, f, Some(key)).Success?;
    assert [k.path][1..] == [] && ReadRelated(w1, [], f.pub.authPolicy) == Success([]);
    assert ReadFiles(w1, [k.path], key) == Success([f] + []);
    assert [f] + [] == [f];
    CounterBelongsToKey(handle, KeyName(authKey), KeyName(authKey));
    assert NextPolicy(w1.tpm, SHA256, SHA256, key, Some(index), profile).Success?;
  }

  /** Sealing two keys together and then updating only the first: both operations complete, and where the profile allows
      unsealing the first file still unseals while the second is revoked. */
  lemma {:induction false} PartialUpdateRevokes(w: World, k1: KeyRequest, k2: KeyRequest, key: PrivateKey,
                                                handle: Handle, profile: Profile, now: TpmState, w1: World, w2: World,
                                                n1: nat, n2: nat)
    requires Consistent(w) && k1.path != k2.path && k1.path !in w.files && k2.path !in w.files
    requires IsNvHandle(handle) && handle !in w.tpm.nv
    requires NextPolicy(w.tpm, SHA256, SHA256, key, None, profile).Success?
    requires n1 == |SealPlan(w, [k1, k2], key, handle, profile).effects|
    requires w1 == After(w, Seal([k1, k2], key, handle, profile), n1)
    requires n2 == |UpdatePlan(w1, [k1.path], key, profile).effects|
    requires w2 == After(w1, Update([k1.path], key, profile), n2)
    requires now.nv == w2.tpm.nv && now.pcrs.Keys == w.tpm.pcrs.Keys
    requires Selected(now.pcrs, Approved(profile, w.tpm.pcrs, SHA256).value.0) in Evaluate(profile, w.tpm.pcrs).value
    ensures OutcomeOf(w, Seal([k1, k2], key, handle, profile), n1) == Done
    ensures OutcomeOf(w1, Update([k1.path], key, profile), n2) == Done
    ensures k1.path in w2.files && w2.files[k1.path].Key? && k2.path in w2.files && w2.files[k2.path].Key?
    ensures Unsealing(now, w2.files[k1.path].f, "") == Success(SealedData(k1.key, key))
    ensures Unsealing(now, w2.files[k2.path].f, "") == Failure(SessionFailed(PolicyRevoked))
  {
    var keys, seal, update := [k1, k2], Seal([k1, k2], key, handle, profile), Update([k1.path], key, profile);
    SealTwo(w, k1, k2, key, handle, profile, n1);
    OpKeeps(w, seal, n1);
    var p1 := SealLeaves(w, keys, key, handle, profile, n1, 0);
    var p2 := SealLeaves(w, keys, key, handle, profile, n1, 1);
    UpdateOne(w, w1, k1, key, handle, p1, profile, n2);
    UpdatedKeysUnseal(w1, [k1.path], key, profile, n2, k1.path, now);
    OtherIsRevoked(w, w1, w2, k1, k2, key, handle, profile, p2, n2, now);
  }

  lemma {:induction false} OtherIsRevoked(w: World, w1: World, w2: World, k1: KeyRequest, k2: KeyRequest,
                                          key: PrivateKey, handle: Handle, profile: Profile, p: DynamicParams, n2: nat,
                                          now: TpmState)
    requires Consistent(w1) && Sealed(w, w1, k2, key, handle, p) && IsNvHandle(handle) && k1.path != k2.path
    requires NextPolicy(w.tpm, SHA256, SHA256, key, NewCounter(w.highWater, key, handle), profile) == Success(p)
    requires CompletesUpdate(w1, Update([k1.path], key, profile), n2, handle)
    requires w2 == After(w1, Update([k1.path], key, profile), n2)
    requires now.nv == w2.tpm.nv && now.pcrs.Keys == w.tpm.pcrs.Keys
    requires Selected(now.pcrs, p.pcrs) in Evaluate(profile, w.tpm.pcrs).value
    ensures k2.path in w2.files && w2.files[k2.path] == w1.files[k2.path]
    ensures Unsealing(now, w2.files[k2.path].f, "") == Failure(SessionFailed(PolicyRevoked))
  {
    var update := Update([k1.path], key, profile);
    UnnamedUnchanged(w1, update, n2, k2.path);
    UpdateIncrements(w1, update, n2, handle);
    PassedIsRevoked(w, w1, k2, key, handle, profile, p, now);
  }

  /** A sealed file does not unseal once the counter has passed its policy. */
  lemma {:induction false} PassedIsRevoked(w: World, w1: World, k: KeyRequest, key: PrivateKey, handle: Handle,
                                           profile: Profile, p: DynamicParams, now: TpmState)
    requires Sealed(w, w1, k, key, handle, p) && IsNvHandle(handle)
    requires NextPolicy(w.tpm, SHA256, SHA256, key, NewCounter(w.highWater, key, handle), profile) == Success(p)
    requires now.pcrs.Keys == w.tpm.pcrs.Keys && handle in now.nv && now.nv[handle].pub == w1.tpm.nv[handle].pub
    requires now.nv[handle].value > w1.tpm.nv[handle].value
    requires Selected(now.pcrs, p.pcrs) in Evaluate(profile, w.tpm.pcrs).value
    ensures Unsealing(now, w1.files[k.path].f, "") == Failure(SessionFailed(PolicyRevoked))
  {
    ProfileToSession(w.tpm, now, SHA256, key, w1.files[k.path].f.static_, NewCounter(w.highWater, key, handle),
                     profile);
  }

  // ------------------------------------------------------------------- PINs

  /** Changing the PIN, end to end: the file unseals to the new PIN when it unsealed to the old one, and any other PIN
      is reported as wrong then. Nothing but the PIN and the hint about it changes. */
  lemma {:induction false} ChangedPinUnseals(w: World, path: Path, oldPin: string, newPin: string, power: nat,
                                             now: TpmState, pin: string)
    requires OutcomeOf(w, Op.ChangePin(path, oldPin, newPin), power) == Done
    ensures
      var w' := After(w, Op.ChangePin(path, oldPin, newPin), power);
      && path in w.files && w.files[path].Key? && w.files[path].f.priv.pin == oldPin
      && path in w'.files && w'.files[path].Key? && w'.tpm == w.tpm && w'.files == w.files[path := w'.files[path]]
      && var f, f' := w.files[path].f, w'.files[path].f;
         && f'.priv.pin == newPin && (f'.hint == AuthModeNone <==> newPin == "")
         && f'.priv.payload == f.priv.payload && f'.priv.pub == f.priv.pub
         && f'.pub == f.pub && f'.static_ == f.static_ && f'.dynamic == f.dynamic
         && Unsealing(now, f', newPin) == Unsealing(now, f, oldPin)
         && (pin != newPin ==>
               Unsealing(now, f', pin) ==
               if Unsealing(now, f, oldPin).Success? then Failure(PinFailed) else Unsealing(now, f, oldPin))
  {
    var f := w.files[path].f;
    var write := ReplaceFile(path, WithPin(f, newPin));
    assert PlanOf(w, Op.ChangePin(path, oldPin, newPin)) == Plan([], [write], Done);
    var ws := w.(ledger := w.ledger + []);
    LastEffect(ws, [], write);
    assert [] + [write] == [write];
    assert After(w, Op.ChangePin(path, oldPin, newPin), power) == ApplyAll(ws, [write]);
  }
}
