/** The operations on key files as they run: a TPM and a file store that change step by step.
    `power` is the number of persistent changes that are made before power is lost. Every operation follows its plan.
  */
module Device {
  import opened Digests
  import opened Tpm
  import opened PolicyOrTree
  import opened PolicySessions
  import opened KeyFiles
  import opened PcrProfile
  import opened PcrDigests
  import opened Sealing

  lemma {:induction false} NextEffect(w: World, es: seq<Effect>, k: nat)
    requires k < |es|
    ensures ApplyAll(w, es[..k + 1]) == Apply(ApplyAll(w, es[..k]), es[k])
  {
    assert es[..k + 1] == es[..k] + [es[k]];
    ApplyConcat(w, es[..k], [es[k]]);
    assert [es[k]][1..] == [];
  }

  lemma {:induction false} CreationsAt(keys: seq<KeyRequest>, authKey: PublicKey, counter: Option<NvPublic>,
                                       dynamic: DynamicData)
    ensures |Creations(keys, authKey, counter, dynamic)| == 2 * |keys|
    ensures forall i | 0 <= i < |keys| ::
              && Creations(keys, authKey, counter, dynamic)[2 * i] == CreateFile(keys[i].path)
              && Creations(keys, authKey, counter, dynamic)[2 * i + 1] ==
                 ReplaceFile(keys[i].path, NewKeyFile(authKey, counter, keys[i].key, dynamic))
    decreases |keys|
  {
    if keys != [] {
      CreationsAt(keys[..|keys| - 1], authKey, counter, dynamic);
    }
  }

  ghost predicate CreatesAt(es: seq<Effect>, k: nat, key: KeyRequest, authKey: PublicKey, counter: Option<NvPublic>,
                            dynamic: DynamicData)
  {
    k + 2 <= |es| && es[k] == CreateFile(key.path) &&
    es[k + 1] == ReplaceFile(key.path, NewKeyFile(authKey, counter, key.key, dynamic))
  }

  lemma {:induction false} CreationInSlice(es: seq<Effect>, start: nat, keys: seq<KeyRequest>, n0: nat, n: nat, at: nat,
                                           authKey: PublicKey, counter: Option<NvPublic>, dynamic: DynamicData)
    requires n < n0 <= |keys| && start + 2 * n0 <= |es|
    requires es[start..start + 2 * n0] == Creations(keys[..n0], authKey, counter, dynamic) && at == start + 2 * n
    ensures CreatesAt(es, at, keys[n], authKey, counter, dynamic)
  {
    CreationsAt(keys[..n0], authKey, counter, dynamic);
    var slice := es[start..start + 2 * n0];
    assert slice[2 * n] == es[start + 2 * n] && slice[2 * n + 1] == es[start + 2 * n + 1];
  }

  ghost function PathSet(keys: seq<KeyRequest>): set<Path> {
    set i | 0 <= i < |keys| :: keys[i].path
  }

  lemma {:induction false} NextPathSet(keys: seq<KeyRequest>, n: nat)
    requires n < |keys|
    ensures PathSet(keys[..n + 1]) == PathSet(keys[..n]) + {keys[n].path}
  {
    assert keys[..n + 1] == keys[..n] + [keys[n]];
  }

  lemma {:induction false} BeforeFirstExisting(files: map<Path, File>, keys: seq<KeyRequest>, i: nat, n: nat)
    requires i <= |keys| && i <= n <= FirstExisting(files, keys, i)
    ensures n < |keys| ==>
              (n < FirstExisting(files, keys, i) <==>
               keys[n].path !in files && keys[n].path !in RequestPaths(keys[..n]))
    decreases |keys| - i
  {
    if i < n {
      BeforeFirstExisting(files, keys, i + 1, n);
    }
  }

  /** A request can still be created exactly when it comes before the first whose file exists. */
  lemma {:induction false} StillToCreate(before: map<Path, File>, keys: seq<KeyRequest>, n: nat, n0: nat,
                                         now: map<Path, File>)
    requires n0 == FirstExisting(before, keys, 0) && n <= n0
    requires now.Keys == before.Keys + PathSet(keys[..n])
    ensures (n < |keys| && keys[n].path !in now) <==> n < n0
  {
    BeforeFirstExisting(before, keys, 0, n);
    if n < |keys| {
      assert keys[n].path in PathSet(keys[..n]) <==> keys[n].path in RequestPaths(keys[..n]);
    }
  }

  /** The plan of an update starts by rewriting the files. */
  lemma {:induction false} UpdatePlanStarts(w: World, paths: seq<Path>, key: PrivateKey, profile: Profile,
                                            fs: seq<KeyFile>, dynamic: DynamicData)
    requires ReadFiles(w, paths, key) == Success(fs) && |fs| == |paths| > 0
    requires NextPolicy(w.tpm, fs[0].pub.nameAlg, fs[0].static_.authKey.nameAlg, key,
                        CounterOf(w.tpm, fs[0].static_).value, profile).Success?
    requires dynamic == DynamicDataOf(fs[0].pub.nameAlg,
                                      NextPolicy(w.tpm, fs[0].pub.nameAlg, fs[0].static_.authKey.nameAlg, key,
                                                 CounterOf(w.tpm, fs[0].static_).value, profile).value)
    ensures Planned(UpdatePlan(w, paths, key, profile), paths, fs, dynamic, CounterOf(w.tpm, fs[0].static_).value)
  {
  }

  /** A plan that rewrites the files, and then increments the counter if it can. */
  ghost predicate Planned(plan: Plan, paths: seq<Path>, fs: seq<KeyFile>, dynamic: DynamicData, index: Option<NvIndex>)
    requires |fs| == |paths| > 0
  {
    var revokes := index.Some? && MayIncrement(index.value.pub, KeyName(fs[0].static_.authKey));
    && |plan.effects| == |paths| + (if revokes then 1 else 0)
    && plan.effects[..|paths|] == Rewrites(paths, fs, dynamic)
    && (revokes ==> plan.effects[|paths|] == IncrementCounter(fs[0].static_.counterHandle))
    && plan.effects[..|plan.effects|] == plan.effects
    && plan.end == if index.None? || revokes then Done else Failed(CannotRevoke)
  }

  /** What is there after `k` changes, or after all of them if there are fewer. */
  ghost function Until(w: World, es: seq<Effect>, k: nat): World {
    ApplyAll(w, if k < |es| then es[..k] else es)
  }

  /** The last changes of sealing, once the counter is there: the files, and then either everything is removed again or
      the counter is incremented. */
  ghost predicate SealingEnds(es: seq<Effect>, start: nat, keys: seq<KeyRequest>, n: nat, authKey: PublicKey,
                              counter: Option<NvPublic>, dynamic: DynamicData)
    requires n <= |keys|
  {
    && start + 2 * n <= |es|
    && es[start..start + 2 * n] == Creations(keys[..n], authKey, counter, dynamic)
    && if n < |keys| then Removing(es, start + 2 * n, keys, counter)
       else Finishing(es, start + 2 * n, counter)
  }

  ghost predicate Removing(es: seq<Effect>, at: nat, keys: seq<KeyRequest>, counter: Option<NvPublic>) {
    && at + |keys| <= |es| && es[at..at + |keys|] == Removals(keys)
    && if counter.Some? then |es| == at + |keys| + 1 && es[at + |keys|] == UndefineCounter(counter.value.handle)
       else |es| == at + |keys|
  }

  ghost predicate Finishing(es: seq<Effect>, at: nat, counter: Option<NvPublic>) {
    if counter.Some? then |es| == at + 1 && es[at] == IncrementCounter(counter.value.handle) else |es| == at
  }

  ghost predicate Abandoning(es: seq<Effect>, start: nat, handle: Handle) {
    if handle == HANDLE_NULL then |es| == start else |es| == start + 1 && es[start] == UndefineCounter(handle)
  }

  /** The counter that sealing creates, once it has its first value. */
  ghost function NewCounter(highWater: nat, key: PrivateKey, handle: Handle): Option<NvIndex> {
    if handle == HANDLE_NULL then None
    else Some(NvIndex(Written(NewCounterPublic(handle, KeyName(EcdsaPublic(key)))), highWater + 1))
  }

  ghost predicate StartsWithCounter(es: seq<Effect>, handle: Handle, key: PrivateKey) {
    handle != HANDLE_NULL ==>
      && |es| >= 2 && es[0] == DefineCounter(NewCounterPublic(handle, KeyName(EcdsaPublic(key))))
      && es[1] == IncrementCounter(handle)
  }

  /** What sealing does after the counter is there. */
  ghost predicate PlannedSealing(plan: Plan, start: nat, keys: seq<KeyRequest>, n: nat, authKey: PublicKey,
                                 handle: Handle, counter: Option<NvPublic>, next: Result<DynamicParams, OpError>)
    requires n <= |keys|
  {
    && start <= |plan.effects|
    && match next
       case Failure(e) => plan.end == Failed(e) && Abandoning(plan.effects, start, handle)
       case Success(p) =>
         && p.pcrDigests != []
         && SealingEnds(plan.effects, start, keys, n, authKey, counter, DynamicDataOf(SHA256, p))
         && plan.end == if n < |keys| then Failed(FileExists) else Done
  }

  /** What a seal operation comes to, from its plan. */
  lemma {:induction false} AfterSeal(w: World, keys: seq<KeyRequest>, key: PrivateKey, handle: Handle, profile: Profile,
                                     power: nat, plan: Plan)
    requires plan == SealPlan(w, keys, key, handle, profile)
    ensures After(w, Seal(keys, key, handle, profile), power) ==
            Until(w.(ledger := w.ledger + plan.signed), plan.effects, power)
    ensures OutcomeOf(w, Seal(keys, key, handle, profile), power) ==
            if power < |plan.effects| then PowerLost else plan.end
  {
  }

  /** A seal operation that is refused changes nothing. */
  lemma {:induction false} RefusedSeal(w: World, keys: seq<KeyRequest>, key: PrivateKey, handle: Handle,
                                       profile: Profile, power: nat)
    requires keys == [] || (handle != HANDLE_NULL && !IsNvHandle(handle)) || handle in w.tpm.nv
    ensures After(w, Seal(keys, key, handle, profile), power) == w
    ensures OutcomeOf(w, Seal(keys, key, handle, profile), power) ==
            Failed(if keys == [] then NoFiles
                   else if handle != HANDLE_NULL && !IsNvHandle(handle) then BadHandle
                   else CounterExists)
  {
    assert w.ledger + [] == w.ledger;
  }

  lemma {:induction false} NextPolicyReadsPcrs(tpm: TpmState, tpm': TpmState, key: PrivateKey, counter: Option<NvIndex>,
                                               profile: Profile)
    requires tpm.pcrs == tpm'.pcrs
    ensures NextPolicy(tpm, SHA256, SHA256, key, counter, profile) ==
            NextPolicy(tpm', SHA256, SHA256, key, counter, profile)
  {
  }

  lemma {:induction false} AbandonedPlan(w: World, keys: seq<KeyRequest>, key: PrivateKey, handle: Handle,
                                         profile: Profile, e: OpError)
    requires keys != [] && (handle == HANDLE_NULL || IsNvHandle(handle)) && handle !in w.tpm.nv
    requires NextPolicy(w.tpm, SHA256, SHA256, key, NewCounter(w.highWater, key, handle), profile) == Failure(e)
    ensures
      var plan := SealPlan(w, keys, key, handle, profile);
      && StartsWithCounter(plan.effects, handle, key) && plan.end == Failed(e)
      && Abandoning(plan.effects, if handle == HANDLE_NULL then 0 else 2, handle)
  {
  }

  lemma {:induction false} CompletedWithCounter(w: World, keys: seq<KeyRequest>, key: PrivateKey, handle: Handle,
                                                profile: Profile, p: DynamicParams, n: nat, authKey: PublicKey,
                                                pub: NvPublic)
    requires keys != [] && IsNvHandle(handle) && handle !in w.tpm.nv && n == FirstExisting(w.files, keys, 0)
    requires NextPolicy(w.tpm, SHA256, SHA256, key, Some(NvIndex(Written(pub), w.highWater + 1)), profile) == Success(p)
    requires authKey == EcdsaPublic(key) && pub == NewCounterPublic(handle, KeyName(authKey))
    ensures
      var plan := SealPlan(w, keys, key, handle, profile);
      var create := [DefineCounter(pub), IncrementCounter(handle)];
      var written := Creations(keys[..n], authKey, Some(Written(pub)), DynamicDataOf(SHA256, p));
      && plan.effects == (if n < |keys| then create + written + Removals(keys) + [UndefineCounter(handle)]
                          else create + written + [IncrementCounter(handle)])
      && plan.end == if n < |keys| then Failed(FileExists) else Done
  {
  }

  lemma {:induction false} CompletedWithoutCounter(w: World, keys: seq<KeyRequest>, key: PrivateKey, profile: Profile,
                                                   p: DynamicParams, n: nat, authKey: PublicKey)
    requires keys != [] && HANDLE_NULL !in w.tpm.nv && n == FirstExisting(w.files, keys, 0) &&
             authKey == EcdsaPublic(key)
    requires NextPolicy(w.tpm, SHA256, SHA256, key, None, profile) == Success(p)
    ensures
      var plan := SealPlan(w, keys, key, HANDLE_NULL, profile);
      var written := Creations(keys[..n], authKey, None, DynamicDataOf(SHA256, p));
      && plan.effects == (if n < |keys| then [] + written + Removals(keys) + [] else [] + written + [])
      && plan.end == if n < |keys| then Failed(FileExists) else Done
  {
  }

  /** The effects of sealing, in terms of the predicates above. */
  lemma {:induction false} PartsOfPlan(plan: Plan, keys: seq<KeyRequest>, n: nat, key: PrivateKey, handle: Handle,
                                       counter: Option<NvIndex>, p: DynamicParams, create: seq<Effect>,
                                       undefine: seq<Effect>, increment: seq<Effect>)
    requires n <= |keys| && p.pcrDigests != [] && plan.end == if n < |keys| then Failed(FileExists) else Done
    requires counter.Some? ==> counter.value.pub.handle == handle
    requires handle == HANDLE_NULL <==> counter.None?
    requires create == if handle == HANDLE_NULL then []
                       else [DefineCounter(NewCounterPublic(handle, KeyName(EcdsaPublic(key)))),
                             IncrementCounter(handle)]
    requires undefine == if handle == HANDLE_NULL then [] else [UndefineCounter(handle)]
    requires increment == if handle == HANDLE_NULL then [] else [IncrementCounter(handle)]
    requires
      var written := Creations(keys[..n], EcdsaPublic(key), PublicOf(counter), DynamicDataOf(SHA256, p));
      plan.effects == if n < |keys| then create + written + Removals(keys) + undefine else create + written + increment
    ensures StartsWithCounter(plan.effects, handle, key)
    ensures PlannedSealing(plan, if handle == HANDLE_NULL then 0 else 2, keys, n, EcdsaPublic(key), handle,
                           PublicOf(counter), Success(p))
  {
    SealingParts(plan.effects, create, keys, n, EcdsaPublic(key), PublicOf(counter), DynamicDataOf(SHA256, p), undefine,
                 increment);
  }

  /** The plan of sealing, from the changes it is made of. */
  lemma {:induction false} SealPlanParts(w: World, keys: seq<KeyRequest>, key: PrivateKey, handle: Handle,
                                         profile: Profile, next: Result<DynamicParams, OpError>)
    requires keys != [] && (handle == HANDLE_NULL || IsNvHandle(handle)) && handle !in w.tpm.nv
    requires next == NextPolicy(w.tpm, SHA256, SHA256, key, NewCounter(w.highWater, key, handle), profile)
    ensures
      var plan := SealPlan(w, keys, key, handle, profile);
      && StartsWithCounter(plan.effects, handle, key)
      && PlannedSealing(plan, if handle == HANDLE_NULL then 0 else 2, keys, FirstExisting(w.files, keys, 0),
                        EcdsaPublic(key), handle, PublicOf(NewCounter(w.highWater, key, handle)), next)
  {
    if next.Success? {
      ApprovedNotEmpty(profile, w.tpm.pcrs, SHA256);
      var plan := SealPlan(w, keys, key, handle, profile);
      var n := FirstExisting(w.files, keys, 0);
      if handle == HANDLE_NULL {
        CompletedWithoutCounter(w, keys, key, profile, next.value, n, EcdsaPublic(key));
        PartsOfPlan(plan, keys, n, key, handle, None, next.value, [], [], []);
      } else {
        var pub := NewCounterPublic(handle, KeyName(EcdsaPublic(key)));
        CompletedWithCounter(w, keys, key, handle, profile, next.value, n, EcdsaPublic(key), pub);
        PartsOfPlan(plan, keys, n, key, handle, NewCounter(w.highWater, key, handle), next.value,
                    [DefineCounter(pub), IncrementCounter(handle)], [UndefineCounter(handle)],
                    [IncrementCounter(handle)]);
      }
    } else {
      AbandonedPlan(w, keys, key, handle, profile, next.error);
    }
  }

  lemma {:induction false} SealingParts(es: seq<Effect>, create: seq<Effect>, keys: seq<KeyRequest>, n: nat,
                                        authKey: PublicKey, counter: Option<NvPublic>, dynamic: DynamicData,
                                        undefine: seq<Effect>, increment: seq<Effect>)
    requires n <= |keys|
    requires undefine == if counter.Some? then [UndefineCounter(counter.value.handle)] else []
    requires increment == if counter.Some? then [IncrementCounter(counter.value.handle)] else []
    requires
      var written := Creations(keys[..n], authKey, counter, dynamic);
      es == if n < |keys| then create + written + Removals(keys) + undefine else create + written + increment
    ensures SealingEnds(es, |create|, keys, n, authKey, counter, dynamic)
  {
    CreationsAt(keys[..n], authKey, counter, dynamic);
    var written := Creations(keys[..n], authKey, counter, dynamic);
    var at := |create| + 2 * n;
    assert es[|create|..at] == written;
    assert n < |keys| ==> es[at..at + |keys|] == Removals(keys);
  }

  class Machine {
    var tpm: TpmState
    var highWater: nat
    var files: map<Path, File>
    ghost var ledger: seq<Authorization>

    ghost function Store(): World
      reads this
    {
      World(tpm, highWater, files, ledger)
    }

    /** One persistent change, unless power is gone. */
    method Do(e: Effect, left: nat, ghost w: World, ghost es: seq<Effect>, ghost k: nat) returns (ok: bool, left': nat)
      requires k < |es| && es[k] == e && Store() == ApplyAll(w, es[..k])
      modifies this
      ensures ok == (left > 0)
      ensures ok ==> left' == left - 1 && Store() == ApplyAll(w, es[..k + 1])
      ensures !ok ==> Store() == old(Store())
      ensures ok ==> Store() == Apply(old(Store()), e)
    {
      if left == 0 {
        return false, 0;
      }
      NextEffect(w, es, k);
      match e {
        case DefineCounter(pub) => tpm := tpm.(nv := tpm.nv[pub.handle := NvIndex(pub, 0)]);
        case IncrementCounter(h) =>
          if h in tpm.nv {
            var index := Incremented(tpm.nv[h], highWater);
            tpm := tpm.(nv := tpm.nv[h := index]);
            highWater := Max(highWater, index.value);
          }
        case UndefineCounter(h) => tpm := tpm.(nv := tpm.nv - {h});
        case CreateFile(path) => files := files[path := Partial];
        case ReplaceFile(path, f) => files := files[path := Key(f)];
        case RemoveFile(path) => files := files - {path};
      }
      return true, left - 1;
    }

    method OpenFile(path: Path, key: Option<PrivateKey>) returns (r: Result<KeyFile, OpError>)
      ensures r == ReadFile(Store(), path, key)
    {
      if path !in files {
        return Failure(CannotOpen);
      }
      if files[path].Partial? {
        return Failure(InvalidKeyFile);
      }
      var v := Validate(tpm, files[path].f, key);
      if v.Failure? {
        return Failure(InvalidKeyFile);
      }
      return Success(files[path].f);
    }

    /** Opens the primary file and the files related to it. */
    method OpenFiles(paths: seq<Path>, key: PrivateKey) returns (r: Result<seq<KeyFile>, OpError>)
      ensures r == ReadFiles(Store(), paths, key)
      ensures r.Success? ==> |r.value| == |paths| > 0
    {
      if |paths| == 0 {
        return Failure(NoFiles);
      }
      var primary := OpenFile(paths[0], Some(key));
      if primary.Failure? {
        return Failure(primary.error);
      }
      var policy := primary.value.pub.authPolicy;
      var fs := [primary.value];
      var i := 1;
      while i < |paths|
        invariant 1 <= i <= |paths| && |fs| == i
        invariant ReadFiles(Store(), paths, key) ==
                  match ReadRelated(Store(), paths[i..], policy)
                  case Failure(e) => Failure(e)
                  case Success(rest) => Success(fs + rest)
      {
        assert paths[i..][1..] == paths[i + 1..];
        var related := OpenFile(paths[i], None);
        if related.Failure? {
          return Failure(related.error);
        }
        if related.value.pub.authPolicy != policy {
          return Failure(NotRelated);
        }
        ghost var rest := ReadRelated(Store(), paths[i + 1..], policy);
        assert rest.Success? ==> fs + ([related.value] + rest.value) == fs + [related.value] + rest.value;
        fs := fs + [related.value];
        i := i + 1;
      }
      assert fs + [] == fs;
      return Success(fs);
    }

    /** Replaces the key files one by one. */
    method RewriteFiles(paths: seq<Path>, fs: seq<KeyFile>, dynamic: DynamicData, power: nat, ghost w: World,
                        ghost es: seq<Effect>)
        returns (ok: bool)
      requires |paths| == |fs| <= |es| && es[..|paths|] == Rewrites(paths, fs, dynamic) && Store() == w
      modifies this
      ensures ok == (power >= |paths|)
      ensures Store() == ApplyAll(w, es[..if ok then |paths| else power])
    {
      var left := power;
      for i := 0 to |paths|
        invariant left == power - i && Store() == ApplyAll(w, es[..i])
      {
        assert es[i] == es[..|paths|][i];
        ok, left := Do(ReplaceFile(paths[i], fs[i].(dynamic := dynamic)), left, w, es, i);
        if !ok {
          return;
        }
      }
      return true;
    }

    /** Updates the PCR policy of a set of related key files, then revokes the old one. */
    method UpdateKeyPcrProtectionPolicy(paths: seq<Path>, key: PrivateKey, profile: Profile, power: nat)
        returns (o: Outcome)
      modifies this
      ensures Store() == After(old(Store()), Update(paths, key, profile), power)
      ensures o == OutcomeOf(old(Store()), Update(paths, key, profile), power)
    {
      ghost var w := Store();
      ghost var plan := UpdatePlan(w, paths, key, profile);
      assert w.ledger + [] == w.ledger;
      var read := OpenFiles(paths, key);
      if read.Failure? {
        return Failed(read.error);
      }
      var fs := read.value;
      var primary := fs[0];
      var index := CounterOf(tpm, primary.static_).value;
      var dynamic := ComputeSealedKeyDynamicAuthPolicy(tpm, primary.pub.nameAlg, primary.static_.authKey.nameAlg, key,
                                                       index, profile);
      if dynamic.Failure? {
        return Failed(dynamic.error);
      }
      ledger := ledger + plan.signed;
      UpdatePlanStarts(w, paths, key, profile, fs, dynamic.value);
      o := RewriteAndRevoke(paths, fs, dynamic.value, index, power, Store(), plan);
    }

    /** Replaces the files, and then revokes the policies before. */
    method RewriteAndRevoke(paths: seq<Path>, fs: seq<KeyFile>, dynamic: DynamicData, index: Option<NvIndex>,
                            power: nat, ghost w: World, ghost plan: Plan)
        returns (o: Outcome)
      requires Store() == w && |fs| == |paths| > 0 && Planned(plan, paths, fs, dynamic, index)
      modifies this
      ensures Store() == Until(w, plan.effects, power)
      ensures o == if power < |plan.effects| then PowerLost else plan.end
    {
      var ok := RewriteFiles(paths, fs, dynamic, power, w, plan.effects);
      if !ok {
        return PowerLost;
      }
      if index.None? {
        return Done;
      }
      var session := IncrementSession(index.value.pub.nameAlg, KeyName(fs[0].static_.authKey));
      if !Authorizes(index.value.pub, session) {
        return Failed(CannotRevoke);
      }
      var revoked, _ := Increment(fs[0].static_.counterHandle, index.value.pub, session, power - |paths|, w,
                                  plan.effects, |paths|);
      return if revoked then Done else PowerLost;
    }

    /** Creates and writes one key file. */
    method WriteNewFile(request: KeyRequest, authKey: PublicKey, counter: Option<NvPublic>, dynamic: DynamicData,
                        power: nat, ghost w: World, ghost es: seq<Effect>, ghost k: nat, ghost stop: nat)
        returns (ok: bool, left: nat)
      requires CreatesAt(es, k, request, authKey, counter, dynamic)
      requires stop == k + power && Store() == ApplyAll(w, es[..k])
      modifies this
      ensures ok == (power >= 2)
      ensures ok ==> left == power - 2 && Store() == ApplyAll(w, es[..k + 2])
      ensures ok ==> files.Keys == old(files).Keys + {request.path}
      ensures !ok ==> Store() == ApplyAll(w, es[..stop])
    {
      ok, left := Do(CreateFile(request.path), power, w, es, k);
      if ok {
        ok, left := Do(ReplaceFile(request.path, NewKeyFile(authKey, counter, request.key, dynamic)), left, w, es,
                       k + 1);
      }
    }

    /** `n` of the `n0` requested files are there. */
    ghost predicate Progress(before: map<Path, File>, w: World, es: seq<Effect>, start: nat, keys: seq<KeyRequest>,
                             n: nat, n0: nat, at: nat)
      reads this
    {
      && n <= n0 <= |keys| && at == start + 2 * n <= |es| && n0 == FirstExisting(before, keys, 0)
      && Store() == ApplyAll(w, es[..at]) && files.Keys == before.Keys + PathSet(keys[..n])
    }

    /** Creates and writes the next key file. */
    method WriteNext(keys: seq<KeyRequest>, authKey: PublicKey, counter: Option<NvPublic>, dynamic: DynamicData,
                     power: nat, n: nat, ghost before: map<Path, File>, ghost w: World, ghost es: seq<Effect>,
                     ghost start: nat, ghost n0: nat, ghost at: nat, ghost stop: nat)
        returns (ok: bool, left: nat, n': nat, ghost at': nat)
      requires start + 2 * n0 <= |es|
      requires n0 <= |keys| && es[start..start + 2 * n0] == Creations(keys[..n0], authKey, counter, dynamic)
      requires Progress(before, w, es, start, keys, n, n0, at) && n < |keys| && keys[n].path !in files &&
               at + power == stop
      modifies this
      ensures n < n0 && ok == (power >= 2)
      ensures ok ==> left == power - 2 && n' == n + 1 && at' == at + 2
      ensures ok ==> Progress(before, w, es, start, keys, n', n0, at')
      ensures !ok ==> Store() == ApplyAll(w, es[..stop])
    {
      StillToCreate(before, keys, n, n0, files);
      CreationInSlice(es, start, keys, n0, n, at, authKey, counter, dynamic);
      ok, left := WriteNewFile(keys[n], authKey, counter, dynamic, power, w, es, at, stop);
      n', at' := n + 1, at + 2;
      NextPathSet(keys, n);
    }

    /** Creates and writes the key files, up to the first that exists already. */
    method WriteNewFiles(keys: seq<KeyRequest>, authKey: PublicKey, counter: Option<NvPublic>, dynamic: DynamicData,
                         power: nat, ghost w: World, ghost es: seq<Effect>, ghost start: nat, ghost n0: nat,
                         ghost stop: nat)
        returns (ok: bool, left: nat, n: nat)
      requires n0 == FirstExisting(files, keys, 0) && start + 2 * n0 <= |es|
      requires es[start..start + 2 * n0] == Creations(keys[..n0], authKey, counter, dynamic)
      requires stop == start + power && Store() == ApplyAll(w, es[..start])
      modifies this
      ensures ok == (power >= 2 * n0)
      ensures ok ==> n == n0 && left == power - 2 * n0 && Store() == ApplyAll(w, es[..start + 2 * n0])
      ensures !ok ==> Store() == ApplyAll(w, es[..stop])
    {
      ok, left, n := true, power, 0;
      ghost var before, at: nat := files, start;
      StartProgress(before, w, es, start, keys, n0);
      while n < |keys| && keys[n].path !in files
        invariant ok && at + left == stop && n <= n0 && at == start + 2 * n &&
                  Progress(before, w, es, start, keys, n, n0, at)
      {
        ok, left, n, at := WriteNext(keys, authKey, counter, dynamic, left, n, before, w, es, start, n0, at, stop);
        if !ok {
          return;
        }
      }
      StillToCreate(before, keys, n, n0, files);
      assert at == start + 2 * n0;
    }

    lemma {:induction false} StartProgress(before: map<Path, File>, w: World, es: seq<Effect>, start: nat,
                                           keys: seq<KeyRequest>, n0: nat)
      requires files == before && n0 == FirstExisting(before, keys, 0) && start <= |es| &&
               Store() == ApplyAll(w, es[..start])
      ensures Progress(before, w, es, start, keys, 0, n0, start)
    {
      assert PathSet(keys[..0]) == {};
    }

    /** Removes every requested file. */
    method RemoveFiles(keys: seq<KeyRequest>, power: nat, ghost w: World, ghost es: seq<Effect>, ghost start: nat)
        returns (ok: bool, left: nat)
      requires start + |keys| <= |es| && es[start..start + |keys|] == Removals(keys)
      requires Store() == ApplyAll(w, es[..start])
      modifies this
      ensures ok == (power >= |keys|)
      ensures ok ==> left == power - |keys| && Store() == ApplyAll(w, es[..start + |keys|])
      ensures !ok ==> Store() == ApplyAll(w, es[..start + power])
    {
      ok, left := true, power;
      for i := 0 to |keys|
        invariant ok && left == power - i && Store() == ApplyAll(w, es[..start + i])
      {
        assert es[start + i] == es[start..start + |keys|][i];
        ok, left := Do(RemoveFile(keys[i].path), left, w, es, start + i);
        if !ok {
          return;
        }
      }
    }

    /** Removes every requested file and the counter. */
    method RollBack(keys: seq<KeyRequest>, counter: Option<NvPublic>, power: nat, ghost w: World, ghost es: seq<Effect>,
                    ghost at: nat)
        returns (ok: bool)
      requires Removing(es, at, keys, counter) && Store() == ApplyAll(w, es[..at])
      modifies this
      ensures ok == (at + power >= |es|) && Store() == Until(w, es, at + power)
    {
      var left;
      ok, left := RemoveFiles(keys, power, w, es, at);
      if ok && counter.Some? {
        ok, left := Do(UndefineCounter(counter.value.handle), left, w, es, at + |keys|);
      }
      assert ok ==> es[..|es|] == es;
    }

    /** TPM2_NV_Increment: the session has to authorize it. */
    method Increment(handle: Handle, ghost pub: NvPublic, ghost session: seq<NvCommand>, left: nat, ghost w: World,
                     ghost es: seq<Effect>, ghost k: nat)
        returns (ok: bool, left': nat)
      requires Authorizes(pub, session)
      requires k < |es| && es[k] == IncrementCounter(handle) && Store() == ApplyAll(w, es[..k])
      modifies this
      ensures ok == (left > 0)
      ensures ok ==> left' == left - 1 && Store() == ApplyAll(w, es[..k + 1])
      ensures !ok ==> Store() == old(Store())
      ensures ok ==> Store() == Apply(old(Store()), IncrementCounter(handle))
    {
      ok, left' := Do(IncrementCounter(handle), left, w, es, k);
    }

    /** Increments the counter, if there is one. */
    method Finish(counter: Option<NvPublic>, keyName: Name, power: nat, ghost w: World, ghost es: seq<Effect>,
                  ghost at: nat)
        returns (ok: bool)
      requires Finishing(es, at, counter) && Store() == ApplyAll(w, es[..at])
      requires counter.Some? ==> counter.value == Written(NewCounterPublic(counter.value.handle, keyName))
      modifies this
      ensures ok == (at + power >= |es|) && Store() == Until(w, es, at + power)
    {
      ok := true;
      if counter.Some? {
        var left;
        NewCounterUsable(counter.value.handle, keyName);
        ok, left := Increment(counter.value.handle, counter.value, IncrementSession(counter.value.nameAlg, keyName),
                              power, w, es, at);
      }
      assert ok ==> es[..|es|] == es;
    }

    /** Removes everything again, or increments the counter. */
    method EndSealing(keys: seq<KeyRequest>, n: nat, counter: Option<NvPublic>, keyName: Name, power: nat,
                      ghost w: World, ghost es: seq<Effect>, ghost at: nat, ghost stop: nat)
        returns (o: Outcome)
      requires counter.Some? ==> counter.value == Written(NewCounterPublic(counter.value.handle, keyName))
      requires if n < |keys| then Removing(es, at, keys, counter) else Finishing(es, at, counter)
      requires stop == at + power && Store() == ApplyAll(w, es[..at])
      modifies this
      ensures Store() == Until(w, es, stop)
      ensures o == if stop < |es| then PowerLost else if n < |keys| then Failed(FileExists) else Done
    {
      if n < |keys| {
        var ok := RollBack(keys, counter, power, w, es, at);
        return if ok then Failed(FileExists) else PowerLost;
      } else {
        var ok := Finish(counter, keyName, power, w, es, at);
        return if ok then Done else PowerLost;
      }
    }

    /** Writes the key files; on success the counter is incremented, and otherwise everything is removed again. */
    method SealFiles(keys: seq<KeyRequest>, authKey: PublicKey, counter: Option<NvPublic>, dynamic: DynamicData,
                     power: nat, ghost w: World, ghost es: seq<Effect>, ghost start: nat, ghost n0: nat,
                     ghost stop: nat)
        returns (o: Outcome)
      requires n0 == FirstExisting(files, keys, 0) && SealingEnds(es, start, keys, n0, authKey, counter, dynamic)
      requires counter.Some? ==> counter.value == Written(NewCounterPublic(counter.value.handle, KeyName(authKey)))
      requires stop == start + power && Store() == ApplyAll(w, es[..start])
      modifies this
      ensures Store() == Until(w, es, stop)
      ensures o == if stop < |es| then PowerLost else if n0 < |keys| then Failed(FileExists) else Done
    {
      ghost var at := start + 2 * n0;
      var ok, left, n := WriteNewFiles(keys, authKey, counter, dynamic, power, w, es, start, n0, stop);
      if !ok {
        return PowerLost;
      }
      o := EndSealing(keys, n, counter, KeyName(authKey), left, w, es, at, stop);
    }

    /** Creates the PCR policy counter, which gives it its first value. */
    method CreateCounter(pub: NvPublic, keyName: Name, power: nat, ghost w: World, ghost es: seq<Effect>)
        returns (ok: bool, left: nat, created: Option<NvIndex>)
      requires pub == NewCounterPublic(pub.handle, keyName)
      requires |es| >= 2 && es[0] == DefineCounter(pub) && es[1] == IncrementCounter(pub.handle) && Store() == w
      requires !pub.written
      modifies this
      ensures ok == (power >= 2)
      ensures ok ==> left == power - 2 && Store() == ApplyAll(w, es[..2])
      ensures ok ==> tpm.pcrs == w.tpm.pcrs && files == w.files
      ensures ok ==> created == Some(NvIndex(Written(pub), w.highWater + 1))
      ensures !ok ==> Store() == Until(w, es, power)
    {
      assert es[..0] == [];
      created := None;
      ok, left := Do(DefineCounter(pub), power, w, es, 0);
      if ok {
        NewCounterUsable(pub.handle, keyName);
        ok, left := Increment(pub.handle, pub, InitSession(pub.nameAlg, keyName), left, w, es, 1);
      }
      if ok {
        created := Some(tpm.nv[pub.handle]);
      }
    }

    /** Gives up after the PCR policy could not be computed. */
    method AbandonSealing(handle: Handle, power: nat, ghost w: World, ghost es: seq<Effect>, ghost start: nat)
        returns (ok: bool)
      requires Abandoning(es, start, handle) && Store() == ApplyAll(w, es[..start])
      modifies this
      ensures ok == (start + power >= |es|) && Store() == Until(w, es, start + power)
    {
      ok := true;
      if handle != HANDLE_NULL {
        var left;
        ok, left := Do(UndefineCounter(handle), power, w, es, start);
      }
      assert ok ==> es[..|es|] == es;
    }

    /** Computes and signs the PCR policy, and writes the key files. */
    method SealWithPolicy(keys: seq<KeyRequest>, key: PrivateKey, handle: Handle, counter: Option<NvIndex>,
                          profile: Profile, power: nat, ghost w: World, ghost plan: Plan, ghost start: nat,
                          ghost next: Result<DynamicParams, OpError>, ghost n0: nat, ghost stop: nat)
        returns (o: Outcome)
      requires n0 == FirstExisting(files, keys, 0) && next == NextPolicy(tpm, SHA256, SHA256, key, counter, profile)
      requires PlannedSealing(plan, start, keys, n0, EcdsaPublic(key), handle, PublicOf(counter), next)
      requires counter.Some? ==>
                 counter.value.pub == Written(NewCounterPublic(counter.value.pub.handle, KeyName(EcdsaPublic(key))))
      requires stop == start + power && Store() == ApplyAll(w, plan.effects[..start])
      modifies this
      ensures Store() == Until(w, plan.effects, stop)
      ensures o == if stop < |plan.effects| then PowerLost else plan.end
    {
      var dynamic := ComputeSealedKeyDynamicAuthPolicy(tpm, SHA256, SHA256, key, counter, profile);
      if dynamic.Failure? {
        var ok := AbandonSealing(handle, power, w, plan.effects, start);
        return if ok then Failed(dynamic.error) else PowerLost;
      }
      o := SealFiles(keys, EcdsaPublic(key), PublicOf(counter), dynamic.value, power, w, plan.effects, start, n0, stop);
    }

    /** Creates the counter if a handle is given, and seals. */
    method CreateAndSeal(keys: seq<KeyRequest>, key: PrivateKey, handle: Handle, profile: Profile, power: nat,
                         ghost w: World, ghost plan: Plan, ghost start: nat, ghost next: Result<DynamicParams, OpError>,
                         ghost n0: nat)
        returns (o: Outcome)
      requires Store() == w && handle !in tpm.nv && start == if handle == HANDLE_NULL then 0 else 2
      requires StartsWithCounter(plan.effects, handle, key)
      requires n0 == FirstExisting(files, keys, 0)
      requires next == NextPolicy(tpm, SHA256, SHA256, key, NewCounter(w.highWater, key, handle), profile)
      requires PlannedSealing(plan, start, keys, n0, EcdsaPublic(key), handle,
                              PublicOf(NewCounter(w.highWater, key, handle)), next)
      modifies this
      ensures Store() == Until(w, plan.effects, power)
      ensures o == if power < |plan.effects| then PowerLost else plan.end
    {
      ghost var counter := NewCounter(w.highWater, key, handle);
      if handle == HANDLE_NULL {
        o := SealWithoutCounter(keys, key, profile, power, w, plan, next, n0);
      } else {
        var pub := NewCounterPublic(handle, KeyName(EcdsaPublic(key)));
        o := SealWithCounter(keys, key, pub, profile, power, w, plan, start, next, n0, counter);
      }
    }

    method SealWithoutCounter(keys: seq<KeyRequest>, key: PrivateKey, profile: Profile, power: nat, ghost w: World,
                              ghost plan: Plan, ghost next: Result<DynamicParams, OpError>, ghost n0: nat)
        returns (o: Outcome)
      requires Store() == w && n0 == FirstExisting(files, keys, 0)
      requires next == NextPolicy(tpm, SHA256, SHA256, key, None, profile)
      requires PlannedSealing(plan, 0, keys, n0, EcdsaPublic(key), HANDLE_NULL, None, next)
      modifies this
      ensures Store() == Until(w, plan.effects, power)
      ensures o == if power < |plan.effects| then PowerLost else plan.end
    {
      assert plan.effects[..0] == [];
      o := SealWithPolicy(keys, key, HANDLE_NULL, None, profile, power, w, plan, 0, next, n0, power);
    }

    /** Creates the counter, and seals. */
    method SealWithCounter(keys: seq<KeyRequest>, key: PrivateKey, pub: NvPublic, profile: Profile, power: nat,
                           ghost w: World, ghost plan: Plan, ghost start: nat,
                           ghost next: Result<DynamicParams, OpError>, ghost n0: nat, ghost counter: Option<NvIndex>)
        returns (o: Outcome)
      requires Store() == w && !pub.written && counter == Some(NvIndex(Written(pub), w.highWater + 1))
      requires pub == NewCounterPublic(pub.handle, KeyName(EcdsaPublic(key)))
      requires start == 2 <= |plan.effects|
      requires plan.effects[0] == DefineCounter(pub) && plan.effects[1] == IncrementCounter(pub.handle)
      requires n0 == FirstExisting(files, keys, 0) && next == NextPolicy(tpm, SHA256, SHA256, key, counter, profile)
      requires PlannedSealing(plan, start, keys, n0, EcdsaPublic(key), pub.handle, PublicOf(counter), next)
      modifies this
      ensures Store() == Until(w, plan.effects, power)
      ensures o == if power < |plan.effects| then PowerLost else plan.end
    {
      var ok, left, created := CreateCounter(pub, KeyName(EcdsaPublic(key)), power, w, plan.effects);
      if !ok {
        return PowerLost;
      }
      assert created == counter && n0 == FirstExisting(files, keys, 0);
      assert next == NextPolicy(tpm, SHA256, SHA256, key, created, profile) by {
        NextPolicyReadsPcrs(w.tpm, tpm, key, counter, profile);
      }
      o := SealWithPolicy(keys, key, pub.handle, created, profile, left, w, plan, start, next, n0, power);
    }

    /** Seals keys to new files, with a new counter if a handle is given. */
    method SealKeyToTpmMultiple(keys: seq<KeyRequest>, key: PrivateKey, handle: Handle, profile: Profile, power: nat)
        returns (o: Outcome)
      modifies this
      ensures Store() == After(old(Store()), Seal(keys, key, handle, profile), power)
      ensures o == OutcomeOf(old(Store()), Seal(keys, key, handle, profile), power)
    {
      if |keys| == 0 || (handle != HANDLE_NULL && !IsNvHandle(handle)) || handle in tpm.nv {
        RefusedSeal(Store(), keys, key, handle, profile, power);
        return Failed(if |keys| == 0 then NoFiles
                      else if handle != HANDLE_NULL && !IsNvHandle(handle) then BadHandle
                      else CounterExists);
      }
      o := SealNewFiles(keys, key, handle, profile, power);
    }

    /** Sealing, once the request has been found to be acceptable. */
    method SealNewFiles(keys: seq<KeyRequest>, key: PrivateKey, handle: Handle, profile: Profile, power: nat)
        returns (o: Outcome)
      requires keys != [] && (handle == HANDLE_NULL || IsNvHandle(handle)) && handle !in tpm.nv
      modifies this
      ensures Store() == After(old(Store()), Seal(keys, key, handle, profile), power)
      ensures o == OutcomeOf(old(Store()), Seal(keys, key, handle, profile), power)
    {
      ghost var before := Store();
      ghost var plan := SealPlan(before, keys, key, handle, profile);
      ghost var next := NextPolicy(tpm, SHA256, SHA256, key, NewCounter(highWater, key, handle), profile);
      AfterSeal(before, keys, key, handle, profile, power, plan);
      SealPlanParts(before, keys, key, handle, profile, next);
      ledger := ledger + plan.signed;
      o := CreateAndSeal(keys, key, handle, profile, power, Store(), plan, if handle == HANDLE_NULL then 0 else 2, next,
                         FirstExisting(files, keys, 0));
    }

    /** Changes the PIN of a key file. */
    method ChangePin(path: Path, oldPin: string, newPin: string, power: nat) returns (o: Outcome)
      modifies this
      ensures Store() == After(old(Store()), Op.ChangePin(path, oldPin, newPin), power)
      ensures o == OutcomeOf(old(Store()), Op.ChangePin(path, oldPin, newPin), power)
    {
      ghost var w := Store();
      assert w.ledger + [] == w.ledger;
      var f := OpenFile(path, None);
      if f.Failure? {
        return Failed(f.error);
      }
      if f.value.priv.pin != oldPin {
        return Failed(WrongPin);
      }
      ghost var plan := PlanOf(w, Op.ChangePin(path, oldPin, newPin));
      var ok, _ := Do(ReplaceFile(path, WithPin(f.value, newPin)), power, w, plan.effects, 0);
      assert plan.effects[..1] == plan.effects;
      return if ok then Done else PowerLost;
    }
  }
}
