/** Which PCR policies can be used, after which runs. */
module Revocation {
  import opened Digests
  import opened Tpm
  import opened PolicyOrTree
  import opened PolicySessions
  import opened KeyFiles
  import opened PcrProfile
  import opened PcrDigests
  import opened Sealing
  import opened Protocol

  // ------------------------------------------------- interruption revokes nothing

  /** A key file whose policy approves the current PCRs unseals with its PIN. */
  lemma {:induction false} FileUsable(w: World, f: KeyFile) returns (a: Authorization)
    requires FileOk(w, f) && UpToDate(w, f)
    ensures a in w.ledger && Backed(w.tpm, f, a)
    ensures PcrDigest(SHA256, Selected(w.tpm.pcrs, a.params.pcrs)) in a.params.pcrDigests ==>
              Unsealing(w.tpm, f, f.priv.pin) == Success(f.priv.payload)
  {
    a :| a in w.ledger && Backed(w.tpm, f, a);
    if PcrDigest(SHA256, Selected(w.tpm.pcrs, a.params.pcrs)) in a.params.pcrDigests {
      BackedSession(w.tpm, f, a);
      SessionUnseals(w.tpm, f);
    }
  }

  /** A session for a key file reaches its policy digest if its policy approves the PCRs and is not revoked. */
  lemma {:induction false} BackedSession(tpm: TpmState, f: KeyFile, a: Authorization)
    requires Backed(tpm, f, a) && PcrDigest(SHA256, Selected(tpm.pcrs, a.params.pcrs)) in a.params.pcrDigests
    requires f.static_.counterHandle != HANDLE_NULL ==>
               f.static_.counterHandle in tpm.nv && tpm.nv[f.static_.counterHandle].value <= f.dynamic.policyCount
    ensures Execute(tpm, SHA256, f.static_, f.dynamic) == Success(f.pub.authPolicy)
  {
    FreshMetadataIsExact(tpm, SHA256, f.static_, a.params);
  }

  lemma {:induction false} SessionUnseals(tpm: TpmState, f: KeyFile)
    requires Validation(tpm, f, None).Success? &&
             Execute(tpm, f.pub.nameAlg, f.static_, f.dynamic) == Success(f.pub.authPolicy)
    ensures Unsealing(tpm, f, f.priv.pin) == Success(f.priv.payload)
  {
  }

  /** Whatever was interrupted, every key file is still usable in every PCR state that its policy approves,
      provided that updates name the whole related set. */
  lemma {:induction false} NoInterruptionRevokes(w: World, attempts: seq<Attempt>, path: Path)
      returns (a: Authorization)
    requires Consistent(w) && AllUpToDate(w) && WholeSets(w, attempts)
    requires path in Run(w, attempts).files && Run(w, attempts).files[path].Key?
    ensures
      var w' := Run(w, attempts);
      var f := w'.files[path].f;
      && a in w'.ledger && Backed(w'.tpm, f, a)
      && (PcrDigest(SHA256, Selected(w'.tpm.pcrs, a.params.pcrs)) in a.params.pcrDigests ==>
            Unsealing(w'.tpm, f, f.priv.pin) == Success(f.priv.payload))
  {
    CrashSafety(w, attempts);
    a := FileUsable(Run(w, attempts), Run(w, attempts).files[path].f);
  }

  // --------------------------------------------------------- counters only rise

  /** Any counter with this public area, now or later, has at least this value. */
  ghost predicate AtLeast(w: World, pub: NvPublic, m: nat) {
    m <= w.highWater && forall h | h in w.tpm.nv && w.tpm.nv[h].pub == pub :: m <= w.tpm.nv[h].value
  }

  ghost predicate DefinesUnwritten(es: seq<Effect>) {
    forall i | 0 <= i < |es| && es[i].DefineCounter? :: !es[i].pub.written
  }

  lemma {:induction false} EffectsKeepAtLeast(w: World, es: seq<Effect>, pub: NvPublic, m: nat)
    requires AtLeast(w, pub, m) && pub.written && DefinesUnwritten(es)
    ensures AtLeast(ApplyAll(w, es), pub, m)
    decreases |es|
  {
    if es != [] {
      assert AtLeast(Apply(w, es[0]), pub, m);
      EffectsKeepAtLeast(Apply(w, es[0]), es[1..], pub, m);
    }
  }

  lemma {:induction false} DefinesConcat(a: seq<Effect>, b: seq<Effect>)
    requires DefinesUnwritten(a) && DefinesUnwritten(b)
    ensures DefinesUnwritten(a + b)
  {
  }

  lemma {:induction false} PlansDefineUnwritten(w: World, op: Op)
    requires Consistent(w)
    ensures DefinesUnwritten(PlanOf(w, op).effects)
  {
    match op
    case Seal(keys, key, handle, profile) => SealDefinesUnwritten(w, keys, key, handle, profile);
    case Update(paths, key, profile) =>
      UpdatePlanIs(w, paths, key, profile);
    case ChangePin(_, _, _) =>
    case Environment(_) =>
  }

  lemma {:induction false} CreationsDefineNothing(keys: seq<KeyRequest>, authKey: PublicKey, counter: Option<NvPublic>,
                                                  dynamic: DynamicData)
    ensures DefinesUnwritten(Creations(keys, authKey, counter, dynamic))
  {
    CreationsAre(keys, authKey, counter, dynamic);
  }

  lemma {:induction false} SealTailDefinesNothing(keys: seq<KeyRequest>, n: nat, key: PrivateKey, counter: NvIndex,
                                                  p: DynamicParams)
    requires n <= |keys|
    ensures DefinesUnwritten(SealTail(keys, n, key, counter, p))
  {
    var written := Creations(keys[..n], EcdsaPublic(key), Some(counter.pub), DynamicDataOf(SHA256, p));
    CreationsDefineNothing(keys[..n], EcdsaPublic(key), Some(counter.pub), DynamicDataOf(SHA256, p));
    DefinesConcat(written, Removals(keys));
    DefinesConcat(written + Removals(keys), [UndefineCounter(counter.pub.handle)]);
    DefinesConcat(written, [IncrementCounter(counter.pub.handle)]);
  }

  lemma {:induction false} SealDefinesUnwritten(w: World, keys: seq<KeyRequest>, key: PrivateKey, handle: Handle,
                                                profile: Profile)
    ensures DefinesUnwritten(SealPlan(w, keys, key, handle, profile).effects)
  {
    if handle == HANDLE_NULL {
      SealWithoutCounterDefines(w, keys, key, profile);
    } else {
      SealWithCounterDefines(w, keys, key, handle, profile);
    }
  }

  lemma {:induction false} SealWithoutCounterDefines(w: World, keys: seq<KeyRequest>, key: PrivateKey, profile: Profile)
    ensures DefinesUnwritten(SealPlan(w, keys, key, HANDLE_NULL, profile).effects)
  {
    SealPlanWithoutCounter(w, keys, key, profile);
    var plan := SealPlan(w, keys, key, HANDLE_NULL, profile);
    if plan.signed != [] {
      var n := FirstExisting(w.files, keys, 0);
      var dynamic := DynamicDataOf(SHA256, plan.signed[0].params);
      CreationsDefineNothing(keys[..n], EcdsaPublic(key), None, dynamic);
      DefinesConcat(Creations(keys[..n], EcdsaPublic(key), None, dynamic), Removals(keys));
    }
  }

  lemma {:induction false} SealWithCounterDefines(w: World, keys: seq<KeyRequest>, key: PrivateKey, handle: Handle,
                                                  profile: Profile)
    requires handle != HANDLE_NULL
    ensures DefinesUnwritten(SealPlan(w, keys, key, handle, profile).effects)
  {
    var plan := SealPlan(w, keys, key, handle, profile);
    if plan.effects != [] {
      SealPlanWithCounter(w, keys, key, handle, profile);
      var pub := NewCounterPublic(handle, KeyName(EcdsaPublic(key)));
      if plan.signed != [] {
        var counter := NvIndex(Written(pub), w.highWater + 1);
        var n := FirstExisting(w.files, keys, 0);
        var p := plan.signed[0].params;
        SealTailDefinesNothing(keys, n, key, counter, p);
        DefinesConcat(CreateCounter(pub), SealTail(keys, n, key, counter, p));
      }
    }
  }

  lemma {:induction false} OpKeepsAtLeast(w: World, op: Op, power: nat, pub: NvPublic, m: nat)
    requires Consistent(w) && AtLeast(w, pub, m) && pub.written
    ensures AtLeast(After(w, op, power), pub, m)
  {
    PlansDefineUnwritten(w, op);
    var es := PlanOf(w, op).effects;
    EffectsKeepAtLeast(Signing(w, op), if power < |es| then es[..power] else es, pub, m);
  }

  lemma {:induction false} RunKeepsAtLeast(w: World, attempts: seq<Attempt>, pub: NvPublic, m: nat)
    requires Consistent(w) && AtLeast(w, pub, m) && pub.written
    ensures AtLeast(Run(w, attempts), pub, m)
    decreases |attempts|
  {
    if attempts != [] {
      var w' := After(w, attempts[0].op, attempts[0].power);
      OpKeeps(w, attempts[0].op, attempts[0].power);
      OpKeepsAtLeast(w, attempts[0].op, attempts[0].power, pub, m);
      RunKeepsAtLeast(w', attempts[1..], pub, m);
    }
  }

  // ------------------------------------------------------------- revocation

  /** A completed update of files on the counter `h`. */
  ghost predicate CompletesUpdate(w: World, op: Op, power: nat, h: Handle) {
    && op.Update? && OutcomeOf(w, op, power) == Done && h != HANDLE_NULL && h in w.tpm.nv
    && ReadFiles(w, op.paths, op.authKey).Success?
    && ReadFiles(w, op.paths, op.authKey).value[0].static_.counterHandle == h
  }

  /** The world after the changes of an update. */
  ghost function Rewritten(w: World, paths: seq<Path>, fs: seq<KeyFile>, p: DynamicParams): World
    requires |paths| == |fs| > 0
  {
    ApplyAll(w.(ledger := w.ledger + [Authorization(SHA256, p)]), RewritePlan(paths, fs, p).effects)
  }

  /** Rewriting the files of a counter leaves the counter one higher and changes no other counter. */
  lemma {:induction false} RewrittenTpm(w: World, paths: seq<Path>, key: PrivateKey, profile: Profile, fs: seq<KeyFile>,
                                        p: DynamicParams)
    requires Consistent(w) && Updating(w, paths, key, profile, fs, p)
    ensures Rewritten(w, paths, fs, p).ledger == w.ledger + [Authorization(SHA256, p)]
    ensures
      var h := fs[0].static_.counterHandle;
      var w' := Rewritten(w, paths, fs, p);
      if h == HANDLE_NULL then p.counter == None && w'.tpm == w.tpm && w'.highWater == w.highWater
      else
        && h in w.tpm.nv && w.tpm.nv[h].pub.written
        && p.counter == Some(w.tpm.nv[h].pub) && p.count == w.tpm.nv[h].value + 1
        && w'.tpm.nv == w.tpm.nv[h := w.tpm.nv[h].(value := p.count)] && w'.highWater == Max(w.highWater, p.count)
  {
    var h := fs[0].static_.counterHandle;
    var ws := w.(ledger := w.ledger + [Authorization(SHA256, p)]);
    var writes := Rewrites(paths, fs, DynamicDataOf(SHA256, p));
    FilesOnlyKeepsTpm(ws, writes);
    if h == HANDLE_NULL {
      assert writes + [] == writes;
    } else {
      UpdatedCounter(w, paths, key, profile, fs, p);
      LastEffect(ws, writes, IncrementCounter(h));
    }
  }

  lemma {:induction false} UpdatedCounter(w: World, paths: seq<Path>, key: PrivateKey, profile: Profile,
                                          fs: seq<KeyFile>, p: DynamicParams)
    requires Consistent(w) && Updating(w, paths, key, profile, fs, p) && fs[0].static_.counterHandle != HANDLE_NULL
    ensures
      var h := fs[0].static_.counterHandle;
      h in w.tpm.nv && w.tpm.nv[h].pub.written && p.counter == Some(w.tpm.nv[h].pub) && p.count == w.tpm.nv[h].value + 1
  {
    UpdateReads(w, paths, key, 0);
    CounterOfFile(w, fs[0]);
  }

  lemma {:induction false} LastEffect(w: World, es: seq<Effect>, e: Effect)
    ensures ApplyAll(w, es + [e]) == Apply(ApplyAll(w, es), e)
  {
    ApplyConcat(w, es, [e]);
    assert [e][1..] == [];
  }

  /** A completed update is a rewriting. */
  lemma {:induction false} CompletedIsRewritten(w: World, op: Op, power: nat)
      returns (fs: seq<KeyFile>, p: DynamicParams)
    requires Consistent(w) && op.Update? && power >= |PlanOf(w, op).effects| && PlanOf(w, op).signed != []
    ensures Updating(w, op.paths, op.authKey, op.profile, fs, p)
    ensures PlanOf(w, op).signed == [Authorization(SHA256, p)] && After(w, op, power) == Rewritten(w, op.paths, fs, p)
  {
    UpdatePlanIs(w, op.paths, op.authKey, op.profile);
    fs, p :| Updating(w, op.paths, op.authKey, op.profile, fs, p) && PlanOf(w, op) == RewritePlan(op.paths, fs, p);
  }

  lemma {:induction false} DoneIsSigned(w: World, op: Op, power: nat)
    requires op.Update? && OutcomeOf(w, op, power) == Done
    ensures power >= |PlanOf(w, op).effects| && PlanOf(w, op).signed != []
  {
  }

  lemma {:induction false} RewrittenRaises(w: World, paths: seq<Path>, key: PrivateKey, profile: Profile,
                                           fs: seq<KeyFile>, p: DynamicParams, h: Handle)
    requires Consistent(w) && Updating(w, paths, key, profile, fs, p)
    requires h != HANDLE_NULL && fs[0].static_.counterHandle == h
    ensures h in w.tpm.nv && w.tpm.nv[h].pub.written
    ensures Rewritten(w, paths, fs, p).tpm.nv == w.tpm.nv[h := w.tpm.nv[h].(value := w.tpm.nv[h].value + 1)]
    ensures Rewritten(w, paths, fs, p).highWater == Max(w.highWater, w.tpm.nv[h].value + 1)
  {
    RewrittenTpm(w, paths, key, profile, fs, p);
    assert w.tpm.nv[h].(value := p.count) == w.tpm.nv[h].(value := w.tpm.nv[h].value + 1);
  }

  /** A completed update leaves the counter one higher and changes no other counter. */
  lemma {:induction false} UpdateIncrements(w: World, op: Op, power: nat, h: Handle)
    requires Consistent(w) && CompletesUpdate(w, op, power, h)
    ensures w.tpm.nv[h].pub.written
    ensures After(w, op, power).tpm.nv == w.tpm.nv[h := w.tpm.nv[h].(value := w.tpm.nv[h].value + 1)]
    ensures After(w, op, power).highWater == Max(w.highWater, w.tpm.nv[h].value + 1)
  {
    DoneIsSigned(w, op, power);
    var fs, p := CompletedIsRewritten(w, op, power);
    RewrittenRaises(w, op.paths, op.authKey, op.profile, fs, p, h);
  }

  /** After a completed update that read the count c, metadata with a count of at most c fails in every later
      state, whatever happens in between. */
  lemma {:induction false} OldMetadataFails(w: World, op: Op, power: nat, h: Handle, attempts: seq<Attempt>,
                                            alg: HashAlg, static_: StaticData, dynamic: DynamicData)
    requires Consistent(w) && CompletesUpdate(w, op, power, h)
    requires
      var later := Run(After(w, op, power), attempts);
      && CounterOf(later.tpm, static_).Success?
      && PublicOf(CounterOf(later.tpm, static_).value) == Some(w.tpm.nv[h].pub)
    requires dynamic.policyCount <= w.tpm.nv[h].value
    ensures Execute(Run(After(w, op, power), attempts).tpm, alg, static_, dynamic).Failure?
  {
    RaisedForever(w, op, power, h, attempts);
  }

  lemma {:induction false} RaisedForever(w: World, op: Op, power: nat, h: Handle, attempts: seq<Attempt>)
    requires Consistent(w) && CompletesUpdate(w, op, power, h)
    ensures AtLeast(Run(After(w, op, power), attempts), w.tpm.nv[h].pub, w.tpm.nv[h].value + 1)
  {
    UpdateIncrements(w, op, power, h);
    OpKeeps(w, op, power);
    var w' := After(w, op, power);
    assert AtLeast(w', w.tpm.nv[h].pub, w.tpm.nv[h].value + 1) by {
      forall g | g in w'.tpm.nv && w'.tpm.nv[g].pub == w.tpm.nv[h].pub
        ensures w.tpm.nv[h].value + 1 <= w'.tpm.nv[g].value
      {
        assert w'.tpm.nv[g].pub.handle == g && w.tpm.nv[h].pub.handle == h;
      }
    }
    RunKeepsAtLeast(w', attempts, w.tpm.nv[h].pub, w.tpm.nv[h].value + 1);
  }

  /** After a completed update that read the count c, whatever metadata opens a session of the key in any later
      state was authorized with a count above c, that is, by this update or after it read the counter. */
  lemma {:induction false} OldPoliciesRevoked(w: World, op: Op, power: nat, h: Handle, attempts: seq<Attempt>,
                                              alg: HashAlg, static_: StaticData, dynamic: DynamicData,
                                              authKey: PublicKey)
      returns (a: Authorization)
    requires Consistent(w) && CompletesUpdate(w, op, power, h)
    requires
      var later := Run(After(w, op, power), attempts);
      && Issued(dynamic.signature, later.ledger)
      && Execute(later.tpm, alg, static_, dynamic) ==
         Success(StaticPolicyDigest(alg, authKey, CounterName(Some(w.tpm.nv[h].pub))))
    ensures
      var later := Run(After(w, op, power), attempts);
      && a in later.ledger && InForce(later.tpm, a, authKey, Some(w.tpm.nv[h].pub))
      && a.params.count > w.tpm.nv[h].value
  {
    var later := Run(After(w, op, power), attempts);
    a := SessionIsSound(later.tpm, alg, static_, dynamic, authKey, Some(w.tpm.nv[h].pub), later.ledger);
    RaisedForever(w, op, power, h, attempts);
  }

  // -------------------------------------------------- only the newest generation

  ghost predicate For(a: Authorization, pub: NvPublic) {
    a.params.counter == Some(pub)
  }

  /** The largest count that an authorization for this counter can have when no operation is under way. */
  ghost function Ceiling(w: World, pub: NvPublic): nat {
    if pub.handle in w.tpm.nv && w.tpm.nv[pub.handle].pub == pub then w.tpm.nv[pub.handle].value else w.highWater + 1
  }

  /** For every counter, later authorizations have larger counts, up to the value of the counter. */
  ghost predicate Generations(w: World) {
    && (forall i, pub | 0 <= i < |w.ledger| && For(w.ledger[i], pub) :: w.ledger[i].params.count <= Ceiling(w, pub))
    && (forall i, j, pub | 0 <= i < j < |w.ledger| && For(w.ledger[i], pub) && For(w.ledger[j], pub) ::
          w.ledger[i].params.count < w.ledger[j].params.count)
  }

  /** The step from one generation to the next: one authorization is added, above what was allowed and within
      what is allowed afterwards. */
  lemma {:induction false} NextGeneration(w: World, w': World, a: Authorization)
    requires Generations(w) && w'.ledger == w.ledger + [a]
    requires forall pub | !For(a, pub) :: Ceiling(w, pub) <= Ceiling(w', pub)
    requires forall pub | For(a, pub) :: Ceiling(w, pub) < a.params.count <= Ceiling(w', pub)
    ensures Generations(w')
  {
    forall i, pub | 0 <= i < |w'.ledger| && For(w'.ledger[i], pub)
      ensures w'.ledger[i].params.count <= Ceiling(w', pub)
    {
      if i < |w.ledger| {
        assert w'.ledger[i] == w.ledger[i];
        assert w.ledger[i].params.count <= Ceiling(w, pub);
      }
    }
    forall i, j, pub | 0 <= i < j < |w'.ledger| && For(w'.ledger[i], pub) && For(w'.ledger[j], pub)
      ensures w'.ledger[i].params.count < w'.ledger[j].params.count
    {
      assert w'.ledger[i] == w.ledger[i];
      if j < |w.ledger| {
        assert w'.ledger[j] == w.ledger[j];
      } else {
        assert w.ledger[i].params.count <= Ceiling(w, pub);
      }
    }
  }

  lemma {:induction false} SameGenerations(w: World, w': World)
    requires Generations(w) && w'.ledger == w.ledger
    requires forall pub :: Ceiling(w, pub) <= Ceiling(w', pub)
    ensures Generations(w')
  {
    forall i, pub | 0 <= i < |w'.ledger| && For(w'.ledger[i], pub)
      ensures w'.ledger[i].params.count <= Ceiling(w', pub)
    {
      assert w.ledger[i].params.count <= Ceiling(w, pub);
    }
  }

  lemma {:induction false} RewrittenGenerations(w: World, paths: seq<Path>, key: PrivateKey, profile: Profile,
                                                fs: seq<KeyFile>, p: DynamicParams)
    requires Consistent(w) && Generations(w) && Updating(w, paths, key, profile, fs, p)
    ensures Generations(Rewritten(w, paths, fs, p))
  {
    RewrittenTpm(w, paths, key, profile, fs, p);
    RaisedGenerations(w, Rewritten(w, paths, fs, p), Authorization(SHA256, p), fs[0].static_.counterHandle);
  }

  /** Authorizing a policy and incrementing its counter, if it has one. */
  lemma {:induction false} RaisedGenerations(w: World, w': World, a: Authorization, h: Handle)
    requires Generations(w) && CountersOk(w) && w'.ledger == w.ledger + [a]
    requires if h == HANDLE_NULL then a.params.counter == None && w'.tpm == w.tpm && w'.highWater == w.highWater
             else
               && h in w.tpm.nv && a.params.counter == Some(w.tpm.nv[h].pub) && a.params.count == w.tpm.nv[h].value + 1
               && w'.tpm.nv == w.tpm.nv[h := w.tpm.nv[h].(value := a.params.count)]
               && w'.highWater == Max(w.highWater, a.params.count)
    ensures Generations(w')
  {
    NextGeneration(w, w', a);
  }

  lemma {:induction false} UpdateGenerations(w: World, op: Op, power: nat)
    requires Consistent(w) && Generations(w) && op.Update? && power >= |PlanOf(w, op).effects|
    ensures Generations(After(w, op, power))
  {
    if PlanOf(w, op).signed == [] {
      UpdatePlanIs(w, op.paths, op.authKey, op.profile);
      assert w.ledger + [] == w.ledger;
    } else {
      var fs, p := CompletedIsRewritten(w, op, power);
      RewrittenGenerations(w, op.paths, op.authKey, op.profile, fs, p);
    }
  }

  /** Changes do not touch the ledger. */
  lemma {:induction false} LedgerAfter(w: World, es: seq<Effect>)
    ensures ApplyAll(w, es).ledger == w.ledger
    decreases |es|
  {
    if es != [] {
      LedgerAfter(Apply(w, es[0]), es[1..]);
    }
  }

  /** The TPM after sealing with a counter: the counter is one above its first value, or gone. */
  lemma {:induction false} SealTailTpm(w: World, keys: seq<KeyRequest>, n: nat, key: PrivateKey, counter: NvIndex,
                                       p: DynamicParams)
    requires n <= |keys| && counter.pub.written
    requires counter.pub.handle in w.tpm.nv && w.tpm.nv[counter.pub.handle] == counter
    ensures
      var w' := ApplyAll(w, SealTail(keys, n, key, counter, p));
      var h := counter.pub.handle;
      if n < |keys| then w'.tpm.nv == w.tpm.nv - {h} && w'.highWater == w.highWater
      else w'.tpm.nv == w.tpm.nv[h := counter.(value := counter.value + 1)] &&
           w'.highWater == Max(w.highWater, counter.value + 1)
  {
    var h := counter.pub.handle;
    var written := Creations(keys[..n], EcdsaPublic(key), Some(counter.pub), DynamicDataOf(SHA256, p));
    CreationsAre(keys[..n], EcdsaPublic(key), Some(counter.pub), DynamicDataOf(SHA256, p));
    FilesOnlyKeepsTpm(w, written);
    if n < |keys| {
      var undo := written + Removals(keys);
      FilesOnlyKeepsTpm(w, undo);
      LastEffect(w, undo, UndefineCounter(h));
    } else {
      LastEffect(w, written, IncrementCounter(h));
    }
  }

  lemma {:induction false} FilesOnlyGenerations(w: World, a: Authorization, es: seq<Effect>)
    requires Generations(w) && a.params.counter == None && FilesOnly(es)
    ensures Generations(ApplyAll(w.(ledger := w.ledger + [a]), es))
  {
    var ws := w.(ledger := w.ledger + [a]);
    FilesOnlyKeepsTpm(ws, es);
    NextGeneration(w, ApplyAll(ws, es), a);
  }

  lemma {:induction false} SealWithoutCounterGenerations(w: World, op: Op, power: nat)
    requires Generations(w) && op.Seal? && op.handle == HANDLE_NULL
    ensures Generations(After(w, op, power))
  {
    var plan := PlanOf(w, op);
    SealPlanWithoutCounter(w, op.keys, op.authKey, op.profile);
    if plan.signed == [] {
      assert w.ledger + [] == w.ledger;
    } else {
      var n := FirstExisting(w.files, op.keys, 0);
      CreationsAre(op.keys[..n], EcdsaPublic(op.authKey), None, DynamicDataOf(SHA256, plan.signed[0].params));
      assert FilesOnly(plan.effects);
      FilesOnlyGenerations(w, plan.signed[0], if power < |plan.effects| then plan.effects[..power] else plan.effects);
    }
  }

  lemma {:induction false} CounterOnlyTpm(w: World, pub: NvPublic)
    requires Consistent(w) && IsNvHandle(pub.handle) && pub.handle !in w.tpm.nv && !pub.written
    ensures
      var w' := ApplyAll(w, CreateCounter(pub) + [UndefineCounter(pub.handle)]);
      w'.tpm.nv == w.tpm.nv && w'.highWater == w.highWater + 1 && w'.ledger == w.ledger
  {
    CreatedCounter(w, pub);
    LedgerAfter(w, CreateCounter(pub) + [UndefineCounter(pub.handle)]);
    LastEffect(w, CreateCounter(pub), UndefineCounter(pub.handle));
  }

  lemma {:induction false} NewCounterGenerations(w: World, keys: seq<KeyRequest>, key: PrivateKey, counter: NvIndex,
                                                 profile: Profile, p: DynamicParams)
    requires Consistent(w) && Generations(w) && SealingWith(w, keys, key, counter, profile, p)
    ensures
      var pub := NewCounterPublic(counter.pub.handle, KeyName(EcdsaPublic(key)));
      var n := FirstExisting(w.files, keys, 0);
      Generations(ApplyAll(w.(ledger := w.ledger + [Authorization(SHA256, p)]),
                           CreateCounter(pub) + SealTail(keys, n, key, counter, p)))
  {
    var pub := NewCounterPublic(counter.pub.handle, KeyName(EcdsaPublic(key)));
    var n := FirstExisting(w.files, keys, 0);
    var ws := w.(ledger := w.ledger + [Authorization(SHA256, p)]);
    LedgerAfter(ws, CreateCounter(pub) + SealTail(keys, n, key, counter, p));
    NewCounterTpm(ws, keys, n, key, counter, p, pub);
    NextGeneration(w, ApplyAll(ws, CreateCounter(pub) + SealTail(keys, n, key, counter, p)), Authorization(SHA256, p));
  }

  lemma {:induction false} NewCounterTpm(w: World, keys: seq<KeyRequest>, n: nat, key: PrivateKey, counter: NvIndex,
                                         p: DynamicParams, pub: NvPublic)
    requires n <= |keys| && pub.handle !in w.tpm.nv && !pub.written && counter == NvIndex(Written(pub), w.highWater + 1)
    ensures
      var w' := ApplyAll(w, CreateCounter(pub) + SealTail(keys, n, key, counter, p));
      if n < |keys| then w'.tpm.nv == w.tpm.nv && w'.highWater == w.highWater + 1
      else w'.tpm.nv == w.tpm.nv[pub.handle := counter.(value := counter.value + 1)] && w'.highWater == w.highWater + 2
  {
    var tail := SealTail(keys, n, key, counter, p);
    CreatedCounter(w, pub);
    ApplyConcat(w, CreateCounter(pub), tail);
    SealTailTpm(WithCounter(w, pub), keys, n, key, counter, p);
    assert WithCounter(w, pub).tpm.nv - {pub.handle} == w.tpm.nv;
    assert WithCounter(w, pub).tpm.nv[pub.handle := counter.(value := counter.value + 1)] ==
           w.tpm.nv[pub.handle := counter.(value := counter.value + 1)];
  }

  lemma {:induction false} CreatedCounter(w: World, pub: NvPublic)
    requires pub.handle !in w.tpm.nv && !pub.written
    ensures ApplyAll(w, CreateCounter(pub)) == WithCounter(w, pub)
  {
    var define, increment := DefineCounter(pub), IncrementCounter(pub.handle);
    assert [] + [define] == [define];
    LastEffect(w, [], define);
    assert [define] + [increment] == CreateCounter(pub);
    LastEffect(w, [define], increment);
  }

  lemma {:induction false} SealWithCounterGenerations(w: World, op: Op, power: nat)
    requires Consistent(w) && Generations(w) && op.Seal? && op.handle != HANDLE_NULL && power >= |PlanOf(w, op).effects|
    ensures Generations(After(w, op, power))
  {
    var plan := PlanOf(w, op);
    var pub := NewCounterPublic(op.handle, KeyName(EcdsaPublic(op.authKey)));
    if plan.effects == [] {
      assert plan.signed == [];
      assert w.ledger + [] == w.ledger;
    } else {
      SealPlanWithCounter(w, op.keys, op.authKey, op.handle, op.profile);
      if plan.signed == [] {
        assert w.ledger + [] == w.ledger;
        CounterOnlyTpm(w, pub);
        SameGenerations(w, ApplyAll(w, CreateCounter(pub) + [UndefineCounter(op.handle)]));
      } else {
        var counter := NvIndex(Written(pub), w.highWater + 1);
        NewCounterGenerations(w, op.keys, op.authKey, counter, op.profile, plan.signed[0].params);
      }
    }
  }

  lemma {:induction false} OpGenerations(w: World, op: Op, power: nat)
    requires Consistent(w) && Generations(w) && power >= |PlanOf(w, op).effects|
    ensures Generations(After(w, op, power))
  {
    match op
    case Seal(_, _, handle, _) =>
      if handle == HANDLE_NULL {
        SealWithoutCounterGenerations(w, op, power);
      } else {
        SealWithCounterGenerations(w, op, power);
      }
    case Update(_, _, _) => UpdateGenerations(w, op, power);
    case ChangePin(_, _, _) => QuietGenerations(w, op, power);
    case Environment(_) => QuietGenerations(w, op, power);
  }

  lemma {:induction false} QuietGenerations(w: World, op: Op, power: nat)
    requires Generations(w) && (op.ChangePin? || op.Environment?)
    ensures Generations(After(w, op, power))
  {
    var es := PlanOf(w, op).effects;
    FilesOnlyKeepsTpm(Signing(w, op), if power < |es| then es[..power] else es);
    assert w.ledger + [] == w.ledger;
    SameGenerations(w, After(w, op, power));
  }

  /** No operation of the run is interrupted. */
  ghost predicate Uninterrupted(w: World, attempts: seq<Attempt>)
    decreases |attempts|
  {
    attempts == [] ||
    (attempts[0].power >= |PlanOf(w, attempts[0].op).effects| &&
     Uninterrupted(After(w, attempts[0].op, attempts[0].power), attempts[1..]))
  }

  lemma {:induction false} RunGenerations(w: World, attempts: seq<Attempt>)
    requires Consistent(w) && Generations(w) && Uninterrupted(w, attempts)
    ensures Generations(Run(w, attempts))
    decreases |attempts|
  {
    if attempts != [] {
      OpGenerations(w, attempts[0].op, attempts[0].power);
      OpKeeps(w, attempts[0].op, attempts[0].power);
      RunGenerations(After(w, attempts[0].op, attempts[0].power), attempts[1..]);
    }
  }

  /** In a run without interruptions, whatever metadata opens a session of a key, it was the newest policy for the
      key's counter that was authorized. */
  lemma {:induction false} OnlyNewestUsable(w: World, attempts: seq<Attempt>, alg: HashAlg, static_: StaticData,
                                            dynamic: DynamicData, authKey: PublicKey, pub: NvPublic)
      returns (i: nat)
    requires Consistent(w) && Generations(w) && Uninterrupted(w, attempts)
    requires
      var later := Run(w, attempts);
      && Issued(dynamic.signature, later.ledger)
      && Execute(later.tpm, alg, static_, dynamic) == Success(StaticPolicyDigest(alg, authKey, CounterName(Some(pub))))
    ensures
      var later := Run(w, attempts);
      && i < |later.ledger| && InForce(later.tpm, later.ledger[i], authKey, Some(pub))
      && forall j | i < j < |later.ledger| :: !For(later.ledger[j], pub)
  {
    var later := Run(w, attempts);
    var a := SessionIsSound(later.tpm, alg, static_, dynamic, authKey, Some(pub), later.ledger);
    i :| 0 <= i < |later.ledger| && later.ledger[i] == a;
    RunGenerations(w, attempts);
    CrashSafety(w, attempts);
    NewestInForce(later, i, authKey, pub);
  }

  lemma {:induction false} NewestInForce(w: World, i: nat, authKey: PublicKey, pub: NvPublic)
    requires CountersOk(w) && Generations(w) && i < |w.ledger| && InForce(w.tpm, w.ledger[i], authKey, Some(pub))
    ensures forall j | i < j < |w.ledger| :: !For(w.ledger[j], pub)
  {
    var a := w.ledger[i];
    var h :| h in w.tpm.nv && w.tpm.nv[h].pub == pub && w.tpm.nv[h].value <= a.params.count;
    assert h == pub.handle && For(w.ledger[i], pub);
    assert forall j | 0 <= j < |w.ledger| && For(w.ledger[j], pub) :: w.ledger[j].params.count <= Ceiling(w, pub);
  }

  // ------------------------------------------------------ interrupted generations

  /** An update that is interrupted before it increments the counter leaves its policy with the same count as the
      update that follows, so both are usable until the next completed update. */
  lemma {:induction false} InterruptedSharesCount(w: World, op: Op, power: nat, retry: Op)
    requires Consistent(w) && op.Update? && retry.Update?
    requires OutcomeOf(w, op, power) == PowerLost && PlanOf(w, op).signed != []
    requires PlanOf(After(w, op, power), retry).signed != []
    requires PlanOf(w, op).signed[0].params.counter == PlanOf(After(w, op, power), retry).signed[0].params.counter
    ensures After(w, op, power).tpm == w.tpm
    ensures PlanOf(w, op).signed[0].params.count == PlanOf(After(w, op, power), retry).signed[0].params.count
  {
    InterruptedKeepsTpm(w, op, power);
    OpKeeps(w, op, power);
    SignedCount(w, op);
    SignedCount(After(w, op, power), retry);
  }

  lemma {:induction false} InterruptedKeepsTpm(w: World, op: Op, power: nat)
    requires Consistent(w) && op.Update? && OutcomeOf(w, op, power) == PowerLost
    ensures After(w, op, power).tpm == w.tpm
  {
    var plan := PlanOf(w, op);
    UpdatePlanIs(w, op.paths, op.authKey, op.profile);
    var fs, p :| Updating(w, op.paths, op.authKey, op.profile, fs, p) && plan == RewritePlan(op.paths, fs, p);
    RewritePrefix(op.paths, fs, p, power);
    FilesOnlyKeepsTpm(Signing(w, op), plan.effects[..power]);
  }

  /** The count an update signs is one above the counter. */
  lemma {:induction false} SignedCount(w: World, op: Op)
    requires Consistent(w) && op.Update? && PlanOf(w, op).signed != []
    ensures
      var p := PlanOf(w, op).signed[0].params;
      if p.counter.Some? then p.counter.value.handle in w.tpm.nv &&
          p.count == w.tpm.nv[p.counter.value.handle].value + 1
      else p.count == 0
  {
    var fs, p := CompletedIsRewritten(w, op, |PlanOf(w, op).effects|);
    RewrittenTpm(w, op.paths, op.authKey, op.profile, fs, p);
  }

  // -------------------------------------------------------- naming only some files

  /** The counts after a completed update: a file on the counter keeps up exactly when the update names it, or when
      the file already carried a later count. */
  lemma {:induction false} CountsAfterUpdate(w: World, op: Op, power: nat, h: Handle, path: Path)
    requires Consistent(w) && CompletesUpdate(w, op, power, h) && Uses(w, h, path)
    ensures
      var w' := After(w, op, power);
      && Uses(w', h, path) && h in w'.tpm.nv
      && (w'.tpm.nv[h].value <= w'.files[path].f.dynamic.policyCount <==>
          path in op.paths || w.files[path].f.dynamic.policyCount > w.tpm.nv[h].value)
  {
    var fs, p := CompletedIsRewritten(w, op, power);
    RewrittenTpm(w, op.paths, op.authKey, op.profile, fs, p);
    RewrittenAt(w, op.paths, op.authKey, op.profile, fs, p, path);
  }

  /** What unsealing a backed file does, in any PCR state. */
  lemma {:induction false} BackedUnsealing(tpm: TpmState, f: KeyFile, a: Authorization)
    requires Backed(tpm, f, a) && f.static_.counterHandle != HANDLE_NULL && f.static_.counterHandle in tpm.nv
    ensures Unsealing(tpm, f, f.priv.pin) ==
            if PcrDigest(SHA256, Selected(tpm.pcrs, a.params.pcrs)) !in a.params.pcrDigests then
              Failure(SessionFailed(OrFailed(DigestNotFound)))
            else if tpm.nv[f.static_.counterHandle].value > f.dynamic.policyCount then
              Failure(SessionFailed(PolicyRevoked))
            else Success(f.priv.payload)
  {
    FreshMetadataIsExact(tpm, SHA256, f.static_, a.params);
    if PcrDigest(SHA256, Selected(tpm.pcrs, a.params.pcrs)) in a.params.pcrDigests &&
       tpm.nv[f.static_.counterHandle].value <= f.dynamic.policyCount {
      BackedSession(tpm, f, a);
      SessionUnseals(tpm, f);
    }
  }

  /** Whether a file is backed does not depend on the PCR values. */
  lemma {:induction false} BackedAnywhere(tpm: TpmState, tpm': TpmState, f: KeyFile, a: Authorization)
    requires Backed(tpm, f, a) && tpm'.nv == tpm.nv && tpm'.pcrs.Keys == tpm.pcrs.Keys
    ensures Backed(tpm', f, a)
  {
    assert Validation(tpm', f, None) == Validation(tpm, f, None);
  }

  /** What a completed update leaves of a file on its counter: in the PCR states that the policy of the file
      approves, it unseals exactly when the update names it, or when it carried a later count already; otherwise it
      is revoked. */
  lemma {:induction false} UnnamedFilesRevoked(w: World, op: Op, power: nat, h: Handle, path: Path, now: TpmState)
      returns (a: Authorization)
    requires Consistent(w) && CompletesUpdate(w, op, power, h) && Uses(w, h, path)
    requires now.nv == After(w, op, power).tpm.nv && now.pcrs.Keys == After(w, op, power).tpm.pcrs.Keys
    ensures
      var w' := After(w, op, power);
      && Uses(w', h, path) && a in w'.ledger && Backed(w'.tpm, w'.files[path].f, a)
      && var f := w'.files[path].f;
         Unsealing(now, f, f.priv.pin) ==
         if PcrDigest(SHA256, Selected(now.pcrs, a.params.pcrs)) !in a.params.pcrDigests then
           Failure(SessionFailed(OrFailed(DigestNotFound)))
         else if path in op.paths || w.files[path].f.dynamic.policyCount > w.tpm.nv[h].value then
           Success(f.priv.payload)
         else Failure(SessionFailed(PolicyRevoked))
  {
    var w' := After(w, op, power);
    CountsAfterUpdate(w, op, power, h, path);
    OpKeeps(w, op, power);
    var f := w'.files[path].f;
    assert FileOk(w', f);
    a :| a in w'.ledger && Backed(w'.tpm, f, a);
    BackedAnywhere(w'.tpm, now, f, a);
    BackedUnsealing(now, f, a);
  }

  /** The file at a path after an update: a named file has the new policy and the same counter, others are unchanged. */
  lemma {:induction false} RewrittenAt(w: World, paths: seq<Path>, key: PrivateKey, profile: Profile, fs: seq<KeyFile>,
                                       p: DynamicParams, path: Path)
    requires Consistent(w) && Updating(w, paths, key, profile, fs, p) && path in w.files
    ensures
      var files := Rewritten(w, paths, fs, p).files;
      && path in files
      && (path in paths ==> files[path].Key? && files[path].f.static_ == fs[0].static_ &&
                            files[path].f.dynamic == DynamicDataOf(SHA256, p))
      && (path !in paths ==> files[path] == w.files[path])
  {
    var ws := w.(ledger := w.ledger + [Authorization(SHA256, p)]);
    var dynamic := DynamicDataOf(SHA256, p);
    var writes := Rewrites(paths, fs, dynamic);
    RewrittenFile(ws, paths, fs, dynamic, path);
    var h := fs[0].static_.counterHandle;
    if h == HANDLE_NULL {
      assert writes + [] == writes;
    } else {
      LastEffect(ws, writes, IncrementCounter(h));
    }
    if path in paths {
      RewrittenKeepsCounter(w, ws, paths, key, fs, dynamic, path);
    }
  }

  /** An update leaves the files alone that it does not name. */
  lemma {:induction false} UnnamedUnchanged(w: World, op: Op, power: nat, path: Path)
    requires Consistent(w) && op.Update? && OutcomeOf(w, op, power) == Done && path in w.files && path !in op.paths
    ensures path in After(w, op, power).files && After(w, op, power).files[path] == w.files[path]
  {
    DoneIsSigned(w, op, power);
    var fs, p := CompletedIsRewritten(w, op, power);
    RewrittenAt(w, op.paths, op.authKey, op.profile, fs, p, path);
  }

  lemma {:induction false} RewrittenKeepsCounter(w: World, ws: World, paths: seq<Path>, key: PrivateKey,
                                                 fs: seq<KeyFile>, dynamic: DynamicData, path: Path)
    requires Consistent(w) && ReadFiles(w, paths, key) == Success(fs) && |fs| == |paths| && path in paths
    ensures
      var files := ApplyAll(ws, Rewrites(paths, fs, dynamic)).files;
      path in files && files[path].Key? && files[path].f.static_ == fs[0].static_
  {
    var writes := Rewrites(paths, fs, dynamic);
    FileAfter(ws, writes, path);
    var k :| 0 <= k < |paths| && paths[k] == path;
    assert writes[k].path == path;
    forall i | 0 <= i < |writes|
      ensures writes[i].f.static_ == fs[0].static_
    {
      UpdateReads(w, paths, key, i);
    }
  }
}
