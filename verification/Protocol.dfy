/** What holds over whole runs of sealing, updating and changing PINs, with power lost at any point. */
module Protocol {
  import opened Digests
  import opened Tpm
  import opened PolicyOrTree
  import opened PolicySessions
  import opened KeyFiles
  import opened PcrProfile
  import opened PcrDigests
  import opened Sealing

  // ---------------------------------------------------------------- invariant

  ghost predicate CountersOk(w: World) {
    forall h | h in w.tpm.nv :: IsNvHandle(h) && w.tpm.nv[h].pub.handle == h && w.tpm.nv[h].value <= w.highWater
  }

  /** The policy of the file was signed for the file's own key and counter. */
  ghost predicate Backed(tpm: TpmState, f: KeyFile, a: Authorization) {
    && f.pub.nameAlg == SHA256 && f.static_.authKey == EcdsaPublic(f.static_.authKey.unique)
    && Validation(tpm, f, None).Success?
    && a.alg == SHA256 && a.params.signAlg == SHA256
    && f.dynamic == DynamicDataOf(SHA256, a.params)
    && Matches(f.static_.authKey, a.params.key)
    && a.params.counter == Validation(tpm, f, None).value
    && a.params.pcrDigests != [] && a.params.pcrs <= tpm.pcrs.Keys
    && (f.static_.counterHandle != HANDLE_NULL ==>
          a.params.counter == Some(Written(NewCounterPublic(f.static_.counterHandle, KeyName(f.static_.authKey)))))
  }

  ghost predicate FileOk(w: World, f: KeyFile) {
    exists a :: a in w.ledger && Backed(w.tpm, f, a)
  }

  /** The file's policy was signed for the current value of its counter, or for the next one. */
  ghost predicate UpToDate(w: World, f: KeyFile) {
    var h := f.static_.counterHandle;
    h != HANDLE_NULL ==> h in w.tpm.nv && w.tpm.nv[h].value <= f.dynamic.policyCount <= w.tpm.nv[h].value + 1
  }

  ghost predicate FilesOk(w: World) {
    forall path | path in w.files && w.files[path].Key? :: FileOk(w, w.files[path].f)
  }

  ghost predicate AllUpToDate(w: World) {
    forall path | path in w.files && w.files[path].Key? :: UpToDate(w, w.files[path].f)
  }

  /** The invariant of every run. */
  ghost predicate Consistent(w: World) {
    CountersOk(w) && FilesOk(w)
  }

  // ------------------------------------------------------- effects, one by one

  ghost predicate Uses(w: World, h: Handle, path: Path) {
    path in w.files && w.files[path].Key? && w.files[path].f.static_.counterHandle == h
  }

  /** Changes that keep the invariant. */
  ghost predicate Allowed(w: World, e: Effect) {
    match e
    case DefineCounter(pub) => IsNvHandle(pub.handle) && pub.handle !in w.tpm.nv
    case IncrementCounter(h) => h in w.tpm.nv
    case UndefineCounter(h) => IsNvHandle(h) && forall path :: !Uses(w, h, path)
    case CreateFile(path) => true
    case ReplaceFile(path, f) => FileOk(w, f)
    case RemoveFile(path) => true
  }

  /** Changes that moreover keep every file up to date: a counter is only incremented once every file that
      uses it carries the next count. */
  ghost predicate Timely(w: World, e: Effect) {
    match e
    case IncrementCounter(h) =>
      h in w.tpm.nv &&
      forall path | Uses(w, h, path) :: w.files[path].f.dynamic.policyCount == w.tpm.nv[h].value + 1
    case ReplaceFile(path, f) => UpToDate(w, f)
    case _ => true
  }

  /** The counter of a file is a counter of the TPM that has been written. */
  lemma {:induction false} CounterOfFile(w: World, f: KeyFile)
    requires FileOk(w, f) && f.static_.counterHandle != HANDLE_NULL
    ensures f.static_.counterHandle in w.tpm.nv
    ensures w.tpm.nv[f.static_.counterHandle].pub ==
            Written(NewCounterPublic(f.static_.counterHandle, KeyName(f.static_.authKey)))
  {
    var a :| a in w.ledger && Backed(w.tpm, f, a);
  }

  /** A file stays backed as long as its counter keeps its public area and the ledger only grows. */
  lemma {:induction false} FileStaysOk(w: World, w': World, f: KeyFile)
    requires FileOk(w, f)
    requires w.ledger <= w'.ledger && w'.tpm.pcrs.Keys == w.tpm.pcrs.Keys
    requires var h := f.static_.counterHandle;
             h != HANDLE_NULL ==> h in w.tpm.nv && h in w'.tpm.nv && w'.tpm.nv[h].pub == w.tpm.nv[h].pub
    ensures FileOk(w', f)
  {
    var a :| a in w.ledger && Backed(w.tpm, f, a);
    assert Validation(w'.tpm, f, None) == Validation(w.tpm, f, None);
    assert Backed(w'.tpm, f, a);
  }

  lemma {:induction false} AllowedKeeps(w: World, e: Effect)
    requires Consistent(w) && Allowed(w, e)
    ensures Consistent(Apply(w, e))
  {
    var w' := Apply(w, e);
    forall path | path in w'.files && w'.files[path].Key?
      ensures FileOk(w', w'.files[path].f)
    {
      var f := w'.files[path].f;
      if e.ReplaceFile? && path == e.path {
        assert FileOk(w, f);
      } else {
        assert path in w.files && w.files[path] == w'.files[path];
        if e.UndefineCounter? {
          assert !Uses(w, e.handle, path);
        }
      }
      if f.static_.counterHandle != HANDLE_NULL {
        CounterOfFile(w, f);
      }
      FileStaysOk(w, w', f);
    }
  }

  lemma {:induction false} TimelyKeeps(w: World, e: Effect)
    requires Consistent(w) && AllUpToDate(w) && Allowed(w, e) && Timely(w, e)
    ensures AllUpToDate(Apply(w, e))
  {
    var w' := Apply(w, e);
    forall path | path in w'.files && w'.files[path].Key?
      ensures UpToDate(w', w'.files[path].f)
    {
      var f := w'.files[path].f;
      if e.ReplaceFile? && path == e.path {
        assert FileOk(w, f);
      } else {
        assert path in w.files && w.files[path] == w'.files[path];
        assert FileOk(w, f) && UpToDate(w, f);
        if e.UndefineCounter? {
          assert !Uses(w, e.handle, path);
        }
        if e.IncrementCounter? && f.static_.counterHandle == e.handle {
          assert Uses(w, e.handle, path);
        }
      }
      if f.static_.counterHandle != HANDLE_NULL {
        CounterOfFile(w, f);
      }
    }
  }

  /** Every change of a sequence is allowed where it happens. */
  ghost predicate AllAllowed(w: World, es: seq<Effect>)
    decreases |es|
  {
    es == [] || (Allowed(w, es[0]) && AllAllowed(Apply(w, es[0]), es[1..]))
  }

  ghost predicate AllTimely(w: World, es: seq<Effect>)
    decreases |es|
  {
    es == [] || (Timely(w, es[0]) && AllTimely(Apply(w, es[0]), es[1..]))
  }

  lemma {:induction false} PrefixKeeps(w: World, es: seq<Effect>, k: nat)
    requires Consistent(w) && AllAllowed(w, es) && k <= |es|
    ensures Consistent(ApplyAll(w, es[..k]))
    ensures AllUpToDate(w) && AllTimely(w, es) ==> AllUpToDate(ApplyAll(w, es[..k]))
    decreases |es|
  {
    if k > 0 {
      AllowedKeeps(w, es[0]);
      if AllUpToDate(w) && AllTimely(w, es) {
        TimelyKeeps(w, es[0]);
      }
      PrefixKeeps(Apply(w, es[0]), es[1..], k - 1);
      assert es[..k][1..] == es[1..][..k - 1];
    }
  }

  lemma {:induction false} AllowedConcat(w: World, a: seq<Effect>, b: seq<Effect>)
    requires AllAllowed(w, a) && AllAllowed(ApplyAll(w, a), b)
    ensures AllAllowed(w, a + b)
    decreases |a|
  {
    if a == [] {
      assert a + b == b;
    } else {
      AllowedConcat(Apply(w, a[0]), a[1..], b);
      assert (a + b)[1..] == a[1..] + b;
    }
  }

  lemma {:induction false} TimelyConcat(w: World, a: seq<Effect>, b: seq<Effect>)
    requires AllTimely(w, a) && AllTimely(ApplyAll(w, a), b)
    ensures AllTimely(w, a + b)
    decreases |a|
  {
    if a == [] {
      assert a + b == b;
    } else {
      TimelyConcat(Apply(w, a[0]), a[1..], b);
      assert (a + b)[1..] == a[1..] + b;
    }
  }

  // ------------------------------------------------------- file replacements

  /** Changes that only touch files. */
  ghost predicate FilesOnly(es: seq<Effect>) {
    forall i | 0 <= i < |es| :: es[i].CreateFile? || es[i].ReplaceFile? || es[i].RemoveFile?
  }

  lemma {:induction false} FilesOnlyKeepsTpm(w: World, es: seq<Effect>)
    requires FilesOnly(es)
    ensures ApplyAll(w, es).tpm == w.tpm && ApplyAll(w, es).highWater == w.highWater &&
            ApplyAll(w, es).ledger == w.ledger
    decreases |es|
  {
    if es != [] {
      FilesOnlyKeepsTpm(Apply(w, es[0]), es[1..]);
    }
  }

  /** What a file needs depends on the TPM and the ledger, not on the other files. */
  lemma {:induction false} FileOkIgnoresFiles(w: World, w': World, f: KeyFile)
    requires w'.tpm == w.tpm && w'.ledger == w.ledger
    ensures FileOk(w', f) == FileOk(w, f) && UpToDate(w', f) == UpToDate(w, f)
  {
  }

  lemma {:induction false} FilesOnlyAllowed(w: World, es: seq<Effect>)
    requires FilesOnly(es)
    requires forall i | 0 <= i < |es| && es[i].ReplaceFile? :: FileOk(w, es[i].f)
    ensures AllAllowed(w, es)
    decreases |es|
  {
    if es != [] {
      var w' := Apply(w, es[0]);
      forall i | 0 <= i < |es[1..]| && es[1..][i].ReplaceFile?
        ensures FileOk(w', es[1..][i].f)
      {
        FileOkIgnoresFiles(w, w', es[i + 1].f);
      }
      FilesOnlyAllowed(w', es[1..]);
    }
  }

  lemma {:induction false} FilesOnlyTimely(w: World, es: seq<Effect>)
    requires FilesOnly(es)
    requires forall i | 0 <= i < |es| && es[i].ReplaceFile? :: UpToDate(w, es[i].f)
    ensures AllTimely(w, es)
    decreases |es|
  {
    if es != [] {
      var w' := Apply(w, es[0]);
      forall i | 0 <= i < |es[1..]| && es[1..][i].ReplaceFile?
        ensures UpToDate(w', es[1..][i].f)
      {
        FileOkIgnoresFiles(w, w', es[i + 1].f);
      }
      FilesOnlyTimely(w', es[1..]);
    }
  }

  /** The file at a path after changes: untouched, or as the last change of that path left it. */
  lemma {:induction false} FileAfter(w: World, es: seq<Effect>, path: Path)
    requires FilesOnly(es)
    ensures
      var files := ApplyAll(w, es).files;
      || ((forall i | 0 <= i < |es| :: es[i].path != path) &&
          (path in files <==> path in w.files) && (path in files ==> files[path] == w.files[path]))
      || (exists i :: 0 <= i < |es| && es[i].path == path &&
            (path in files <==> !es[i].RemoveFile?) &&
            (path in files ==> files[path] == if es[i].CreateFile? then Partial else Key(es[i].f)))
    decreases |es|
  {
    if es != [] {
      var rest := es[1..];
      FileAfter(Apply(w, es[0]), rest, path);
      var files := ApplyAll(w, es).files;
      assert files == ApplyAll(Apply(w, es[0]), rest).files;
      if j :| 0 <= j < |rest| && rest[j].path == path &&
              (path in files <==> !rest[j].RemoveFile?) &&
              (path in files ==> files[path] == if rest[j].CreateFile? then Partial else Key(rest[j].f)) {
        assert es[j + 1] == rest[j];
      } else {
        assert forall i | 0 < i < |es| :: es[i] == rest[i - 1];
        if es[0].path == path {
          assert es[0].path == path;
        }
      }
    }
  }

  // ------------------------------------------------------------------ updating

  /** The world in which the changes of an operation happen: its policy has been signed. */
  ghost function Signing(w: World, op: Op): World {
    InEnvironment(w, op).(ledger := w.ledger + PlanOf(w, op).signed)
  }

  lemma {:induction false} SigningKeeps(w: World, op: Op)
    requires Consistent(w)
    ensures Consistent(Signing(w, op))
    ensures AllUpToDate(w) ==> AllUpToDate(Signing(w, op))
  {
    var w' := Signing(w, op);
    forall path | path in w'.files && w'.files[path].Key?
      ensures FileOk(w', w'.files[path].f)
    {
      var f := w.files[path].f;
      if f.static_.counterHandle != HANDLE_NULL {
        CounterOfFile(w, f);
      }
      FileStaysOk(w, w', f);
    }
  }

  /** Two files on one counter have the same signing key and policy digest. */
  lemma {:induction false} SameCounterRelated(w: World, f: KeyFile, g: KeyFile)
    requires FileOk(w, f) && FileOk(w, g)
    requires f.static_.counterHandle == g.static_.counterHandle != HANDLE_NULL
    ensures f.static_ == g.static_ && f.pub.authPolicy == g.pub.authPolicy
  {
    CounterOfFile(w, f);
    CounterOfFile(w, g);
    var h := f.static_.counterHandle;
    CounterPolicyInjective(SHA256, KeyName(f.static_.authKey), KeyName(g.static_.authKey));
    var a :| a in w.ledger && Backed(w.tpm, f, a);
    var b :| b in w.ledger && Backed(w.tpm, g, b);
  }

  /** A backed file may increment its own counter. */
  lemma {:induction false} MayIncrementOwn(w: World, f: KeyFile)
    requires FileOk(w, f) && f.static_.counterHandle != HANDLE_NULL
    ensures f.static_.counterHandle in w.tpm.nv
    ensures MayIncrement(w.tpm.nv[f.static_.counterHandle].pub, KeyName(f.static_.authKey))
  {
    CounterOfFile(w, f);
    CounterBelongsToKey(f.static_.counterHandle, KeyName(f.static_.authKey), KeyName(f.static_.authKey));
  }

  /** The files an update reads are related: same signing key, same counter. */
  lemma {:induction false} UpdateReads(w: World, paths: seq<Path>, key: PrivateKey, i: nat)
    requires Consistent(w) && ReadFiles(w, paths, key).Success? && i < |paths|
    ensures |ReadFiles(w, paths, key).value| == |paths|
    ensures
      var fs := ReadFiles(w, paths, key).value;
      && paths[i] in w.files && w.files[paths[i]] == Key(fs[i]) && FileOk(w, fs[i])
      && fs[i].static_ == fs[0].static_ && fs[i].pub.authPolicy == fs[0].pub.authPolicy
      && Matches(fs[0].static_.authKey, key)
  {
    var fs := ReadFiles(w, paths, key).value;
    ReadRelatedFiles(w, paths[1..], fs[0].pub.authPolicy);
    assert FileOk(w, fs[0]);
    if i > 0 {
      assert paths[i] == paths[1..][i - 1];
      assert FileOk(w, fs[i]);
      RelatedFiles(w.tpm, fs[0], fs[i], Some(key));
      if fs[0].static_.counterHandle != HANDLE_NULL {
        CounterOfFile(w, fs[0]);
      }
      if fs[i].static_.counterHandle != HANDLE_NULL {
        CounterOfFile(w, fs[i]);
      }
    }
  }

  /** An update of these files, by this plan, gets as far as signing `p`. */
  ghost predicate Updating(w: World, paths: seq<Path>, key: PrivateKey, profile: Profile, fs: seq<KeyFile>,
                           p: DynamicParams) {
    && ReadFiles(w, paths, key) == Success(fs) && |fs| == |paths| > 0
    && CounterOf(w.tpm, fs[0].static_).Success?
    && NextPolicy(w.tpm, fs[0].pub.nameAlg, fs[0].static_.authKey.nameAlg, key, CounterOf(w.tpm, fs[0].static_).value,
                  profile) == Success(p)
  }

  /** The policy an update signs is good for every file it names, and current. */
  lemma {:induction false} UpdatedFileOk(w: World, paths: seq<Path>, key: PrivateKey, profile: Profile,
                                         fs: seq<KeyFile>, p: DynamicParams, i: nat)
    requires Consistent(w) && Updating(w, paths, key, profile, fs, p) && i < |paths|
    ensures
      var w' := w.(ledger := w.ledger + [Authorization(SHA256, p)]);
      var g := fs[i].(dynamic := DynamicDataOf(SHA256, p));
      FileOk(w', g) && UpToDate(w', g)
  {
    UpdateReads(w, paths, key, i);
    UpdateReads(w, paths, key, 0);
    NextPolicyFits(w, key, profile, fs[0], p);
    ResignedOk(w, fs[i], p);
  }

  /** The policy that is signed next for a file's key and counter. */
  ghost predicate FitsFile(w: World, f: KeyFile, p: DynamicParams) {
    && Matches(f.static_.authKey, p.key) && p.signAlg == SHA256 && p.pcrDigests != [] && p.pcrs <= w.tpm.pcrs.Keys
    && CounterOf(w.tpm, f.static_).Success? && p.counter == PublicOf(CounterOf(w.tpm, f.static_).value)
    && (p.counter.Some? ==> p.count == CounterOf(w.tpm, f.static_).value.value.value + 1)
  }

  lemma {:induction false} NextPolicyFits(w: World, key: PrivateKey, profile: Profile, f: KeyFile, p: DynamicParams)
    requires FileOk(w, f) && Matches(f.static_.authKey, key) && CounterOf(w.tpm, f.static_).Success?
    requires NextPolicy(w.tpm, f.pub.nameAlg, f.static_.authKey.nameAlg, key, CounterOf(w.tpm, f.static_).value,
                        profile) ==
             Success(p)
    ensures FitsFile(w, f, p)
  {
    ApprovedNotEmpty(profile, w.tpm.pcrs, f.pub.nameAlg);
  }

  lemma {:induction false} ResignedOk(w: World, f: KeyFile, p: DynamicParams)
    requires FileOk(w, f) && FitsFile(w, f, p)
    ensures
      var w' := w.(ledger := w.ledger + [Authorization(SHA256, p)]);
      var g := f.(dynamic := DynamicDataOf(SHA256, p));
      FileOk(w', g) && UpToDate(w', g)
  {
    var a := Authorization(SHA256, p);
    var w' := w.(ledger := w.ledger + [a]);
    var b :| b in w.ledger && Backed(w.tpm, f, b);
    Rebacked(w.tpm, f, b, p);
    assert w'.ledger[|w.ledger|] == a;
  }

  /** A new policy for a file's key and counter backs the file. */
  lemma {:induction false} Rebacked(tpm: TpmState, f: KeyFile, b: Authorization, p: DynamicParams)
    requires Backed(tpm, f, b)
    requires Matches(f.static_.authKey, p.key) && p.signAlg == SHA256 && p.counter == Validation(tpm, f, None).value
    requires p.pcrDigests != [] && p.pcrs <= tpm.pcrs.Keys
    ensures Backed(tpm, f.(dynamic := DynamicDataOf(SHA256, p)), Authorization(SHA256, p))
  {
    assert Validation(tpm, f.(dynamic := DynamicDataOf(SHA256, p)), None) == Validation(tpm, f, None);
  }

  ghost function RewritePlan(paths: seq<Path>, fs: seq<KeyFile>, p: DynamicParams): Plan
    requires |paths| == |fs| > 0
  {
    var h := fs[0].static_.counterHandle;
    Plan([Authorization(SHA256, p)],
         Rewrites(paths, fs, DynamicDataOf(SHA256, p)) + (if h == HANDLE_NULL then [] else [IncrementCounter(h)]),
         Done)
  }

  /** The plan of an update: it rewrites every file, then increments the counter. */
  lemma {:induction false} UpdatePlanIs(w: World, paths: seq<Path>, key: PrivateKey, profile: Profile)
    requires Consistent(w)
    ensures
      var plan := UpdatePlan(w, paths, key, profile);
      || (plan.signed == [] && plan.effects == [] && plan.end.Failed?)
      || (exists fs: seq<KeyFile>, p: DynamicParams ::
            Updating(w, paths, key, profile, fs, p) && plan == RewritePlan(paths, fs, p))
  {
    var plan := UpdatePlan(w, paths, key, profile);
    if plan.signed != [] {
      var fs := ReadFiles(w, paths, key).value;
      UpdateReads(w, paths, key, 0);
      SignedPlanIs(w, paths, key, profile, fs, plan.signed[0].params);
    }
  }

  lemma {:induction false} SignedPlanIs(w: World, paths: seq<Path>, key: PrivateKey, profile: Profile, fs: seq<KeyFile>,
                                        p: DynamicParams)
    requires ReadFiles(w, paths, key) == Success(fs) && |fs| == |paths| && FileOk(w, fs[0])
    requires UpdatePlan(w, paths, key, profile).signed != []
    requires p == UpdatePlan(w, paths, key, profile).signed[0].params
    ensures Updating(w, paths, key, profile, fs, p)
    ensures UpdatePlan(w, paths, key, profile) == RewritePlan(paths, fs, p)
  {
    var writes := Rewrites(paths, fs, DynamicDataOf(SHA256, p));
    if fs[0].static_.counterHandle != HANDLE_NULL {
      MayIncrementOwn(w, fs[0]);
    } else {
      assert writes + [] == writes;
    }
  }

  /** Before the last change of an update, only files have changed. */
  lemma {:induction false} RewritePrefix(paths: seq<Path>, fs: seq<KeyFile>, p: DynamicParams, k: nat)
    requires |paths| == |fs| > 0 && k < |RewritePlan(paths, fs, p).effects|
    ensures FilesOnly(RewritePlan(paths, fs, p).effects[..k])
  {
    var writes := Rewrites(paths, fs, DynamicDataOf(SHA256, p));
    assert RewritePlan(paths, fs, p).effects[..k] == writes[..k];
  }

  /** The update names every file that is related to its primary file. */
  ghost predicate NamesAllRelated(w: World, paths: seq<Path>, key: PrivateKey) {
    ReadFiles(w, paths, key).Success? ==>
      forall path | path in w.files && w.files[path].Key? &&
                    w.files[path].f.pub.authPolicy == ReadFiles(w, paths, key).value[0].pub.authPolicy ::
        path in paths
  }

  lemma {:induction false} RewrittenFile(w: World, paths: seq<Path>, fs: seq<KeyFile>, dynamic: DynamicData, path: Path)
    requires |paths| == |fs|
    ensures
      var files := ApplyAll(w, Rewrites(paths, fs, dynamic)).files;
      if path in paths then path in files && files[path].Key? && files[path].f.dynamic == dynamic
      else (path in files <==> path in w.files) && (path in files ==> files[path] == w.files[path])
  {
    var writes := Rewrites(paths, fs, dynamic);
    FileAfter(w, writes, path);
    if path in paths {
      var i :| 0 <= i < |paths| && paths[i] == path;
      assert writes[i].path == path;
    }
  }

  /** Once every named file is rewritten, every file on the counter carries the next count. */
  lemma {:induction false} IncrementTimely(w: World, paths: seq<Path>, key: PrivateKey, profile: Profile,
                                           fs: seq<KeyFile>, p: DynamicParams)
    requires Consistent(w) && Updating(w, paths, key, profile, fs, p)
    requires NamesAllRelated(w, paths, key) && fs[0].static_.counterHandle != HANDLE_NULL
    ensures
      var w' := w.(ledger := w.ledger + [Authorization(SHA256, p)]);
      var w'' := ApplyAll(w', Rewrites(paths, fs, DynamicDataOf(SHA256, p)));
      Timely(w'', IncrementCounter(fs[0].static_.counterHandle))
  {
    var h := fs[0].static_.counterHandle;
    var w' := w.(ledger := w.ledger + [Authorization(SHA256, p)]);
    var writes := Rewrites(paths, fs, DynamicDataOf(SHA256, p));
    var w'' := ApplyAll(w', writes);
    FilesOnlyKeepsTpm(w', writes);
    UpdateReads(w, paths, key, 0);
    CounterOfFile(w, fs[0]);
    forall path | Uses(w'', h, path)
      ensures w''.files[path].f.dynamic.policyCount == w''.tpm.nv[h].value + 1
    {
      RewrittenFile(w', paths, fs, DynamicDataOf(SHA256, p), path);
      if path !in paths {
        assert FileOk(w, w.files[path].f);
        SameCounterRelated(w, w.files[path].f, fs[0]);
      }
    }
  }

  lemma {:induction false} RewritesSafe(w: World, paths: seq<Path>, key: PrivateKey, profile: Profile, fs: seq<KeyFile>,
                                        p: DynamicParams)
    requires Consistent(w) && Updating(w, paths, key, profile, fs, p)
    ensures
      var w' := w.(ledger := w.ledger + [Authorization(SHA256, p)]);
      var writes := Rewrites(paths, fs, DynamicDataOf(SHA256, p));
      AllAllowed(w', writes) && AllTimely(w', writes) && ApplyAll(w', writes).tpm == w.tpm
  {
    var w' := w.(ledger := w.ledger + [Authorization(SHA256, p)]);
    var writes := Rewrites(paths, fs, DynamicDataOf(SHA256, p));
    forall i | 0 <= i < |writes|
      ensures FileOk(w', writes[i].f) && UpToDate(w', writes[i].f)
    {
      UpdatedFileOk(w, paths, key, profile, fs, p, i);
    }
    FilesOnlyAllowed(w', writes);
    FilesOnlyTimely(w', writes);
    FilesOnlyKeepsTpm(w', writes);
  }

  lemma {:induction false} UpdateSafe(w: World, paths: seq<Path>, key: PrivateKey, profile: Profile)
    requires Consistent(w)
    ensures AllAllowed(Signing(w, Update(paths, key, profile)), UpdatePlan(w, paths, key, profile).effects)
    ensures NamesAllRelated(w, paths, key) ==>
              AllTimely(Signing(w, Update(paths, key, profile)), UpdatePlan(w, paths, key, profile).effects)
  {
    UpdatePlanIs(w, paths, key, profile);
    var plan := UpdatePlan(w, paths, key, profile);
    if plan.signed != [] {
      var fs: seq<KeyFile>, p: DynamicParams :|
        Updating(w, paths, key, profile, fs, p) && plan == RewritePlan(paths, fs, p);
      RewritePlanSafe(w, paths, key, profile, fs, p);
    }
  }

  lemma {:induction false} RewritePlanSafe(w: World, paths: seq<Path>, key: PrivateKey, profile: Profile,
                                           fs: seq<KeyFile>, p: DynamicParams)
    requires Consistent(w) && Updating(w, paths, key, profile, fs, p)
    ensures
      var w' := w.(ledger := w.ledger + [Authorization(SHA256, p)]);
      && AllAllowed(w', RewritePlan(paths, fs, p).effects)
      && (NamesAllRelated(w, paths, key) ==> AllTimely(w', RewritePlan(paths, fs, p).effects))
  {
    var w' := w.(ledger := w.ledger + [Authorization(SHA256, p)]);
    var writes := Rewrites(paths, fs, DynamicDataOf(SHA256, p));
    RewritesSafe(w, paths, key, profile, fs, p);
    var h := fs[0].static_.counterHandle;
    var tail := if h == HANDLE_NULL then [] else [IncrementCounter(h)];
    if h != HANDLE_NULL {
      UpdateReads(w, paths, key, 0);
      CounterOfFile(w, fs[0]);
      if NamesAllRelated(w, paths, key) {
        IncrementTimely(w, paths, key, profile, fs, p);
      }
    }
    AllowedConcat(w', writes, tail);
    if NamesAllRelated(w, paths, key) {
      TimelyConcat(w', writes, tail);
    }
  }

  // ------------------------------------------------------------------- sealing

  /** A counter that does not exist is used by no file. */
  lemma {:induction false} NoUses(w: World, h: Handle, path: Path)
    requires Consistent(w) && h != HANDLE_NULL && h !in w.tpm.nv
    ensures !Uses(w, h, path)
  {
    if Uses(w, h, path) {
      CounterOfFile(w, w.files[path].f);
    }
  }

  ghost function CreateCounter(pub: NvPublic): seq<Effect> {
    [DefineCounter(pub), IncrementCounter(pub.handle)]
  }

  /** The world with a new counter. */
  ghost function WithCounter(w: World, pub: NvPublic): World {
    World(w.tpm.(nv := w.tpm.nv[pub.handle := NvIndex(Written(pub), w.highWater + 1)]), w.highWater + 1, w.files,
          w.ledger)
  }

  lemma {:induction false} CreateCounterSafe(w: World, pub: NvPublic)
    requires Consistent(w) && IsNvHandle(pub.handle) && pub.handle !in w.tpm.nv && !pub.written
    ensures AllAllowed(w, CreateCounter(pub)) && AllTimely(w, CreateCounter(pub))
    ensures ApplyAll(w, CreateCounter(pub)) == WithCounter(w, pub)
  {
    var es := CreateCounter(pub);
    var w1 := Apply(w, es[0]);
    assert es[1..] == [IncrementCounter(pub.handle)];
    assert es[1..][1..] == [];
    forall path
      ensures !Uses(w1, pub.handle, path)
    {
      NoUses(w, pub.handle, path);
    }
    var w2 := Apply(w1, es[1]);
    assert w2 == WithCounter(w, pub);
    assert ApplyAll(w1, es[1..]) == w2;
  }

  /** The files that sealing writes are backed by the policy it signs. */
  lemma {:induction false} NewFileOk(w: World, key: PrivateKey, counter: Option<NvIndex>, payload: Bytes,
                                     p: DynamicParams)
    requires Authorization(SHA256, p) in w.ledger
    requires p.key == key && p.signAlg == SHA256 && p.counter == PublicOf(counter)
    requires p.pcrDigests != [] && p.pcrs <= w.tpm.pcrs.Keys
    requires counter.Some? ==>
               && IsNvHandle(counter.value.pub.handle)
               && counter.value.pub == Written(NewCounterPublic(counter.value.pub.handle, KeyName(EcdsaPublic(key))))
               && counter.value.pub.handle in w.tpm.nv && w.tpm.nv[counter.value.pub.handle] == counter.value
               && p.count == counter.value.value + 1
    ensures
      var f := NewKeyFile(EcdsaPublic(key), PublicOf(counter), payload, DynamicDataOf(SHA256, p));
      FileOk(w, f) && UpToDate(w, f)
  {
    var f := NewKeyFile(EcdsaPublic(key), PublicOf(counter), payload, DynamicDataOf(SHA256, p));
    assert CounterOf(w.tpm, f.static_) == Success(counter);
    assert Backed(w.tpm, f, Authorization(SHA256, p));
  }

  lemma {:induction false} CreationsAre(keys: seq<KeyRequest>, authKey: PublicKey, counter: Option<NvPublic>,
                                        dynamic: DynamicData)
    ensures FilesOnly(Creations(keys, authKey, counter, dynamic))
    ensures forall i | 0 <= i < |Creations(keys, authKey, counter, dynamic)| ::
              var e := Creations(keys, authKey, counter, dynamic)[i];
              e.path in RequestPaths(keys) &&
              (e.ReplaceFile? ==> e.f == NewKeyFile(authKey, counter, e.f.priv.payload.key, dynamic)) && !e.RemoveFile?
    decreases |keys|
  {
    if keys != [] {
      var front := keys[..|keys| - 1];
      CreationsAre(front, authKey, counter, dynamic);
      assert RequestPaths(keys) == RequestPaths(front) + [keys[|keys| - 1].path];
    }
  }

  /** Creating the files is safe, and leaves only these files on the counter. */
  lemma {:induction false} CreationsSafe(w: World, keys: seq<KeyRequest>, key: PrivateKey, counter: Option<NvIndex>,
                                         p: DynamicParams)
    requires forall payload ::
               var f := NewKeyFile(EcdsaPublic(key), PublicOf(counter), payload, DynamicDataOf(SHA256, p));
               FileOk(w, f) && UpToDate(w, f)
    ensures
      var es := Creations(keys, EcdsaPublic(key), PublicOf(counter), DynamicDataOf(SHA256, p));
      && AllAllowed(w, es) && AllTimely(w, es)
      && ApplyAll(w, es).tpm == w.tpm && ApplyAll(w, es).ledger == w.ledger
      && forall h, path :: Uses(ApplyAll(w, es), h, path) ==>
           Uses(w, h, path) ||
           (path in RequestPaths(keys) && ApplyAll(w, es).files[path].f.dynamic == DynamicDataOf(SHA256, p))
  {
    var es := Creations(keys, EcdsaPublic(key), PublicOf(counter), DynamicDataOf(SHA256, p));
    CreationsAre(keys, EcdsaPublic(key), PublicOf(counter), DynamicDataOf(SHA256, p));
    FilesOnlyAllowed(w, es);
    FilesOnlyTimely(w, es);
    FilesOnlyKeepsTpm(w, es);
    forall h, path | Uses(ApplyAll(w, es), h, path)
      ensures Uses(w, h, path) ||
              (path in RequestPaths(keys) && ApplyAll(w, es).files[path].f.dynamic == DynamicDataOf(SHA256, p))
    {
      FileAfter(w, es, path);
    }
  }

  /** When sealing fails because a file exists, no requested file remains. */
  lemma {:induction false} RemovalsRemove(w: World, keys: seq<KeyRequest>)
    ensures AllAllowed(w, Removals(keys)) && AllTimely(w, Removals(keys))
    ensures ApplyAll(w, Removals(keys)).tpm == w.tpm && ApplyAll(w, Removals(keys)).ledger == w.ledger
    ensures forall path | path in RequestPaths(keys) :: path !in ApplyAll(w, Removals(keys)).files
    ensures forall path | path !in RequestPaths(keys) && path in ApplyAll(w, Removals(keys)).files ::
              path in w.files && ApplyAll(w, Removals(keys)).files[path] == w.files[path]
  {
    var es := Removals(keys);
    FilesOnlyAllowed(w, es);
    FilesOnlyTimely(w, es);
    FilesOnlyKeepsTpm(w, es);
    forall path
      ensures path in RequestPaths(keys) ==> path !in ApplyAll(w, es).files
      ensures path !in RequestPaths(keys) && path in ApplyAll(w, es).files ==>
                path in w.files && ApplyAll(w, es).files[path] == w.files[path]
    {
      FileAfter(w, es, path);
      if path in RequestPaths(keys) {
        var i :| 0 <= i < |keys| && RequestPaths(keys)[i] == path;
        assert es[i].path == path;
      }
    }
  }

  ghost predicate Safe(w: World, es: seq<Effect>) {
    AllAllowed(w, es) && AllTimely(w, es)
  }

  lemma {:induction false} SafeConcat(w: World, a: seq<Effect>, b: seq<Effect>)
    requires Safe(w, a) && Safe(ApplyAll(w, a), b)
    ensures Safe(w, a + b) && ApplyAll(w, a + b) == ApplyAll(ApplyAll(w, a), b)
  {
    AllowedConcat(w, a, b);
    TimelyConcat(w, a, b);
    ApplyConcat(w, a, b);
  }

  lemma {:induction false} OneSafe(w: World, e: Effect)
    requires Allowed(w, e) && Timely(w, e)
    ensures Safe(w, [e])
  {
    assert [e][1..] == [];
  }

  /** If only requested files use a counter, no file does once the requested files are removed. */
  lemma {:induction false} RemovalsFree(w: World, keys: seq<KeyRequest>, n: nat, h: Handle)
    requires n <= |keys| && forall path | Uses(w, h, path) :: path in RequestPaths(keys[..n])
    ensures Safe(w, Removals(keys)) && forall path :: !Uses(ApplyAll(w, Removals(keys)), h, path)
  {
    RemovalsRemove(w, keys);
    forall path
      ensures !Uses(ApplyAll(w, Removals(keys)), h, path)
    {
      if path in RequestPaths(keys[..n]) {
        var i :| 0 <= i < n && RequestPaths(keys[..n])[i] == path;
        assert RequestPaths(keys)[i] == path;
      }
    }
  }

  lemma {:induction false} RemoveCounterSafe(w: World, written: seq<Effect>, keys: seq<KeyRequest>, n: nat, h: Handle)
    requires n <= |keys| && IsNvHandle(h) && Safe(w, written)
    requires forall path | Uses(ApplyAll(w, written), h, path) :: path in RequestPaths(keys[..n])
    ensures Safe(w, written + Removals(keys) + [UndefineCounter(h)])
  {
    RemovalsFree(ApplyAll(w, written), keys, n, h);
    SafeConcat(w, written, Removals(keys));
    OneSafe(ApplyAll(w, written + Removals(keys)), UndefineCounter(h));
    SafeConcat(w, written + Removals(keys), [UndefineCounter(h)]);
  }

  /** The last steps of sealing with a counter: increment it, or remove everything again. */
  lemma {:induction false} SealTailSafe(w: World, keys: seq<KeyRequest>, n: nat, key: PrivateKey, counter: NvIndex,
                                        p: DynamicParams)
    requires n <= |keys| && IsNvHandle(counter.pub.handle)
    requires counter.pub.handle in w.tpm.nv && w.tpm.nv[counter.pub.handle] == counter && p.count == counter.value + 1
    requires forall path :: !Uses(w, counter.pub.handle, path)
    requires forall payload ::
               var f := NewKeyFile(EcdsaPublic(key), Some(counter.pub), payload, DynamicDataOf(SHA256, p));
               FileOk(w, f) && UpToDate(w, f)
    ensures
      var written := Creations(keys[..n], EcdsaPublic(key), Some(counter.pub), DynamicDataOf(SHA256, p));
      && Safe(w, written + [IncrementCounter(counter.pub.handle)])
      && Safe(w, written + Removals(keys) + [UndefineCounter(counter.pub.handle)])
  {
    var h := counter.pub.handle;
    var written := Creations(keys[..n], EcdsaPublic(key), Some(counter.pub), DynamicDataOf(SHA256, p));
    CreationsSafe(w, keys[..n], key, Some(counter), p);
    RemoveCounterSafe(w, written, keys, n, h);
    OneSafe(ApplyAll(w, written), IncrementCounter(h));
    SafeConcat(w, written, [IncrementCounter(h)]);
  }

  /** Sealing with a new counter gets as far as signing `p`. */
  ghost predicate SealingWith(w: World, keys: seq<KeyRequest>, key: PrivateKey, counter: NvIndex, profile: Profile,
                              p: DynamicParams) {
    var h := counter.pub.handle;
    && keys != [] && IsNvHandle(h) && h !in w.tpm.nv
    && counter == NvIndex(Written(NewCounterPublic(h, KeyName(EcdsaPublic(key)))), w.highWater + 1)
    && NextPolicy(w.tpm, SHA256, SHA256, key, Some(counter), profile) == Success(p)
  }

  /** The changes made by sealing with a counter, once the counter exists. */
  ghost function SealTail(keys: seq<KeyRequest>, n: nat, key: PrivateKey, counter: NvIndex,
                          p: DynamicParams): seq<Effect>
    requires n <= |keys|
  {
    var written := Creations(keys[..n], EcdsaPublic(key), Some(counter.pub), DynamicDataOf(SHA256, p));
    if n < |keys| then written + Removals(keys) + [UndefineCounter(counter.pub.handle)]
    else written + [IncrementCounter(counter.pub.handle)]
  }

  lemma {:induction false} SealPlanWithCounter(w: World, keys: seq<KeyRequest>, key: PrivateKey, handle: Handle,
                                               profile: Profile)
    requires handle != HANDLE_NULL && SealPlan(w, keys, key, handle, profile).effects != []
    ensures IsNvHandle(handle) && handle !in w.tpm.nv
    ensures
      var plan := SealPlan(w, keys, key, handle, profile);
      var pub := NewCounterPublic(handle, KeyName(EcdsaPublic(key)));
      var counter := NvIndex(Written(pub), w.highWater + 1);
      var n := FirstExisting(w.files, keys, 0);
      || (plan.signed == [] && plan.effects == CreateCounter(pub) + [UndefineCounter(handle)])
      || (exists p: DynamicParams :: SealingWith(w, keys, key, counter, profile, p) &&
            plan == Plan([Authorization(SHA256, p)], CreateCounter(pub) + SealTail(keys, n, key, counter, p),
                         if n < |keys| then Failed(FileExists) else Done))
  {
    var pub := NewCounterPublic(handle, KeyName(EcdsaPublic(key)));
    var counter := NvIndex(Written(pub), w.highWater + 1);
    var n := FirstExisting(w.files, keys, 0);
    var next := NextPolicy(w.tpm, SHA256, SHA256, key, Some(counter), profile);
    if next.Success? {
      var p := next.value;
      assert SealingWith(w, keys, key, counter, profile, p);
      TailInPlan(keys, n, key, counter, p, CreateCounter(pub));
    }
  }

  lemma {:induction false} TailInPlan(keys: seq<KeyRequest>, n: nat, key: PrivateKey, counter: NvIndex,
                                      p: DynamicParams, create: seq<Effect>)
    requires n <= |keys|
    ensures
      var written := Creations(keys[..n], EcdsaPublic(key), Some(counter.pub), DynamicDataOf(SHA256, p));
      var h := counter.pub.handle;
      create + SealTail(keys, n, key, counter, p) ==
      if n < |keys| then create + written + Removals(keys) + [UndefineCounter(h)]
      else create + written + [IncrementCounter(h)]
  {
    var written := Creations(keys[..n], EcdsaPublic(key), Some(counter.pub), DynamicDataOf(SHA256, p));
    var h := counter.pub.handle;
    Regroup(create, written, Removals(keys));
    Regroup(create, written + Removals(keys), [UndefineCounter(h)]);
    Regroup(create, written, [IncrementCounter(h)]);
  }

  /** With the counter in place, the rest of sealing is safe. */
  lemma {:induction false} SealRestSafe(w: World, keys: seq<KeyRequest>, n: nat, key: PrivateKey, counter: NvIndex,
                                        profile: Profile, p: DynamicParams)
    requires Consistent(w) && n <= |keys| && SealingWith(w, keys, key, counter, profile, p)
    ensures
      var w' := WithCounter(w.(ledger := w.ledger + [Authorization(SHA256, p)]),
                            NewCounterPublic(counter.pub.handle, KeyName(EcdsaPublic(key))));
      Safe(w', SealTail(keys, n, key, counter, p))
  {
    var h := counter.pub.handle;
    var w' := WithCounter(w.(ledger := w.ledger + [Authorization(SHA256, p)]),
                          NewCounterPublic(h, KeyName(EcdsaPublic(key))));
    ApprovedNotEmpty(profile, w.tpm.pcrs, SHA256);
    assert w'.ledger[|w.ledger|] == Authorization(SHA256, p);
    forall payload
      ensures
        var f := NewKeyFile(EcdsaPublic(key), Some(counter.pub), payload, DynamicDataOf(SHA256, p));
        FileOk(w', f) && UpToDate(w', f)
    {
      NewFileOk(w', key, Some(counter), payload, p);
    }
    forall path
      ensures !Uses(w', h, path)
    {
      NoUses(w, h, path);
    }
    SealTailSafe(w', keys, n, key, counter, p);
  }

  lemma {:induction false} CounterOnlySafe(w: World, pub: NvPublic)
    requires Consistent(w) && IsNvHandle(pub.handle) && pub.handle !in w.tpm.nv && !pub.written
    ensures Safe(w, CreateCounter(pub) + [UndefineCounter(pub.handle)])
  {
    CreateCounterSafe(w, pub);
    var w' := WithCounter(w, pub);
    forall path
      ensures !Uses(w', pub.handle, path)
    {
      NoUses(w, pub.handle, path);
    }
    assert Safe(w', [UndefineCounter(pub.handle)]);
    SafeConcat(w, CreateCounter(pub), [UndefineCounter(pub.handle)]);
  }

  lemma {:induction false} SealWithCounterSafe(w: World, keys: seq<KeyRequest>, key: PrivateKey, handle: Handle,
                                               profile: Profile)
    requires Consistent(w) && handle != HANDLE_NULL
    ensures
      var plan := SealPlan(w, keys, key, handle, profile);
      Safe(w.(ledger := w.ledger + plan.signed), plan.effects)
  {
    var plan := SealPlan(w, keys, key, handle, profile);
    var ws := w.(ledger := w.ledger + plan.signed);
    if plan.effects != [] {
      SigningKeeps(w, Seal(keys, key, handle, profile));
      SealPlanWithCounter(w, keys, key, handle, profile);
      var pub := NewCounterPublic(handle, KeyName(EcdsaPublic(key)));
      var counter := NvIndex(Written(pub), w.highWater + 1);
      var n := FirstExisting(w.files, keys, 0);
      if plan.signed == [] {
        CounterOnlySafe(ws, pub);
      } else {
        var p: DynamicParams :| SealingWith(w, keys, key, counter, profile, p) &&
                                plan == Plan([Authorization(SHA256, p)],
                                             CreateCounter(pub) + SealTail(keys, n, key, counter, p),
                                             if n < |keys| then Failed(FileExists) else Done);
        CreateCounterSafe(ws, pub);
        SealRestSafe(w, keys, n, key, counter, profile, p);
        SafeConcat(ws, CreateCounter(pub), SealTail(keys, n, key, counter, p));
      }
    }
  }

  lemma {:induction false} SealFilesSafe(w: World, keys: seq<KeyRequest>, n: nat, key: PrivateKey, p: DynamicParams)
    requires n <= |keys| && Authorization(SHA256, p) in w.ledger
    requires p.key == key && p.signAlg == SHA256 && p.counter == None && p.pcrDigests != [] && p.pcrs <= w.tpm.pcrs.Keys
    ensures
      var written := Creations(keys[..n], EcdsaPublic(key), None, DynamicDataOf(SHA256, p));
      Safe(w, written) && Safe(w, written + Removals(keys))
  {
    forall payload
      ensures
        var f := NewKeyFile(EcdsaPublic(key), None, payload, DynamicDataOf(SHA256, p));
        FileOk(w, f) && UpToDate(w, f)
    {
      NewFileOk(w, key, None, payload, p);
    }
    var written := Creations(keys[..n], EcdsaPublic(key), None, DynamicDataOf(SHA256, p));
    CreationsSafe(w, keys[..n], key, None, p);
    RemovalsRemove(ApplyAll(w, written), keys);
    SafeConcat(w, written, Removals(keys));
  }

  lemma {:induction false} SealPlanWithoutCounter(w: World, keys: seq<KeyRequest>, key: PrivateKey, profile: Profile)
    ensures
      var plan := SealPlan(w, keys, key, HANDLE_NULL, profile);
      var next := NextPolicy(w.tpm, SHA256, SHA256, key, None, profile);
      var n := FirstExisting(w.files, keys, 0);
      if plan.signed == [] then plan.effects == []
      else
        && next.Success? && plan.signed == [Authorization(SHA256, next.value)]
        && var written := Creations(keys[..n], EcdsaPublic(key), None, DynamicDataOf(SHA256, next.value));
           plan.effects == if n < |keys| then written + Removals(keys) else written
  {
    var n := FirstExisting(w.files, keys, 0);
    if SealPlan(w, keys, key, HANDLE_NULL, profile).signed != [] {
      var p := NextPolicy(w.tpm, SHA256, SHA256, key, None, profile).value;
      EmptyEnds(Creations(keys[..n], EcdsaPublic(key), None, DynamicDataOf(SHA256, p)), Removals(keys));
    }
  }

  lemma {:induction false} EmptyEnds(a: seq<Effect>, b: seq<Effect>)
    ensures [] + a + b + [] == a + b && [] + a + [] == a
  {
  }

  lemma {:induction false} SealWithoutCounterSafe(w: World, keys: seq<KeyRequest>, key: PrivateKey, profile: Profile)
    ensures
      var plan := SealPlan(w, keys, key, HANDLE_NULL, profile);
      Safe(w.(ledger := w.ledger + plan.signed), plan.effects)
  {
    SealPlanWithoutCounter(w, keys, key, profile);
    var plan := SealPlan(w, keys, key, HANDLE_NULL, profile);
    if plan.signed != [] {
      var p := plan.signed[0].params;
      var ws := w.(ledger := w.ledger + [Authorization(SHA256, p)]);
      ApprovedNotEmpty(profile, w.tpm.pcrs, SHA256);
      assert ws.ledger[|w.ledger|] == Authorization(SHA256, p);
      SealFilesSafe(ws, keys, FirstExisting(w.files, keys, 0), key, p);
    }
  }

  // ----------------------------------------------------------------- every run

  lemma {:induction false} ChangePinSafe(w: World, path: Path, oldPin: string, newPin: string)
    requires Consistent(w)
    ensures AllAllowed(w, ChangePinPlan(w, path, oldPin, newPin).effects)
    ensures AllUpToDate(w) ==> AllTimely(w, ChangePinPlan(w, path, oldPin, newPin).effects)
  {
    var plan := ChangePinPlan(w, path, oldPin, newPin);
    if plan.effects != [] {
      var f := w.files[path].f;
      var g := WithPin(f, newPin);
      assert FileOk(w, f);
      var a :| a in w.ledger && Backed(w.tpm, f, a);
      assert Validation(w.tpm, g, None) == Validation(w.tpm, f, None);
      assert Backed(w.tpm, g, a);
      assert plan.effects[1..] == [];
    }
  }

  /** Updates that name every related file; other operations always do. */
  ghost predicate WholeSet(w: World, op: Op) {
    op.Update? ==> NamesAllRelated(w, op.paths, op.authKey)
  }

  lemma {:induction false} SealSafe(w: World, op: Op)
    requires Consistent(w) && op.Seal?
    ensures Safe(Signing(w, op), PlanOf(w, op).effects)
  {
    if op.handle == HANDLE_NULL {
      SealWithoutCounterSafe(w, op.keys, op.authKey, op.profile);
    } else {
      SealWithCounterSafe(w, op.keys, op.authKey, op.handle, op.profile);
    }
  }

  /** The changes of every operation keep the invariant, wherever they stop. */
  lemma {:induction false} OpSafe(w: World, op: Op)
    requires Consistent(w)
    ensures AllAllowed(Signing(w, op), PlanOf(w, op).effects)
    ensures AllUpToDate(w) && WholeSet(w, op) ==> AllTimely(Signing(w, op), PlanOf(w, op).effects)
  {
    match op
    case Seal(_, _, _, _) => SealSafe(w, op);
    case Update(paths, key, profile) => UpdateSafe(w, paths, key, profile);
    case ChangePin(path, oldPin, newPin) =>
      ChangePinSafe(w, path, oldPin, newPin);
      assert w.ledger + [] == w.ledger;
    case Environment(_) =>
  }

  /** One operation, interrupted anywhere or not at all. */
  lemma {:induction false} OpKeeps(w: World, op: Op, power: nat)
    requires Consistent(w)
    ensures Consistent(After(w, op, power))
    ensures AllUpToDate(w) && WholeSet(w, op) ==> AllUpToDate(After(w, op, power))
  {
    OpSafe(w, op);
    SigningKeeps(w, op);
    PlanPrefixKeeps(Signing(w, op), PlanOf(w, op).effects, power);
  }

  lemma {:induction false} PlanPrefixKeeps(w: World, es: seq<Effect>, power: nat)
    requires Consistent(w) && AllAllowed(w, es)
    ensures Consistent(ApplyAll(w, if power < |es| then es[..power] else es))
    ensures AllUpToDate(w) && AllTimely(w, es) ==> AllUpToDate(ApplyAll(w, if power < |es| then es[..power] else es))
  {
    PrefixKeeps(w, es, if power < |es| then power else |es|);
    assert es[..|es|] == es;
  }

  /** Every update of the run names every related file. */
  ghost predicate WholeSets(w: World, attempts: seq<Attempt>)
    decreases |attempts|
  {
    attempts == [] ||
    (WholeSet(w, attempts[0].op) && WholeSets(After(w, attempts[0].op, attempts[0].power), attempts[1..]))
  }

  /** In every run, with power lost anywhere, every key file validates and carries a policy signed for its own
      key and counter; and when every update names the whole related set, that policy's count is the counter
      or the counter plus one. */
  lemma {:induction false} CrashSafety(w: World, attempts: seq<Attempt>)
    requires Consistent(w)
    ensures Consistent(Run(w, attempts))
    ensures AllUpToDate(w) && WholeSets(w, attempts) ==> AllUpToDate(Run(w, attempts))
    decreases |attempts|
  {
    if attempts != [] {
      var (op, power) := (attempts[0].op, attempts[0].power);
      OpKeeps(w, op, power);
      CrashSafety(After(w, op, power), attempts[1..]);
    }
  }
}
