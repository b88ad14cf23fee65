/** The secure boot policy profile: the PCR 7 values of every way to load the boot images that can boot.

    The generator keeps a branch for each pending database update and each way of loading images so far. A branch whose
    next image cannot be authenticated loses its profile, and is left out in the end.
  */
module SecureBootProfile {
  import opened Digests
  import opened PcrProfile
  import opened ProfileArena
  import opened LoadEvents
  import opened SecureBoot

  datatype Branch = Branch(profile: Option<seq<PendingInstr>>, subBranches: seq<nat>, ctx: Context)

  predicate Live(b: Branch) {
    b.profile.Some?
  }

  /** What a branch is waiting for: that the shim it has just loaded starts, and then one of some routes. */
  datatype Awaiting = Awaiting(launch: Option<Image>, routes: seq<seq<LoadEvent>>)

  function LaunchOf(image: Image): Option<Image> {
    if IsShim(image) then Some(image) else None
  }

  ghost function CtxOf(b: Branch, w: Awaiting): Context {
    if w.launch.None? then b.ctx else Launched(b.ctx, w.launch.value)
  }

  // ------------------------------------------------------------ the invariant

  ghost predicate BranchOk(pcr: Pcr, all: seq<Branch>, measured: seq<Path>, i: nat)
    requires i < |all| == |measured|
  {
    && (Live(all[i]) ==> all[i].profile.value == Plains(Extends(pcr, measured[i])))
    && (!Live(all[i]) ==> all[i].subBranches == [])
    && forall k | 0 <= k < |all[i].subBranches| :: i < all[i].subBranches[k] < |all|
  }

  /** `measured` are the digests extended in a branch, and `paths` the digests of all bootable ways through it,
      including those still to come. */
  ghost predicate AwaitOk(alg: HashAlg, all: seq<Branch>, measured: seq<Path>, paths: seq<seq<Path>>, b: nat,
                          w: Awaiting)
    requires b < |all| == |measured| == |paths|
  {
    paths[b] ==
    if Live(all[b]) then
      Prepend(measured[b], Gathered(paths, all[b].subBranches) + BootPaths(alg, CtxOf(all[b], w), w.routes))
    else []
  }

  ghost predicate SettledOk(all: seq<Branch>, measured: seq<Path>, paths: seq<seq<Path>>, i: nat)
    requires i < |all| == |measured| == |paths|
  {
    paths[i] == if Live(all[i]) then Continued(paths, Shape(measured[i], all[i].subBranches)) else []
  }

  ghost predicate State(alg: HashAlg, pcr: Pcr, all: seq<Branch>, measured: seq<Path>, paths: seq<seq<Path>>,
                        await: map<nat, Awaiting>)
  {
    && |all| == |measured| == |paths|
    && (forall i | 0 <= i < |all| :: BranchOk(pcr, all, measured, i))
    && (forall b | b in await :: b < |all| && AwaitOk(alg, all, measured, paths, b, await[b]))
    && (forall i | 0 <= i < |all| && i !in await :: SettledOk(all, measured, paths, i))
  }

  /** A live branch will reach an image that shim should load, without a shim. */
  ghost predicate FaultAt(alg: HashAlg, all: seq<Branch>, await: map<nat, Awaiting>, b: nat) {
    b in await && b < |all| && Live(all[b]) && SomeLacksShim(alg, CtxOf(all[b], await[b]), await[b].routes)
  }

  ghost predicate Faulty(alg: HashAlg, all: seq<Branch>, await: map<nat, Awaiting>) {
    exists b: nat :: FaultAt(alg, all, await, b)
  }

  // --------------------------------------------------------- changing a branch

  predicate OnlyAt(all: seq<Branch>, all': seq<Branch>, b: nat) {
    && |all| == |all'| && b < |all| && (forall i | 0 <= i < |all| && i != b :: all'[i] == all[i])
    && all'[b].subBranches == all[b].subBranches
  }

  /** A branch that is waiting can change as long as the paths through it stay the same. */
  lemma {:induction false} ChangeOne(alg: HashAlg, pcr: Pcr, all: seq<Branch>, measured: seq<Path>,
                                     paths: seq<seq<Path>>, await: map<nat, Awaiting>, b: nat, all': seq<Branch>,
                                     measured': seq<Path>, w: Awaiting)
    requires State(alg, pcr, all, measured, paths, await) && b in await
    requires OnlyAt(all, all', b) && |measured'| == |measured| && forall i | 0 <= i < |all| && i != b ::
               measured'[i] == measured[i]
    requires BranchOk(pcr, all', measured', b) && AwaitOk(alg, all', measured', paths, b, w)
    ensures State(alg, pcr, all', measured', paths, await[b := w])
  {
    forall i | 0 <= i < |all'|
      ensures BranchOk(pcr, all', measured', i)
    {
      assert BranchOk(pcr, all, measured, i);
    }
    var await' := await[b := w];
    forall c | c in await'
      ensures c < |all'| && AwaitOk(alg, all', measured', paths, c, await'[c])
    {
      assert c != b ==> AwaitOk(alg, all, measured, paths, c, await[c]);
    }
    forall i | 0 <= i < |all'| && i !in await'
      ensures SettledOk(all', measured', paths, i)
    {
      assert SettledOk(all, measured, paths, i);
    }
  }

  lemma {:induction false} FaultsStay(alg: HashAlg, all: seq<Branch>, await: map<nat, Awaiting>, b: nat,
                                      all': seq<Branch>, await': map<nat, Awaiting>)
    requires OnlyAt(all, all', b) && (forall c | c != b :: c in await <==> c in await')
    requires forall c | c in await && c != b :: await'[c] == await[c]
    requires FaultAt(alg, all, await, b) <==> FaultAt(alg, all', await', b)
    ensures Faulty(alg, all, await) <==> Faulty(alg, all', await')
  {
    forall c: nat
      ensures FaultAt(alg, all, await, c) <==> FaultAt(alg, all', await', c)
    {
    }
  }

  /** A branch after verifying an image. */
  function Verified(b: Branch, pcr: Pcr, v: Verdict): Branch {
    if !Live(b) then b
    else
      match v
      case Boots(ctx, measured) => b.(profile := Some(b.profile.value + Plains(Extends(pcr, measured))), ctx := ctx)
      case _ => b.(profile := None)
  }

  function VerifiedMeasured(b: Branch, measured: Path, v: Verdict): Path {
    if Live(b) && v.Boots? then measured + v.measured else measured
  }

  lemma {:induction false} ExtendsConcat(pcr: Pcr, a: Path, b: Path)
    ensures Plains(Extends(pcr, a)) + Plains(Extends(pcr, b)) == Plains(Extends(pcr, a + b))
  {
  }

  lemma {:induction false} NothingGathered(paths: seq<seq<Path>>, more: seq<Path>)
    ensures Gathered(paths, []) + more == more
  {
  }

  /** Verifying the next image keeps the paths through a branch, and does not settle whether a shim is missing. */
  lemma {:induction false} VerifyStep(alg: HashAlg, pcr: Pcr, all: seq<Branch>, measured: seq<Path>,
                                      paths: seq<seq<Path>>, await: map<nat, Awaiting>, b: nat, e: LoadEvent,
                                      v: Verdict, all': seq<Branch>, measured': seq<Path>, w: Awaiting)
    requires State(alg, pcr, all, measured, paths, await) && b in await && await[b] == Awaiting(None, Routes(e))
    requires all[b].subBranches == [] && e.image.signers.Some? && v == Verify(alg, all[b].ctx, e)
    requires all' == all[b := Verified(all[b], pcr, v)]
    requires measured' == measured[b := VerifiedMeasured(all[b], measured[b], v)]
    requires w == Awaiting(LaunchOf(e.image), RoutesFrom(e.next))
    ensures State(alg, pcr, all', measured', paths, await[b := w])
  {
    assert BranchOk(pcr, all, measured, b) && AwaitOk(alg, all, measured, paths, b, await[b]);
    var ctx := all[b].ctx;
    BootPathsLed(alg, ctx, e, RoutesFrom(e.next));
    if Live(all[b]) {
      NothingGathered(paths, BootPaths(alg, ctx, Routes(e)));
      if v.Boots? {
        var rest := BootPaths(alg, Launched(v.ctx, e.image), RoutesFrom(e.next));
        NothingGathered(paths, rest);
        PrependTwice(measured[b], v.measured, rest);
        ExtendsConcat(pcr, measured[b], v.measured);
      }
    }
    ChangeOne(alg, pcr, all, measured, paths, await, b, all', measured', w);
  }

  lemma {:induction false} VerifyFaults(alg: HashAlg, pcr: Pcr, all: seq<Branch>, await: map<nat, Awaiting>, b: nat,
                                        e: LoadEvent, v: Verdict, all': seq<Branch>, w: Awaiting)
    requires b in await && b < |all| && await[b] == Awaiting(None, Routes(e)) && e.image.signers.Some?
    requires v == Verify(alg, all[b].ctx, e) && all' == all[b := Verified(all[b], pcr, v)]
    requires w == Awaiting(LaunchOf(e.image), RoutesFrom(e.next))
    ensures Live(all[b]) && v.NoShim? ==> Faulty(alg, all, await)
    ensures !(Live(all[b]) && v.NoShim?) ==> (Faulty(alg, all, await) <==> Faulty(alg, all', await[b := w]))
  {
    LacksShimLed(alg, all[b].ctx, e, RoutesFrom(e.next));
    RoutesExist(e.next);
    if Live(all[b]) && v.NoShim? {
      assert FaultAt(alg, all, await, b);
    } else {
      FaultsStay(alg, all, await, b, all', await[b := w]);
    }
  }

  lemma {:induction false} RoutesExist(es: seq<LoadEvent>)
    ensures RoutesFrom(es) != []
    decreases es
  {
    if es != [] {
      RoutesExist(es[0].next);
      assert |Routes(es[0])| == |RoutesFrom(es[0].next)|;
    }
  }

  /** Starting a shim. */
  lemma {:induction false} LaunchStep(alg: HashAlg, pcr: Pcr, all: seq<Branch>, measured: seq<Path>,
                                      paths: seq<seq<Path>>, await: map<nat, Awaiting>, b: nat, image: Image,
                                      all': seq<Branch>, w: Awaiting)
    requires State(alg, pcr, all, measured, paths, await) && b in await && await[b].launch == Some(image)
    requires all' == all[b := all[b].(ctx := Launched(all[b].ctx, image))] && w == Awaiting(None, await[b].routes)
    ensures State(alg, pcr, all', measured, paths, await[b := w])
    ensures Faulty(alg, all, await) <==> Faulty(alg, all', await[b := w])
  {
    assert BranchOk(pcr, all, measured, b) && AwaitOk(alg, all, measured, paths, b, await[b]);
    ChangeOne(alg, pcr, all, measured, paths, await, b, all', measured, w);
    FaultsStay(alg, all, await, b, all', await[b := w]);
  }

  // ------------------------------------------------------ creating sub-branches

  /** A sub-branch inherits the context of its branch. */
  function SubBranch(b: Branch): Branch {
    Branch(Some([]), [], b.ctx)
  }

  function Forked(all: seq<Branch>, b: nat): seq<Branch>
    requires b < |all|
  {
    all[b := all[b].(subBranches := all[b].subBranches + [|all|])] + [SubBranch(all[b])]
  }

  lemma {:induction false} GatheredOneMore(paths: seq<seq<Path>>, branches: seq<nat>, new_: seq<Path>)
    requires forall k | 0 <= k < |branches| :: branches[k] < |paths|
    ensures Gathered(paths + [new_], branches) == Gathered(paths, branches)
    ensures Gathered(paths + [new_], branches + [|paths|]) == Gathered(paths, branches) + new_
  {
    GatheredLocal(paths, paths + [new_], branches);
    GatheredConcat(paths + [new_], branches, [|paths|]);
    assert [|paths|][1..] == [];
    assert Gathered(paths + [new_], [|paths|]) == new_ + [] == new_;
  }

  lemma {:induction false} ForkAwaitOk(alg: HashAlg, pcr: Pcr, all: seq<Branch>, measured: seq<Path>,
                                       paths: seq<seq<Path>>, b: nat, n: LoadEvent, rest: seq<seq<LoadEvent>>)
    requires b < |all| == |measured| == |paths| && Live(all[b]) && BranchOk(pcr, all, measured, b)
    requires AwaitOk(alg, all, measured, paths, b, Awaiting(None, Routes(n) + rest))
    ensures
      var new_ := BootPaths(alg, all[b].ctx, Routes(n));
      && AwaitOk(alg, Forked(all, b), measured + [[]], paths + [new_], b, Awaiting(None, rest))
      && AwaitOk(alg, Forked(all, b), measured + [[]], paths + [new_], |all|, Awaiting(None, Routes(n)))
  {
    var ctx := all[b].ctx;
    var new_ := BootPaths(alg, ctx, Routes(n));
    BootPathsConcat(alg, ctx, Routes(n), rest);
    GatheredOneMore(paths, all[b].subBranches, new_);
    Regroup(Gathered(paths, all[b].subBranches), new_, BootPaths(alg, ctx, rest));
    NothingGathered(paths + [new_], new_);
    PrependNothing(new_);
  }

  lemma {:induction false} ForkBranchOk(pcr: Pcr, all: seq<Branch>, measured: seq<Path>, b: nat, i: nat)
    requires b < |all| == |measured| && i <= |all| && Live(all[b])
    requires i < |all| ==> BranchOk(pcr, all, measured, i)
    ensures BranchOk(pcr, Forked(all, b), measured + [[]], i)
  {
    if i == |all| {
      assert Plains(Extends(pcr, [])) == [];
    }
  }

  /** The other branches do not notice. */
  lemma {:induction false} ForkElsewhere(alg: HashAlg, pcr: Pcr, all: seq<Branch>, measured: seq<Path>,
                                         paths: seq<seq<Path>>, b: nat, new_: seq<Path>, i: nat, w: Awaiting)
    requires b < |all| == |measured| == |paths| && i < |all| && i != b && BranchOk(pcr, all, measured, i)
    ensures AwaitOk(alg, all, measured, paths, i, w) ==>
              AwaitOk(alg, Forked(all, b), measured + [[]], paths + [new_], i, w)
    ensures SettledOk(all, measured, paths, i) ==> SettledOk(Forked(all, b), measured + [[]], paths + [new_], i)
  {
    GatheredLocal(paths, paths + [new_], all[i].subBranches);
  }

  lemma {:induction false} ForkAwaitsAt(alg: HashAlg, pcr: Pcr, all: seq<Branch>, measured: seq<Path>,
                                        paths: seq<seq<Path>>, await: map<nat, Awaiting>, b: nat, n: LoadEvent,
                                        rest: seq<seq<LoadEvent>>, new_: seq<Path>, c: nat, w: Awaiting)
    requires State(alg, pcr, all, measured, paths, await) && b in await && Live(all[b])
    requires await[b] == Awaiting(None, Routes(n) + rest) && new_ == BootPaths(alg, all[b].ctx, Routes(n))
    requires || (c == b && w == Awaiting(None, rest)) || (c == |all| && w == Awaiting(None, Routes(n)))
             || (c != b && c in await && w == await[c])
    ensures c <= |all| && AwaitOk(alg, Forked(all, b), measured + [[]], paths + [new_], c, w)
  {
    if c == b || c == |all| {
      assert BranchOk(pcr, all, measured, b) && AwaitOk(alg, all, measured, paths, b, await[b]);
      ForkAwaitOk(alg, pcr, all, measured, paths, b, n, rest);
    } else {
      assert AwaitOk(alg, all, measured, paths, c, await[c]) && BranchOk(pcr, all, measured, c);
      ForkElsewhere(alg, pcr, all, measured, paths, b, new_, c, await[c]);
    }
  }

  lemma {:induction false} ForkSettledAt(alg: HashAlg, pcr: Pcr, all: seq<Branch>, measured: seq<Path>,
                                         paths: seq<seq<Path>>, await: map<nat, Awaiting>, b: nat, new_: seq<Path>,
                                         i: nat)
    requires State(alg, pcr, all, measured, paths, await) && b in await && i < |all| && i !in await
    ensures SettledOk(Forked(all, b), measured + [[]], paths + [new_], i)
  {
    assert SettledOk(all, measured, paths, i) && BranchOk(pcr, all, measured, i);
    ForkElsewhere(alg, pcr, all, measured, paths, b, new_, i, await[b]);
  }

  /** Creating a sub-branch for the first of the remaining load events. */
  lemma {:induction false} ForkStep(alg: HashAlg, pcr: Pcr, all: seq<Branch>, measured: seq<Path>,
                                    paths: seq<seq<Path>>, await: map<nat, Awaiting>, b: nat, n: LoadEvent,
                                    rest: seq<seq<LoadEvent>>, all': seq<Branch>, measured': seq<Path>,
                                    paths': seq<seq<Path>>, await': map<nat, Awaiting>)
    requires State(alg, pcr, all, measured, paths, await) && b in await && Live(all[b])
    requires await[b] == Awaiting(None, Routes(n) + rest)
    requires all' == Forked(all, b) && measured' == measured + [[]] &&
             paths' == paths + [BootPaths(alg, all[b].ctx, Routes(n))]
    requires await' == await[b := Awaiting(None, rest)][|all| := Awaiting(None, Routes(n))]
    ensures State(alg, pcr, all', measured', paths', await')
  {
    var new_ := BootPaths(alg, all[b].ctx, Routes(n));
    assert await'.Keys == await.Keys + {|all|};
    forall i: nat | i < |all'|
      ensures BranchOk(pcr, all', measured', i)
    {
      ForkBranchOk(pcr, all, measured, b, i);
    }
    forall c | c in await'
      ensures c < |all'| && AwaitOk(alg, all', measured', paths', c, await'[c])
    {
      ForkAwaitsAt(alg, pcr, all, measured, paths, await, b, n, rest, new_, c, await'[c]);
    }
    forall i: nat | i < |all'| && i !in await'.Keys
      ensures SettledOk(all', measured', paths', i)
    {
      assert i != |all|;
      assert i < |all|;
      assert i !in await;
      ForkSettledAt(alg, pcr, all, measured, paths, await, b, new_, i);
    }
  }

  lemma {:induction false} ForkFaults(alg: HashAlg, all: seq<Branch>, await: map<nat, Awaiting>, b: nat, n: LoadEvent,
                                      rest: seq<seq<LoadEvent>>, all': seq<Branch>, await': map<nat, Awaiting>)
    requires b in await && b < |all| && Live(all[b]) && (forall c | c in await :: c < |all|)
    requires await[b] == Awaiting(None, Routes(n) + rest) && all' == Forked(all, b)
    requires await' == await[b := Awaiting(None, rest)][|all| := Awaiting(None, Routes(n))]
    ensures Faulty(alg, all, await) <==> Faulty(alg, all', await')
  {
    BootPathsConcat(alg, all[b].ctx, Routes(n), rest);
    assert FaultAt(alg, all, await, b) <==> FaultAt(alg, all', await', b) || FaultAt(alg, all', await', |all|);
    forall c: nat | c != b && c != |all|
      ensures FaultAt(alg, all, await, c) <==> FaultAt(alg, all', await', c)
    {
    }
    if Faulty(alg, all, await) {
      var c: nat :| FaultAt(alg, all, await, c);
      assert FaultAt(alg, all', await', c) || FaultAt(alg, all', await', |all|);
    }
    if Faulty(alg, all', await') {
      var c: nat :| FaultAt(alg, all', await', c);
      assert FaultAt(alg, all, await, c) || FaultAt(alg, all, await, b);
    }
  }

  /** Nothing is left to wait for: the last image was loaded, or all load events have sub-branches, or the branch is
      dead. */
  ghost predicate Complete(b: Branch, w: Awaiting) {
    || !Live(b)
    || (w.launch.None? && b.subBranches == [] && w.routes == [[]])
    || (w.launch.None? && b.subBranches != [] && w.routes == [])
  }

  lemma {:induction false} LastRoute(alg: HashAlg, ctx: Context)
    ensures BootPaths(alg, ctx, [[]]) == [[]] && !SomeLacksShim(alg, ctx, [[]])
  {
    var last: seq<seq<LoadEvent>> := [[]];
    assert last[1..] == [] && last[0] == [];
  }

  lemma {:induction false} CompleteIsSettled(alg: HashAlg, all: seq<Branch>, measured: seq<Path>, paths: seq<seq<Path>>,
                                             b: nat, w: Awaiting)
    requires b < |all| == |measured| == |paths| && AwaitOk(alg, all, measured, paths, b, w) && Complete(all[b], w)
    ensures SettledOk(all, measured, paths, b)
  {
    LastRoute(alg, CtxOf(all[b], w));
    if Live(all[b]) {
      if w.routes == [] {
        assert Gathered(paths, all[b].subBranches) + [] == Gathered(paths, all[b].subBranches);
      } else {
        NothingGathered(paths, [[]]);
      }
    }
  }

  lemma {:induction false} SettleFaults(alg: HashAlg, all: seq<Branch>, await: map<nat, Awaiting>, b: nat,
                                        await': map<nat, Awaiting>)
    requires b in await && b < |all| && Complete(all[b], await[b]) && await' == await - {b}
    ensures Faulty(alg, all, await) <==> Faulty(alg, all, await')
  {
    LastRoute(alg, CtxOf(all[b], await[b]));
    assert !FaultAt(alg, all, await, b);
    forall c: nat
      ensures FaultAt(alg, all, await, c) <==> FaultAt(alg, all, await', c)
    {
    }
  }

  lemma {:induction false} SettleStep(alg: HashAlg, pcr: Pcr, all: seq<Branch>, measured: seq<Path>,
                                      paths: seq<seq<Path>>, await: map<nat, Awaiting>, b: nat,
                                      await': map<nat, Awaiting>)
    requires State(alg, pcr, all, measured, paths, await) && b in await && Complete(all[b], await[b])
    requires await' == await - {b}
    ensures State(alg, pcr, all, measured, paths, await')
    ensures Faulty(alg, all, await) <==> Faulty(alg, all, await')
  {
    SettleFaults(alg, all, await, b, await');
    forall i | 0 <= i < |all| && i !in await'
      ensures SettledOk(all, measured, paths, i)
    {
      if i == b {
        CompleteIsSettled(alg, all, measured, paths, b, await[b]);
      }
    }
  }

  // ------------------------------------------------------------------ the queue

  predicate NoDup(s: seq<nat>) {
    forall i, j | 0 <= i < j < |s| :: s[i] != s[j]
  }

  function Elements(s: seq<nat>): set<nat> {
    set x | x in s
  }

  function Union(queue: seq<Pending<seq<nat>>>): set<nat> {
    if queue == [] then {} else Elements(queue[0].at) + Union(queue[1..])
  }

  /** No branch waits twice. */
  predicate Separate(queue: seq<Pending<seq<nat>>>) {
    queue != [] ==>
      NoDup(queue[0].at) && Elements(queue[0].at) !! Union(queue[1..]) && Separate(queue[1..])
  }

  /** The branches wait for the same, and have no sub-branches. */
  ghost predicate Waits(all: seq<Branch>, await: map<nat, Awaiting>, branches: seq<nat>, w: Awaiting) {
    forall k | 0 <= k < |branches| ::
      branches[k] in await && branches[k] < |all| && await[branches[k]] == w && all[branches[k]].subBranches == []
  }

  ghost predicate QueueWaits(all: seq<Branch>, await: map<nat, Awaiting>, queue: seq<Pending<seq<nat>>>) {
    forall k | 0 <= k < |queue| :: Waits(all, await, queue[k].at, Awaiting(None, Routes(queue[k].event)))
  }

  lemma {:induction false} UnionConcat(a: seq<Pending<seq<nat>>>, b: seq<Pending<seq<nat>>>)
    ensures Union(a + b) == Union(a) + Union(b)
    decreases |a|
  {
    if a == [] {
      assert a + b == b;
    } else {
      assert (a + b)[1..] == a[1..] + b;
      UnionConcat(a[1..], b);
    }
  }

  lemma {:induction false} SeparateConcat(a: seq<Pending<seq<nat>>>, b: seq<Pending<seq<nat>>>)
    requires Separate(a) && Separate(b) && Union(a) !! Union(b)
    ensures Separate(a + b)
    decreases |a|
  {
    if a == [] {
      assert a + b == b;
    } else {
      assert (a + b)[1..] == a[1..] + b;
      SeparateConcat(a[1..], b);
      UnionConcat(a[1..], b);
    }
  }

  lemma {:induction false} InUnion(queue: seq<Pending<seq<nat>>>, k: nat, j: nat)
    requires k < |queue| && j < |queue[k].at|
    ensures queue[k].at[j] in Union(queue)
    decreases k
  {
    if k == 0 {
      assert queue[0].at[j] in Elements(queue[0].at);
    } else {
      InUnion(queue[1..], k - 1, j);
    }
  }

  /** What happens to other branches does not disturb the queue. */
  lemma {:induction false} QueueUndisturbed(all: seq<Branch>, await: map<nat, Awaiting>, queue: seq<Pending<seq<nat>>>,
                                            all': seq<Branch>, await': map<nat, Awaiting>)
    requires QueueWaits(all, await, queue) && |all| <= |all'|
    requires forall b | b in Union(queue) && b in await && b < |all| ::
               b in await' && await'[b] == await[b] && all'[b].subBranches == all[b].subBranches
    ensures QueueWaits(all', await', queue)
  {
    forall k | 0 <= k < |queue|
      ensures Waits(all', await', queue[k].at, Awaiting(None, Routes(queue[k].event)))
    {
      assert Waits(all, await, queue[k].at, Awaiting(None, Routes(queue[k].event)));
      forall j | 0 <= j < |queue[k].at|
        ensures queue[k].at[j] in Union(queue)
      {
        InUnion(queue, k, j);
      }
    }
  }

  // --------------------------------------------------------- the finished profile

  function LiveOnes(all: seq<Branch>, branches: seq<nat>): (r: seq<nat>)
    ensures forall k | 0 <= k < |r| :: r[k] < |all| && Live(all[r[k]]) && r[k] in branches
  {
    if branches == [] then []
    else (if branches[0] < |all| && Live(all[branches[0]]) then [branches[0]] else []) + LiveOnes(all, branches[1..])
  }

  /** A branch after pruning: it offers its live sub-branches, and is given up if it has none. */
  ghost predicate PrunedTo(all: seq<Branch>, all': seq<Branch>, i: nat)
    requires i < |all| == |all'|
  {
    if all[i].subBranches == [] then all'[i] == all[i]
    else
      var live := LiveOnes(all', all[i].subBranches);
      if live == [] then all'[i] == all[i].(profile := None)
      else Live(all[i]) && all'[i] == all[i].(profile := Some(all[i].profile.value + [OrOf(live)]))
  }

  ghost predicate Pruned(all: seq<Branch>, all': seq<Branch>) {
    |all| == |all'| && forall i | 0 <= i < |all| :: PrunedTo(all, all', i)
  }

  ghost predicate LiveMeansPaths(all': seq<Branch>, paths: seq<seq<Path>>, i: nat) {
    i < |all'| == |paths| && (Live(all'[i]) <==> paths[i] != [])
  }

  lemma {:induction false} GatheredLive(all': seq<Branch>, paths: seq<seq<Path>>, branches: seq<nat>)
    requires forall k | 0 <= k < |branches| :: LiveMeansPaths(all', paths, branches[k])
    ensures Gathered(paths, LiveOnes(all', branches)) == Gathered(paths, branches)
    ensures LiveOnes(all', branches) == [] <==> Gathered(paths, branches) == []
    decreases |branches|
  {
    if branches != [] {
      assert LiveMeansPaths(all', paths, branches[0]);
      var first := if Live(all'[branches[0]]) then [branches[0]] else [];
      GatheredLive(all', paths, branches[1..]);
      GatheredConcat(paths, first, LiveOnes(all', branches[1..]));
      assert [branches[0]][1..] == [];
    }
  }

  /** Exactly the branches with a bootable path survive. */
  lemma {:induction false} SurvivesExactly(alg: HashAlg, pcr: Pcr, all: seq<Branch>, measured: seq<Path>,
                                           paths: seq<seq<Path>>, all': seq<Branch>, i: nat)
    requires State(alg, pcr, all, measured, paths, map[]) && Pruned(all, all') && i < |all|
    ensures LiveMeansPaths(all', paths, i)
    decreases |all| - i
  {
    assert BranchOk(pcr, all, measured, i) && SettledOk(all, measured, paths, i) && PrunedTo(all, all', i);
    var subs := all[i].subBranches;
    forall k | 0 <= k < |subs|
      ensures LiveMeansPaths(all', paths, subs[k])
    {
      SurvivesExactly(alg, pcr, all, measured, paths, all', subs[k]);
    }
    GatheredLive(all', paths, subs);
  }

  function Bodies(all: seq<Branch>): (r: seq<seq<PendingInstr>>)
    ensures |r| == |all|
    ensures forall i | 0 <= i < |r| :: r[i] == if Live(all[i]) then all[i].profile.value else []
  {
    seq(|all|, i requires 0 <= i < |all| => if Live(all[i]) then all[i].profile.value else [])
  }

  function LiveFlags(all: seq<Branch>): (r: seq<bool>)
    ensures |r| == |all| && forall i | 0 <= i < |r| :: r[i] == Live(all[i])
  {
    seq(|all|, i requires 0 <= i < |all| => Live(all[i]))
  }

  function Shapes(all: seq<Branch>, all': seq<Branch>, measured: seq<Path>): (r: seq<Shape>)
    requires |all| == |measured|
    ensures |r| == |all| && forall i | 0 <= i < |r| :: r[i] == Shape(measured[i], LiveOnes(all', all[i].subBranches))
  {
    seq(|all|, i requires 0 <= i < |all| => Shape(measured[i], LiveOnes(all', all[i].subBranches)))
  }

  lemma {:induction false} SurvivorFinished(alg: HashAlg, pcr: Pcr, all: seq<Branch>, measured: seq<Path>,
                                            paths: seq<seq<Path>>, all': seq<Branch>, i: nat)
    requires State(alg, pcr, all, measured, paths, map[]) && Pruned(all, all') && i < |all| && Live(all'[i])
    ensures Finished(Bodies(all'), paths, LiveFlags(all'), pcr, i,
                     Shape(measured[i], LiveOnes(all', all[i].subBranches)))
  {
    assert BranchOk(pcr, all, measured, i) && SettledOk(all, measured, paths, i) && PrunedTo(all, all', i);
    var subs := all[i].subBranches;
    forall k | 0 <= k < |subs|
      ensures LiveMeansPaths(all', paths, subs[k])
    {
      SurvivesExactly(alg, pcr, all, measured, paths, all', subs[k]);
    }
    GatheredLive(all', paths, subs);
    assert Plains(Extends(pcr, measured[i])) + [] == Plains(Extends(pcr, measured[i]));
    var live := LiveOnes(all', subs);
    forall k | 0 <= k < |live|
      ensures i < live[k] < |all'| && LiveFlags(all')[live[k]]
    {
      assert live[k] in subs;
    }
  }

  /** The profiles of some branches. */
  function ResolveAll(table: seq<seq<PendingInstr>>, branches: seq<nat>): seq<Profile>
    requires forall k | 0 <= k < |branches| :: branches[k] < |table|
  {
    if branches == [] then [] else [Resolve(table, branches[0])] + ResolveAll(table, branches[1..])
  }

  lemma {:induction false} SurvivorsMean(alg: HashAlg, pcr: Pcr, all: seq<Branch>, measured: seq<Path>,
                                         paths: seq<seq<Path>>, all': seq<Branch>, branches: seq<nat>,
                                         vs: seq<PcrValues>, tpm: PcrValues)
    requires State(alg, pcr, all, measured, paths, map[]) && Pruned(all, all')
    requires forall k | 0 <= k < |branches| :: branches[k] < |all'| && Live(all'[branches[k]])
    ensures DenoteEach(ResolveAll(Bodies(all'), branches), vs, tpm) ==
            Success(Spread(vs, pcr, Gathered(paths, branches)))
    decreases |branches|
  {
    if branches != [] {
      var table, live, shapes := Bodies(all'), LiveFlags(all'), Shapes(all, all', measured);
      forall i | 0 <= i < |table| && live[i]
        ensures Finished(table, paths, live, pcr, i, shapes[i])
      {
        SurvivorFinished(alg, pcr, all, measured, paths, all', i);
      }
      assert branches[0] < |all'| && Live(all'[branches[0]]);
      FinishedMeans(table, paths, live, pcr, 0, shapes, branches[0], vs, tpm);
      SurvivorsMean(alg, pcr, all, measured, paths, all', branches[1..], vs, tpm);
      SpreadConcat(vs, pcr, paths[branches[0]], Gathered(paths, branches[1..]));
      assert ResolveAll(table, branches)[1..] == ResolveAll(table, branches[1..]);
    }
  }
}
