/** The secure boot policy generator at work: branches that change step by step while the load events are processed. */
module SecureBootGenerator {
  import opened Digests
  import opened PcrProfile
  import opened ProfileArena
  import opened LoadEvents
  import opened SecureBoot
  import opened SecureBootProfile


  /** What the generator holds at some moment. */
  datatype View = View(all: seq<Branch>, measured: seq<Path>, paths: seq<seq<Path>>, await: map<nat, Awaiting>)

  ghost predicate Good(alg: HashAlg, pcr: Pcr, v: View) {
    State(alg, pcr, v.all, v.measured, v.paths, v.await)
  }

  ghost predicate Fault(alg: HashAlg, v: View) {
    Faulty(alg, v.all, v.await)
  }

  /** Nothing happened to branches outside of `cur`, except that new ones may have been created. */
  ghost predicate Outside(v: View, v': View, cur: set<nat>) {
    && |v.all| <= |v'.all| && v.paths <= v'.paths
    && forall i: nat | i < |v.all| && i !in cur ::
         v'.all[i] == v.all[i] && (i in v.await <==> i in v'.await) && (i in v.await ==> v'.await[i] == v.await[i])
  }

  ghost predicate AllWait(v: View, branches: seq<nat>, w: Awaiting) {
    Waits(v.all, v.await, branches, w)
  }

  ghost predicate SameKeys(v: View, v': View) {
    |v.all| == |v'.all| && v.await.Keys == v'.await.Keys
  }

  lemma {:induction false} NothingMeasured(pcr: Pcr, profile: seq<PendingInstr>)
    ensures profile + Plains(Extends(pcr, [])) == profile
  {
    assert Plains(Extends(pcr, [])) == [];
  }

  /** One more of the branches has been handled. */
  lemma {:induction false} OneMoreWaits(v0: View, v: View, v': View, cur: seq<nat>, j: nat, before: Awaiting,
                                        w: Awaiting)
    requires NoDup(cur) && j < |cur| && SameKeys(v0, v) && Outside(v0, v, Elements(cur))
    requires AllWait(v, cur[..j], w) && AllWait(v, cur[j..], before)
    requires OnlyAt(v.all, v'.all, cur[j]) && v'.await == v.await[cur[j] := w] && v'.paths == v.paths
    ensures AllWait(v', cur[..j + 1], w) && AllWait(v', cur[j + 1..], before)
    ensures SameKeys(v0, v') && Outside(v0, v', Elements(cur))
  {
    assert cur[j] == cur[j..][0];
    var done: seq<nat>, todo: seq<nat> := cur[..j + 1], cur[j + 1..];
    forall k | 0 <= k < |done|
      ensures done[k] in v'.await && done[k] < |v'.all| && v'.await[done[k]] == w && v'.all[done[k]].subBranches == []
    {
      assert k < j ==> cur[..j][k] == cur[k];
    }
    forall k | 0 <= k < |todo|
      ensures todo[k] in v'.await && todo[k] < |v'.all| && v'.await[todo[k]] == before &&
              v'.all[todo[k]].subBranches == []
    {
      assert todo[k] == cur[j..][k + 1] == cur[j + 1 + k];
    }
    assert cur[j] in Elements(cur);
  }

  // ------------------------------------------------- creating sub-branches

  /** A branch that is being split waits for `w` if it is live; `split` says that it has sub-branches. */
  ghost predicate Splits(v: View, live: bool, b: nat, w: Awaiting, split: bool) {
    && b in v.await && b < |v.all| && Live(v.all[b]) == live
    && (live ==> v.await[b] == w && (split ==> v.all[b].subBranches != []))
  }

  ghost predicate AllSplit(v0: View, v: View, cur: seq<nat>, w: Awaiting, split: bool) {
    forall k | 0 <= k < |cur| :: cur[k] < |v0.all| && Splits(v, Live(v0.all[cur[k]]), cur[k], w, split)
  }

  /** The first `j` branches have a sub-branch for load event `n`; `children` are the new sub-branches. */
  ghost predicate Forking(v0: View, v: View, cur: seq<nat>, j: nat, n: LoadEvent, rest: seq<seq<LoadEvent>>,
                          children: seq<nat>)
    requires forall k | 0 <= k < |cur| :: cur[k] < |v0.all|
  {
    && |v.all| == |v0.all| + |children| && children == Numbers(|v0.all|, |children|)
    && v.await.Keys == v0.await.Keys + Elements(children)
    && Outside(v0, v, Elements(cur)) && AllWait(v, children, Awaiting(None, Routes(n)))
    && SplitSoFar(v0, v, cur, j, n, rest)
  }

  ghost predicate SplitSoFar(v0: View, v: View, cur: seq<nat>, j: nat, n: LoadEvent, rest: seq<seq<LoadEvent>>)
    requires forall k | 0 <= k < |cur| :: cur[k] < |v0.all|
  {
    && (forall k | 0 <= k < j && k < |cur| :: Splits(v, Live(v0.all[cur[k]]), cur[k], Awaiting(None, rest), true))
    && (forall k | j <= k < |cur| :: Splits(v, Live(v0.all[cur[k]]), cur[k], Awaiting(None, Routes(n) + rest), false))
  }

  /** Creating one sub-branch. */
  ghost predicate ForkedAt(v: View, v': View, b: nat, n: LoadEvent, rest: seq<seq<LoadEvent>>) {
    && b < |v.all| && v'.all == Forked(v.all, b) && v.paths <= v'.paths
    && v'.await == v.await[b := Awaiting(None, rest)][|v.all| := Awaiting(None, Routes(n))]
  }

  lemma {:induction false} ForkChildren(v: View, v': View, b: nat, n: LoadEvent, rest: seq<seq<LoadEvent>>,
                                        children: seq<nat>)
    requires ForkedAt(v, v', b, n, rest) && AllWait(v, children, Awaiting(None, Routes(n))) && b !in children
    ensures AllWait(v', children + [|v.all|], Awaiting(None, Routes(n)))
  {
    var more: seq<nat> := children + [|v.all|];
    forall k | 0 <= k < |more|
      ensures more[k] in v'.await && more[k] < |v'.all| && v'.await[more[k]] == Awaiting(None, Routes(n)) &&
              v'.all[more[k]].subBranches == []
    {
      assert k < |children| ==> more[k] == children[k] && children[k] != b;
    }
  }

  lemma {:induction false} ForkKeys(v: View, v': View, b: nat, n: LoadEvent, rest: seq<seq<LoadEvent>>, keys: set<nat>,
                                    children: set<nat>)
    requires ForkedAt(v, v', b, n, rest) && b in v.await && v.await.Keys == keys + children
    ensures v'.await.Keys == keys + (children + {|v.all|})
  {
  }

  lemma {:induction false} ForkOutside(v0: View, v: View, v': View, b: nat, n: LoadEvent, rest: seq<seq<LoadEvent>>,
                                       cur: set<nat>)
    requires ForkedAt(v, v', b, n, rest) && Outside(v0, v, cur) && b in cur && |v0.all| <= |v.all|
    ensures Outside(v0, v', cur)
  {
  }

  lemma {:induction false} ForkSplits(v: View, v': View, b: nat, n: LoadEvent, rest: seq<seq<LoadEvent>>, c: nat,
                                      live: bool, w: Awaiting, split: bool)
    requires ForkedAt(v, v', b, n, rest) && c != b && Splits(v, live, c, w, split)
    ensures Splits(v', live, c, w, split)
  {
  }

  lemma {:induction false} SplitOneMore(v0: View, v: View, v': View, cur: seq<nat>, j: nat, n: LoadEvent,
                                        rest: seq<seq<LoadEvent>>)
    requires NoDup(cur) && j < |cur| && (forall k | 0 <= k < |cur| :: cur[k] < |v0.all|)
    requires SplitSoFar(v0, v, cur, j, n, rest) && Live(v0.all[cur[j]]) && ForkedAt(v, v', cur[j], n, rest)
    ensures SplitSoFar(v0, v', cur, j + 1, n, rest)
  {
    var b := cur[j];
    assert Splits(v, true, b, Awaiting(None, Routes(n) + rest), false);
    forall k | 0 <= k < j + 1
      ensures Splits(v', Live(v0.all[cur[k]]), cur[k], Awaiting(None, rest), true)
    {
      if k < j {
        ForkSplits(v, v', b, n, rest, cur[k], Live(v0.all[cur[k]]), Awaiting(None, rest), true);
      }
    }
    forall k | j + 1 <= k < |cur|
      ensures Splits(v', Live(v0.all[cur[k]]), cur[k], Awaiting(None, Routes(n) + rest), false)
    {
      ForkSplits(v, v', b, n, rest, cur[k], Live(v0.all[cur[k]]), Awaiting(None, Routes(n) + rest), false);
    }
  }

  lemma {:induction false} OneMoreChild(children: seq<nat>, n: nat)
    requires children == Numbers(n, |children|)
    ensures children + [n + |children|] == Numbers(n, |children| + 1)
    ensures Elements(children + [n + |children|]) == Elements(children) + {n + |children|}
    ensures forall k | 0 <= k < |children| :: children[k] >= n
  {
  }

  lemma {:induction false} ForkingStep(v0: View, v: View, v': View, cur: seq<nat>, j: nat, n: LoadEvent,
                                       rest: seq<seq<LoadEvent>>, children: seq<nat>)
    requires NoDup(cur) && j < |cur| && (forall k | 0 <= k < |cur| :: cur[k] < |v0.all|)
    requires Forking(v0, v, cur, j, n, rest, children) && Live(v0.all[cur[j]]) && ForkedAt(v, v', cur[j], n, rest)
    ensures Forking(v0, v', cur, j + 1, n, rest, children + [|v.all|])
  {
    var b := cur[j];
    assert Splits(v, true, b, Awaiting(None, Routes(n) + rest), false);
    assert b in Elements(cur);
    ForkOneMore(v0, v, v', b, n, rest, children, Elements(cur));
    SplitOneMore(v0, v, v', cur, j, n, rest);
  }

  /** All of `Forking` but the branches themselves. */
  lemma {:induction false} ForkOneMore(v0: View, v: View, v': View, b: nat, n: LoadEvent, rest: seq<seq<LoadEvent>>,
                                       children: seq<nat>, cur: set<nat>)
    requires ForkedAt(v, v', b, n, rest) && b in cur && b < |v0.all| && b in v.await
    requires |v.all| == |v0.all| + |children| && children == Numbers(|v0.all|, |children|)
    requires v.await.Keys == v0.await.Keys + Elements(children)
    requires Outside(v0, v, cur) && AllWait(v, children, Awaiting(None, Routes(n)))
    ensures
      var more := children + [|v.all|];
      && |v'.all| == |v0.all| + |more| && more == Numbers(|v0.all|, |more|)
      && v'.await.Keys == v0.await.Keys + Elements(more)
      && Outside(v0, v', cur) && AllWait(v', more, Awaiting(None, Routes(n)))
  {
    OneMoreChild(children, |v0.all|);
    ForkChildren(v, v', b, n, rest, children);
    ForkKeys(v, v', b, n, rest, v0.await.Keys, Elements(children));
    ForkOutside(v0, v, v', b, n, rest, cur);
  }

  lemma {:induction false} ForkingSkip(v0: View, v: View, cur: seq<nat>, j: nat, n: LoadEvent,
                                       rest: seq<seq<LoadEvent>>, children: seq<nat>)
    requires j < |cur| && (forall k | 0 <= k < |cur| :: cur[k] < |v0.all|)
    requires Forking(v0, v, cur, j, n, rest, children) && !Live(v0.all[cur[j]])
    ensures Forking(v0, v, cur, j + 1, n, rest, children)
  {
    assert Splits(v, false, cur[j], Awaiting(None, Routes(n) + rest), false);
  }

  lemma {:induction false} ForkingAt(v0: View, v: View, cur: seq<nat>, j: nat, n: LoadEvent, rest: seq<seq<LoadEvent>>,
                                     children: seq<nat>)
    requires j < |cur| && (forall k | 0 <= k < |cur| :: cur[k] < |v0.all|) && Forking(v0, v, cur, j, n, rest, children)
    ensures Splits(v, Live(v0.all[cur[j]]), cur[j], Awaiting(None, Routes(n) + rest), false)
  {
  }

  // ----------------------------------------------------------- whole load events

  /** The branches in `cur` are being worked on, and all others that are not finished are in the queue. */
  ghost predicate Ready(alg: HashAlg, pcr: Pcr, v: View, cur: set<nat>, queue: seq<Pending<seq<nat>>>) {
    && Good(alg, pcr, v) && v.await.Keys == cur + Union(queue) && cur !! Union(queue)
    && Separate(queue) && QueueWaits(v.all, v.await, queue)
  }

  lemma {:induction false} WithoutLast(await: map<nat, Awaiting>, cur: seq<nat>, n: nat)
    requires |cur| == n + 1 && NoDup(cur) && cur[n] in await
    ensures await - Elements(cur) == (await - Elements(cur[..n])) - {cur[n]}
    ensures cur[n] in await - Elements(cur[..n]) && (await - Elements(cur[..n]))[cur[n]] == await[cur[n]]
  {
    assert cur == cur[..n] + [cur[n]];
    assert Elements(cur) == Elements(cur[..n]) + {cur[n]};
  }

  lemma {:induction false} SettleAll(alg: HashAlg, pcr: Pcr, v: View, cur: seq<nat>, v': View)
    requires Good(alg, pcr, v) && NoDup(cur)
    requires forall k | 0 <= k < |cur| ::
               cur[k] in v.await && cur[k] < |v.all| && Complete(v.all[cur[k]], v.await[cur[k]])
    requires v' == v.(await := v.await - Elements(cur))
    ensures Good(alg, pcr, v') && (Fault(alg, v) <==> Fault(alg, v'))
    decreases |cur|
  {
    if cur == [] {
      assert v'.await == v.await;
    } else {
      var n := |cur| - 1;
      var mid := v.(await := v.await - Elements(cur[..n]));
      SettleAll(alg, pcr, v, cur[..n], mid);
      WithoutLast(v.await, cur, n);
      SettleStep(alg, pcr, mid.all, mid.measured, mid.paths, mid.await, cur[n], v'.await);
    }
  }

  lemma {:induction false} NewChildren(children: seq<nat>, n: nat)
    requires children == Numbers(n, |children|)
    ensures NoDup(children) && forall c | c in Elements(children) :: n <= c
  {
  }

  lemma {:induction false} QueueGrows(alg: HashAlg, pcr: Pcr, v0: View, v: View, cur: seq<nat>,
                                      queue: seq<Pending<seq<nat>>>, e: LoadEvent, children: seq<nat>)
    requires Ready(alg, pcr, v0, Elements(cur), queue) && Good(alg, pcr, v)
    requires children == Numbers(|v0.all|, |children|) && v.await.Keys == v0.await.Keys + Elements(children)
    requires Outside(v0, v, Elements(cur)) && AllWait(v, children, Awaiting(None, Routes(e)))
    ensures Ready(alg, pcr, v, Elements(cur), queue + [Pending(e, children)])
  {
    var p := Pending(e, children);
    var one := [p];
    NewChildren(children, |v0.all|);
    assert one[1..] == [] && Union(one) == Elements(children) && Separate(one);
    assert forall b | b in v0.await.Keys :: b < |v0.all|;
    UnionConcat(queue, one);
    SeparateConcat(queue, one);
    QueueUndisturbed(v0.all, v0.await, queue, v.all, v.await);
    forall k | 0 <= k < |queue + one|
      ensures Waits(v.all, v.await, (queue + one)[k].at, Awaiting(None, Routes((queue + one)[k].event)))
    {
      assert k < |queue| ==> (queue + one)[k] == queue[k];
    }
  }

  lemma {:induction false} ReadySettled(alg: HashAlg, pcr: Pcr, v: View, v': View, cur: set<nat>,
                                        queue: seq<Pending<seq<nat>>>)
    requires Ready(alg, pcr, v, cur, queue) && Good(alg, pcr, v') && v' == v.(await := v.await - cur)
    ensures Ready(alg, pcr, v', {}, queue)
  {
    QueueUndisturbed(v.all, v.await, queue, v'.all, v'.await);
  }

  lemma {:induction false} ReadyContinued(alg: HashAlg, pcr: Pcr, v: View, cur: seq<nat>, queue: seq<Pending<seq<nat>>>,
                                          e: LoadEvent)
    requires Ready(alg, pcr, v, Elements(cur), queue) && NoDup(cur) && AllWait(v, cur, Awaiting(None, Routes(e)))
    ensures Ready(alg, pcr, v, {}, queue + [Pending(e, cur)])
  {
    var one := [Pending(e, cur)];
    assert one[1..] == [] && Union(one) == Elements(cur) && Separate(one);
    UnionConcat(queue, one);
    SeparateConcat(queue, one);
    forall k | 0 <= k < |queue + one|
      ensures Waits(v.all, v.await, (queue + one)[k].at, Awaiting(None, Routes((queue + one)[k].event)))
    {
      assert k < |queue| ==> (queue + one)[k] == queue[k];
    }
  }

  /** Taking the first load event from the queue. */
  lemma {:induction false} ReadyFirst(alg: HashAlg, pcr: Pcr, v: View, queue: seq<Pending<seq<nat>>>)
    requires Ready(alg, pcr, v, {}, queue) && queue != []
    ensures Ready(alg, pcr, v, Elements(queue[0].at), queue[1..]) && NoDup(queue[0].at)
    ensures AllWait(v, queue[0].at, Awaiting(None, Routes(queue[0].event)))
  {
    assert Waits(v.all, v.await, queue[0].at, Awaiting(None, Routes(queue[0].event)));
    forall k | 0 <= k < |queue[1..]|
      ensures Waits(v.all, v.await, queue[1..][k].at, Awaiting(None, Routes(queue[1..][k].event)))
    {
      assert queue[1..][k] == queue[k + 1];
    }
  }

  /** Working on some branches leaves the rest of the queue as it is. */
  lemma {:induction false} ReadyElsewhere(alg: HashAlg, pcr: Pcr, v: View, v': View, cur: set<nat>,
                                          queue: seq<Pending<seq<nat>>>)
    requires Ready(alg, pcr, v, cur, queue) && Good(alg, pcr, v') && SameKeys(v, v') && Outside(v, v', cur)
    ensures Ready(alg, pcr, v', cur, queue)
  {
    QueueUndisturbed(v.all, v.await, queue, v'.all, v'.await);
  }

  // --- sums over the queue

  predicate AnyUnreadable(e: LoadEvent)
    decreases e
  {
    !Readable(e.image) || AnyUnreadableEach(e.next)
  }

  predicate AnyUnreadableEach(es: seq<LoadEvent>)
    decreases es
  {
    es != [] && (AnyUnreadable(es[0]) || AnyUnreadableEach(es[1..]))
  }

  predicate QueueUnreadable(queue: seq<Pending<seq<nat>>>) {
    queue != [] && (AnyUnreadable(queue[0].event) || QueueUnreadable(queue[1..]))
  }

  lemma {:induction false} QueueUnreadableConcat(a: seq<Pending<seq<nat>>>, b: seq<Pending<seq<nat>>>)
    ensures QueueUnreadable(a + b) <==> QueueUnreadable(a) || QueueUnreadable(b)
    decreases |a|
  {
    if a == [] {
      assert a + b == b;
    } else {
      assert (a + b)[1..] == a[1..] + b;
      QueueUnreadableConcat(a[1..], b);
    }
  }

  ghost predicate EventsAre(queue: seq<Pending<seq<nat>>>, es: seq<LoadEvent>) {
    |queue| == |es| && forall k | 0 <= k < |es| :: queue[k].event == es[k]
  }

  /** The same load events were appended to both lists. */
  ghost predicate Appended(queue: seq<Pending<seq<nat>>>, next: seq<Pending<seq<nat>>>, more: seq<Pending<seq<nat>>>,
                           queue': seq<Pending<seq<nat>>>, next': seq<Pending<seq<nat>>>) {
    queue' == queue + more && next' == next + more
  }

  lemma {:induction false} AppendedStep(queue: seq<Pending<seq<nat>>>, next: seq<Pending<seq<nat>>>,
                                        more: seq<Pending<seq<nat>>>, queue': seq<Pending<seq<nat>>>,
                                        next': seq<Pending<seq<nat>>>, p: Pending<seq<nat>>)
    requires Appended(queue, next, more, queue', next')
    ensures Appended(queue, next, more + [p], queue' + [p], next' + [p])
  {
    Regroup(queue, more, [p]);
    Regroup(next, more, [p]);
  }

  lemma {:induction false} EventsAppend(queue: seq<Pending<seq<nat>>>, es: seq<LoadEvent>, i: nat, p: Pending<seq<nat>>)
    requires i < |es| && EventsAre(queue, es[..i]) && p.event == es[i]
    ensures EventsAre(queue + [p], es[..i + 1])
  {
  }

  lemma {:induction false} QueueOfEvents(queue: seq<Pending<seq<nat>>>, es: seq<LoadEvent>)
    requires EventsAre(queue, es)
    ensures (QueueUnreadable(queue) <==> AnyUnreadableEach(es)) && QueueSize(queue) == SizeOfEach(es)
    decreases |es|
  {
    if es != [] {
      QueueOfEvents(queue[1..], es[1..]);
    }
  }

  class Generator {
    const alg: HashAlg
    const pcr: Pcr
    var all: seq<Branch>
    ghost var measured: seq<Path>
    ghost var paths: seq<seq<Path>>
    ghost var await: map<nat, Awaiting>

    constructor (alg: HashAlg)
      ensures this.alg == alg && pcr == Pcr(alg, SECURE_BOOT_PCR)
    {
      this.alg := alg;
      pcr := Pcr(alg, SECURE_BOOT_PCR);
      all := [];
    }

    ghost function Now(): View
      reads this
    {
      View(all, measured, paths, await)
    }

    /** Verifies an image in one branch: finds its authority, and measures it unless the same source has done so
        before. */
    method VerifyBranch(b: nat, e: LoadEvent) returns (ok: bool)
      requires Good(alg, pcr, Now()) && b in await && await[b] == Awaiting(None, Routes(e)) && all[b].subBranches == []
      requires e.image.signers.Some?
      modifies this
      ensures ok ==> Good(alg, pcr, Now()) && (Fault(alg, Now()) <==> old(Fault(alg, Now())))
      ensures ok ==> await == old(await)[b := Awaiting(LaunchOf(e.image), RoutesFrom(e.next))] && paths == old(paths)
      ensures ok ==> OnlyAt(old(all), all, b)
      ensures !ok ==> old(Fault(alg, Now()))
    {
      ghost var v := Verify(alg, all[b].ctx, e);
      ghost var w := Awaiting(LaunchOf(e.image), RoutesFrom(e.next));
      ghost var all' := all[b := Verified(all[b], pcr, v)];
      ghost var measured' := measured[b := VerifiedMeasured(all[b], measured[b], v)];
      VerifyFaults(alg, pcr, all, await, b, e, v, all', w);
      ok := MeasureAuthority(b, e);
      if ok {
        VerifyStep(alg, pcr, old(all), measured, paths, await, b, e, v, all, measured', w);
        measured := measured';
        await := await[b := w];
      }
    }

    /** Extends a live branch with the authority of an image, or gives it up. */
    method MeasureAuthority(b: nat, e: LoadEvent) returns (ok: bool)
      requires b < |all| && e.image.signers.Some?
      modifies this`all
      ensures ok == !(Live(old(all)[b]) && Verify(alg, old(all)[b].ctx, e).NoShim?)
      ensures ok ==> all == old(all)[b := Verified(old(all)[b], pcr, Verify(alg, old(all)[b].ctx, e))]
    {
      if Live(all[b]) {
        var ctx := all[b].ctx;
        if e.source == Shim && ctx.shimDb.None? {
          return false;
        }
        var authority := SearchAuthority(e.image.signers.value, Dbs(ctx, e.source));
        if authority.None? {
          all := all[b := all[b].(profile := None)];
        } else {
          var digest := AuthorityDigest(alg, authority.value, e.source);
          NothingMeasured(pcr, all[b].profile.value);
          if digest !in MeasuredBy(ctx, e.source) {
            all := all[b := all[b].(ctx := WithMeasured(ctx, e.source, digest))];
            all := all[b := all[b].(profile := Some(all[b].profile.value + [Plain(ExtendPcr(pcr, digest))]))];
            assert Plains(Extends(pcr, [digest])) == [Plain(ExtendPcr(pcr, digest))];
          }
        }
      }
      ok := true;
    }

    /** Verifies an image in all branches that wait for it. */
    method VerifyBranches(cur: seq<nat>, e: LoadEvent) returns (ok: bool)
      requires Good(alg, pcr, Now()) && NoDup(cur) && AllWait(Now(), cur, Awaiting(None, Routes(e))) &&
               e.image.signers.Some?
      modifies this
      ensures ok ==> Good(alg, pcr, Now()) && (Fault(alg, Now()) <==> old(Fault(alg, Now())))
      ensures ok ==> AllWait(Now(), cur, Awaiting(LaunchOf(e.image), RoutesFrom(e.next)))
      ensures ok ==> SameKeys(old(Now()), Now()) && Outside(old(Now()), Now(), Elements(cur))
      ensures !ok ==> old(Fault(alg, Now()))
    {
      ghost var v0 := Now();
      ghost var before, w := Awaiting(None, Routes(e)), Awaiting(LaunchOf(e.image), RoutesFrom(e.next));
      assert cur[0..] == cur;
      for j := 0 to |cur|
        invariant Good(alg, pcr, Now()) && (Fault(alg, Now()) <==> Fault(alg, v0))
        invariant AllWait(Now(), cur[..j], w) && AllWait(Now(), cur[j..], before)
        invariant SameKeys(v0, Now()) && Outside(v0, Now(), Elements(cur))
      {
        ghost var v := Now();
        assert cur[j] == cur[j..][0];
        ok := VerifyBranch(cur[j], e);
        if !ok {
          return;
        }
        OneMoreWaits(v0, v, Now(), cur, j, before, w);
      }
      assert cur[..|cur|] == cur;
      ok := true;
    }

    /** Starts shim in one branch. */
    method LaunchBranch(b: nat, image: Image)
      requires Good(alg, pcr, Now()) && b in await && await[b].launch == Some(image)
      modifies this
      ensures Good(alg, pcr, Now()) && (Fault(alg, Now()) <==> old(Fault(alg, Now())))
      ensures await == old(await)[b := Awaiting(None, old(await)[b].routes)] && paths == old(paths) &&
              OnlyAt(old(all), all, b)
    {
      ghost var w := Awaiting(None, await[b].routes);
      all := all[b := all[b].(ctx := Launched(all[b].ctx, image))];
      LaunchStep(alg, pcr, old(all), measured, paths, await, b, image, all, w);
      await := await[b := w];
    }

    /** Starts shim in all branches. */
    method LaunchShim(cur: seq<nat>, image: Image, ghost routes: seq<seq<LoadEvent>>)
      requires Good(alg, pcr, Now()) && NoDup(cur) && AllWait(Now(), cur, Awaiting(Some(image), routes))
      modifies this
      ensures Good(alg, pcr, Now()) && (Fault(alg, Now()) <==> old(Fault(alg, Now())))
      ensures AllWait(Now(), cur, Awaiting(None, routes))
      ensures SameKeys(old(Now()), Now()) && Outside(old(Now()), Now(), Elements(cur))
    {
      ghost var v0 := Now();
      ghost var before, w := Awaiting(Some(image), routes), Awaiting(None, routes);
      assert cur[0..] == cur;
      for j := 0 to |cur|
        invariant Good(alg, pcr, Now()) && (Fault(alg, Now()) <==> Fault(alg, v0))
        invariant AllWait(Now(), cur[..j], w) && AllWait(Now(), cur[j..], before)
        invariant SameKeys(v0, Now()) && Outside(v0, Now(), Elements(cur))
      {
        ghost var v := Now();
        assert cur[j] == cur[j..][0];
        LaunchBranch(cur[j], image);
        OneMoreWaits(v0, v, Now(), cur, j, before, w);
      }
      assert cur[..|cur|] == cur;
    }

    /** Measures the load of an image in all branches, and starts it if it is shim. */
    method ProcessOSLoadEvent(cur: seq<nat>, e: LoadEvent) returns (r: Option<LoadFault>)
      requires Good(alg, pcr, Now()) && NoDup(cur) && AllWait(Now(), cur, Awaiting(None, Routes(e)))
      modifies this
      ensures r.None? ==> Readable(e.image) && Good(alg, pcr, Now()) && (Fault(alg, Now()) <==> old(Fault(alg, Now())))
      ensures r.None? ==> AllWait(Now(), cur, Awaiting(None, RoutesFrom(e.next)))
      ensures r.None? ==> SameKeys(old(Now()), Now()) && Outside(old(Now()), Now(), Elements(cur))
      ensures r == Some(UnreadableImage) ==> !Readable(e.image)
      ensures r == Some(ShimMissing) ==> old(Fault(alg, Now()))
    {
      if e.image.content.None? || e.image.decoded.None? || e.image.signers.None? || |e.image.signers.value| == 0 {
        return Some(UnreadableImage);
      }
      var ok := VerifyBranches(cur, e);
      if !ok {
        return Some(ShimMissing);
      }
      if IsShim(e.image) {
        if e.image.vendorCert.None? {
          return Some(UnreadableImage);
        }
        ghost var v := Now();
        LaunchShim(cur, e.image, RoutesFrom(e.next));
        OutsideTwice(old(Now()), v, Now(), Elements(cur));
      }
      return None;
    }

    /** Creates a sub-branch. */
    method ForkBranch(b: nat, ghost n: LoadEvent, ghost rest: seq<seq<LoadEvent>>) returns (c: nat)
      requires Good(alg, pcr, Now()) && b in await && Live(all[b]) && await[b] == Awaiting(None, Routes(n) + rest)
      modifies this
      ensures Good(alg, pcr, Now()) && (Fault(alg, Now()) <==> old(Fault(alg, Now())))
      ensures c == |old(all)| && ForkedAt(old(Now()), Now(), b, n, rest)
    {
      ghost var v := Now();
      c := |all|;
      all := all[b := all[b].(subBranches := all[b].subBranches + [c])] + [Branch(Some([]), [], all[b].ctx)];
      measured := measured + [[]];
      paths := paths + [BootPaths(alg, v.all[b].ctx, Routes(n))];
      await := await[b := Awaiting(None, rest)][c := Awaiting(None, Routes(n))];
      ForkStep(alg, pcr, v.all, v.measured, v.paths, v.await, b, n, rest, all, measured, paths, await);
      ForkFaults(alg, v.all, v.await, b, n, rest, all, await);
    }

    /** Creates a sub-branch of the next branch, if that is live. */
    method ForkNext(cur: seq<nat>, j: nat, n: LoadEvent, children: seq<nat>, ghost rest: seq<seq<LoadEvent>>,
                    ghost v0: View)
        returns (children': seq<nat>)
      requires Good(alg, pcr, Now()) && NoDup(cur) && j < |cur| && (forall k | 0 <= k < |cur| :: cur[k] < |v0.all|)
      requires Forking(v0, Now(), cur, j, n, rest, children)
      modifies this
      ensures Good(alg, pcr, Now()) && (Fault(alg, Now()) <==> old(Fault(alg, Now())))
      ensures Forking(v0, Now(), cur, j + 1, n, rest, children')
    {
      ghost var v := Now();
      ForkingAt(v0, v, cur, j, n, rest, children);
      if Live(all[cur[j]]) {
        var c := ForkBranch(cur[j], n, rest);
        ForkingStep(v0, v, Now(), cur, j, n, rest, children);
        children' := children + [c];
      } else {
        ForkingSkip(v0, v, cur, j, n, rest, children);
        children' := children;
      }
    }

    /** Creates a sub-branch for a load event in all branches that are live. */
    method ForkEach(cur: seq<nat>, n: LoadEvent, ghost rest: seq<seq<LoadEvent>>) returns (children: seq<nat>)
      requires Good(alg, pcr, Now()) && NoDup(cur) && (forall k | 0 <= k < |cur| :: cur[k] < |all|)
      requires Forking(Now(), Now(), cur, 0, n, rest, [])
      modifies this
      ensures Good(alg, pcr, Now()) && (Fault(alg, Now()) <==> old(Fault(alg, Now())))
      ensures Forking(old(Now()), Now(), cur, |cur|, n, rest, children)
    {
      ghost var v0 := Now();
      children := [];
      for j := 0 to |cur|
        invariant Good(alg, pcr, Now()) && (Fault(alg, Now()) <==> Fault(alg, v0))
        invariant Forking(v0, Now(), cur, j, n, rest, children)
      {
        children := ForkNext(cur, j, n, children, rest, v0);
      }
    }

    /** Finishes branches for which nothing is left to do. */
    ghost method Settle(cur: seq<nat>)
      requires Good(alg, pcr, Now()) && NoDup(cur)
      requires forall k | 0 <= k < |cur| :: cur[k] in await && cur[k] < |all| && Complete(all[cur[k]], await[cur[k]])
      modifies this`await
      ensures Good(alg, pcr, Now()) && (Fault(alg, Now()) <==> old(Fault(alg, Now())))
      ensures await == old(await) - Elements(cur)
    {
      SettleAll(alg, pcr, Now(), cur, Now().(await := await - Elements(cur)));
      await := await - Elements(cur);
    }

    /** Splits branches for several load events: each live branch gets a sub-branch for each load event. */
    method SplitBranches(cur: seq<nat>, es: seq<LoadEvent>, next: seq<Pending<seq<nat>>>,
                         ghost queue: seq<Pending<seq<nat>>>)
        returns (next': seq<Pending<seq<nat>>>, ghost more: seq<Pending<seq<nat>>>)
      requires Ready(alg, pcr, Now(), Elements(cur), queue) && NoDup(cur) && es != []
      requires AllWait(Now(), cur, Awaiting(None, RoutesOfEach(es)))
      modifies this
      ensures next' == next + more && Ready(alg, pcr, Now(), Elements(cur), queue + more)
      ensures old(paths) <= paths && (Fault(alg, Now()) <==> old(Fault(alg, Now())))
      ensures AllSplit(old(Now()), Now(), cur, Awaiting(None, []), true)
      ensures EventsAre(more, es)
    {
      ghost var v0 := Now();
      ghost var q := queue;
      next', more := next, [];
      assert es[0..] == es;
      for i := 0 to |es|
        invariant Ready(alg, pcr, Now(), Elements(cur), q) && Appended(queue, next, more, q, next')
        invariant v0.paths <= paths && |v0.all| <= |all| && (Fault(alg, Now()) <==> Fault(alg, v0))
        invariant AllSplit(v0, Now(), cur, Awaiting(None, RoutesOfEach(es[i..])), i > 0)
        invariant EventsAre(more, es[..i])
      {
        var children := SplitNext(cur, es, i, q, v0);
        ghost var p := Pending(es[i], children);
        AppendedStep(queue, next, more, q, next', p);
        EventsAppend(more, es, i, p);
        next' := next' + [Pending(es[i], children)];
        more, q := more + [p], q + [p];
      }
      assert es[..|es|] == es && RoutesOfEach(es[|es|..]) == [];
    }

    /** One load event of a split. */
    method SplitNext(cur: seq<nat>, es: seq<LoadEvent>, i: nat, ghost queue: seq<Pending<seq<nat>>>, ghost v0: View)
        returns (children: seq<nat>)
      requires Ready(alg, pcr, Now(), Elements(cur), queue) && NoDup(cur) && i < |es| && |v0.all| <= |all|
      requires AllSplit(v0, Now(), cur, Awaiting(None, RoutesOfEach(es[i..])), i > 0)
      modifies this
      ensures Ready(alg, pcr, Now(), Elements(cur), queue + [Pending(es[i], children)])
      ensures old(paths) <= paths && |old(all)| <= |all| && (Fault(alg, Now()) <==> old(Fault(alg, Now())))
      ensures AllSplit(v0, Now(), cur, Awaiting(None, RoutesOfEach(es[i + 1..])), true)
    {
      ghost var v := Now();
      ghost var rest := RoutesOfEach(es[i + 1..]);
      assert es[i..][1..] == es[i + 1..];
      children := ForkEach(cur, es[i], rest);
      QueueGrows(alg, pcr, v, Now(), cur, queue, es[i], children);
    }

    /** Gives branches the load events that come next. */
    method Advance(cur: seq<nat>, es: seq<LoadEvent>, next: seq<Pending<seq<nat>>>, ghost queue: seq<Pending<seq<nat>>>)
        returns (next': seq<Pending<seq<nat>>>, ghost more: seq<Pending<seq<nat>>>)
      requires Ready(alg, pcr, Now(), Elements(cur), queue) && NoDup(cur)
      requires AllWait(Now(), cur, Awaiting(None, RoutesFrom(es)))
      modifies this
      ensures next' == next + more && Ready(alg, pcr, Now(), {}, queue + more)
      ensures old(paths) <= paths && (Fault(alg, Now()) <==> old(Fault(alg, Now())))
      ensures (QueueUnreadable(more) <==> AnyUnreadableEach(es)) && QueueSize(more) == SizeOfEach(es)
    {
      if |es| == 1 {
        next' := next + [Pending(es[0], cur)];
        more := [Pending(es[0], cur)];
        assert es[1..] == [] && RoutesOfEach(es) == Routes(es[0]) + [] == Routes(es[0]);
        ReadyContinued(alg, pcr, Now(), cur, queue, es[0]);
        QueueOfEvents(more, es);
      } else if |es| == 0 {
        next', more := next, [];
        assert queue + [] == queue;
        ghost var v := Now();
        Settle(cur);
        ReadySettled(alg, pcr, v, Now(), Elements(cur), queue);
      } else {
        next', more := SplitBranches(cur, es, next, queue);
        ghost var v := Now();
        Settle(cur);
        ReadySettled(alg, pcr, v, Now(), Elements(cur), queue + more);
        QueueOfEvents(more, es);
      }
    }

    /** Processes the first load event of the queue. */
    method ProcessFirst(loadEvents: seq<Pending<seq<nat>>>, next: seq<Pending<seq<nat>>>)
        returns (r: Result<seq<Pending<seq<nat>>>, LoadFault>, ghost queue: seq<Pending<seq<nat>>>)
      requires loadEvents != [] && Ready(alg, pcr, Now(), {}, loadEvents + next)
      modifies this
      ensures r.Success? ==>
                && queue == loadEvents[1..] + r.value && Ready(alg, pcr, Now(), {}, queue)
                && old(paths) <= paths && (Fault(alg, Now()) <==> old(Fault(alg, Now())))
                && (QueueUnreadable(queue) <==> QueueUnreadable(loadEvents + next))
                && QueueSize(queue) < QueueSize(loadEvents + next)
      ensures r == Failure(UnreadableImage) ==> QueueUnreadable(loadEvents + next)
      ensures r == Failure(ShimMissing) ==> old(Fault(alg, Now()))
    {
      queue := loadEvents + next;
      ghost var v := Now();
      ghost var rest := queue[1..];
      assert queue[0] == loadEvents[0] && rest == loadEvents[1..] + next;
      var e, cur := loadEvents[0].event, loadEvents[0].at;
      ReadyFirst(alg, pcr, v, queue);
      var fault := ProcessOSLoadEvent(cur, e);
      if fault.Some? {
        return Failure(fault.value), queue;
      }
      ReadyElsewhere(alg, pcr, v, Now(), Elements(cur), rest);
      var next', more := Advance(cur, e.next, next, rest);
      QueueUnreadableConcat(rest, more);
      QueueSizeConcat(rest, more);
      queue := rest + more;
      Regroup(loadEvents[1..], next, more);
      return Success(next'), queue;
    }

    /** Processes all load events, level by level. */
    method ProcessAll(first: seq<Pending<seq<nat>>>) returns (r: Option<LoadFault>)
      requires Ready(alg, pcr, Now(), {}, first)
      modifies this
      ensures r.None? ==> Ready(alg, pcr, Now(), {}, []) && old(paths) <= paths
      ensures r.None? ==> !QueueUnreadable(first) && !old(Fault(alg, Now()))
      ensures r == Some(UnreadableImage) ==> QueueUnreadable(first)
      ensures r == Some(ShimMissing) ==> old(Fault(alg, Now()))
    {
      var loadEvents, next := first, [];
      ghost var queue := first;
      assert first + [] == first;
      while loadEvents != []
        invariant queue == loadEvents + next && (loadEvents == [] ==> next == [])
        invariant Ready(alg, pcr, Now(), {}, queue) && old(paths) <= paths
        invariant Fault(alg, Now()) <==> old(Fault(alg, Now()))
        invariant QueueUnreadable(queue) <==> QueueUnreadable(first)
        decreases QueueSize(queue)
      {
        var step, rest := ProcessFirst(loadEvents, next);
        if step.Failure? {
          return Some(step.error);
        }
        queue := rest;
        NextLevel(loadEvents[1..], step.value);
        loadEvents, next := loadEvents[1..], step.value;
        if loadEvents == [] {
          loadEvents, next := next, [];
        }
      }
      return None;
    }

    /** The branches that still have a profile. */
    method CollectLive(branches: seq<nat>) returns (live: seq<nat>)
      requires forall k | 0 <= k < |branches| :: branches[k] < |all|
      ensures live == LiveOnes(all, branches)
    {
      live := [];
      var todo: seq<nat> := branches;
      assert [] + LiveOnes(all, branches) == LiveOnes(all, branches);
      while todo != []
        invariant forall k | 0 <= k < |todo| :: todo[k] < |all|
        invariant live + LiveOnes(all, todo) == LiveOnes(all, branches)
      {
        if Live(all[todo[0]]) {
          Regroup(live, [todo[0]], LiveOnes(all, todo[1..]));
          live := live + [todo[0]];
        } else {
          assert [] + LiveOnes(all, todo[1..]) == LiveOnes(all, todo[1..]);
        }
        todo := todo[1..];
      }
    }

    /** Prunes one branch. Its sub-branches have been pruned before, and it has a profile. */
    method PruneBranch(i: nat)
      requires i < |all| && all[i].subBranches != [] && Live(all[i])
      requires forall k | 0 <= k < |all[i].subBranches| :: i < all[i].subBranches[k] < |all|
      modifies this`all
      ensures |all| == |old(all)| && (forall j | 0 <= j < |all| && j != i :: all[j] == old(all)[j])
      ensures PrunedTo(old(all), all, i)
    {
      var live := CollectLive(all[i].subBranches);
      if |live| == 0 {
        all := all[i := all[i].(profile := None)];
      } else {
        all := all[i := all[i].(profile := Some(all[i].profile.value + [OrOf(live)]))];
      }
      LiveOnesLocal(old(all), all, old(all)[i].subBranches);
    }

    /** Removes the branches that cannot boot, from the last branch to the first, and adds the choices to the others. */
    method Prune()
      requires Good(alg, pcr, Now()) && await == map[]
      modifies this`all
      ensures Pruned(old(all), all)
    {
      ghost var all0 := all;
      for i := |all| downto 0
        invariant |all| == |all0| && forall j | 0 <= j < i :: all[j] == all0[j]
        invariant forall j | i <= j < |all| :: PrunedTo(all0, all, j)
      {
        ghost var before := all;
        assert BranchOk(pcr, all0, measured, i);
        if |all[i].subBranches| != 0 {
          PruneBranch(i);
          PrunedFrom(all0, before, all, i);
        }
        forall j | i < j < |all|
          ensures PrunedTo(all0, all, j)
        {
          assert BranchOk(pcr, all0, measured, j);
          PrunedStays(all0, before, all, i, j);
        }
      }
    }

    /** Starts with a branch for each number of applied database updates. */
    method Start(roots: seq<Root>, ghost routes: seq<seq<LoadEvent>>)
      modifies this
      ensures Ready(alg, pcr, Now(), Elements(Numbers(0, |roots|)), [])
      ensures paths == EachRootPaths(alg, roots, routes)
      ensures AllWait(Now(), Numbers(0, |roots|), Awaiting(None, routes))
      ensures Fault(alg, Now()) <==> AnyRootLacksShim(alg, roots, routes)
    {
      all := [];
      for i := 0 to |roots|
        invariant all == RootBranches(pcr, roots)[..i]
      {
        all := all + [Branch(Some(Plains(Extends(pcr, roots[i].measured))), [], roots[i].ctx)];
      }
      measured := seq(|roots|, i requires 0 <= i < |roots| => roots[i].measured);
      paths := EachRootPaths(alg, roots, routes);
      await := map i | i in Elements(Numbers(0, |roots|)) :: Awaiting(None, routes);
      StartReady(alg, pcr, Now(), roots, routes);
    }

    /** Starts a branch for each level, and processes all load events. */
    method Load(roots: seq<Root>, sequences: seq<LoadEvent>) returns (r: Option<LoadFault>)
      modifies this
      ensures r.None? <==> !AnyUnreadableEach(sequences) && !AnyRootLacksShim(alg, roots, RoutesFrom(sequences))
      ensures r == Some(UnreadableImage) ==> AnyUnreadableEach(sequences)
      ensures r == Some(ShimMissing) ==> AnyRootLacksShim(alg, roots, RoutesFrom(sequences))
      ensures r.None? ==> Good(alg, pcr, Now()) && await == map[]
      ensures r.None? ==> EachRootPaths(alg, roots, RoutesFrom(sequences)) <= paths
    {
      Start(roots, RoutesFrom(sequences));
      var levels := Numbers(0, |roots|);
      NewChildren(levels, 0);
      var first, more := Advance(levels, sequences, [], []);
      assert [] + more == more;
      r := ProcessAll(first);
      if r.Some? {
        assert r.value.UnreadableImage? || r.value.ShimMissing?;
      } else {
        assert await.Keys == {};
      }
    }

    /** Generates the profile for all levels of database updates; the first level is the current database. */
    method Run(roots: seq<Root>, sequences: seq<LoadEvent>) returns (r: Result<Instr, RunError>)
      requires |roots| > 0
      modifies this
      ensures r.Success? <==> Runs(alg, roots, sequences)
      ensures r.Success? ==> MeansPaths(r.value, pcr, AllRootPaths(alg, roots, RoutesFrom(sequences)))
      ensures r.Failure? ==> FailsToRun(alg, roots, sequences, r.error)
    {
      var fault := Load(roots, sequences);
      if fault.Some? {
        return Failure(CannotLoad(fault.value));
      }
      ghost var v := Now();
      Prune();
      RootsSurvive(alg, pcr, v, all, roots, RoutesFrom(sequences));
      if !Live(all[0]) {
        return Failure(NoBootablePath);
      }
      var live := CollectLive(Numbers(0, |roots|));
      RunMeans(alg, pcr, v, all, roots, RoutesFrom(sequences), live);
      return Success(AddOr(ResolveAll(SecureBootProfile.Bodies(all), live)));
    }
  }

  // ------------------------------------------------------------ the whole run

  /** What the pre-OS part of the log measures with some updates applied, and the context it leaves. */
  datatype Root = Root(measured: Path, ctx: Context)

  datatype RunError = CannotLoad(fault: LoadFault) | NoBootablePath

  ghost function RootPaths(alg: HashAlg, root: Root, routes: seq<seq<LoadEvent>>): seq<Path> {
    Prepend(root.measured, BootPaths(alg, root.ctx, routes))
  }

  /** The paths for each level of updates, one level after the other. */
  ghost function AllRootPaths(alg: HashAlg, roots: seq<Root>, routes: seq<seq<LoadEvent>>): seq<Path> {
    Flatten(EachRootPaths(alg, roots, routes))
  }

  ghost function EachRootPaths(alg: HashAlg, roots: seq<Root>, routes: seq<seq<LoadEvent>>): (r: seq<seq<Path>>)
    ensures |r| == |roots|
    ensures forall i | 0 <= i < |r| :: r[i] == RootPaths(alg, roots[i], routes)
  {
    seq(|roots|, i requires 0 <= i < |roots| => RootPaths(alg, roots[i], routes))
  }

  ghost predicate AnyRootLacksShim(alg: HashAlg, roots: seq<Root>, routes: seq<seq<LoadEvent>>) {
    exists i :: 0 <= i < |roots| && SomeLacksShim(alg, roots[i].ctx, routes)
  }

  /** All images can be read, no live branch lacks a shim, and the current database boots something. */
  ghost predicate Runs(alg: HashAlg, roots: seq<Root>, sequences: seq<LoadEvent>)
    requires |roots| > 0
  {
    && !AnyUnreadableEach(sequences) && !AnyRootLacksShim(alg, roots, RoutesFrom(sequences))
    && BootPaths(alg, roots[0].ctx, RoutesFrom(sequences)) != []
  }

  ghost predicate FailsToRun(alg: HashAlg, roots: seq<Root>, sequences: seq<LoadEvent>, err: RunError)
    requires |roots| > 0
  {
    match err
    case CannotLoad(UnreadableImage) => AnyUnreadableEach(sequences)
    case CannotLoad(ShimMissing) => AnyRootLacksShim(alg, roots, RoutesFrom(sequences))
    case NoBootablePath =>
      && !AnyUnreadableEach(sequences) && !AnyRootLacksShim(alg, roots, RoutesFrom(sequences))
      && BootPaths(alg, roots[0].ctx, RoutesFrom(sequences)) == []
  }

  ghost predicate MeansPaths(i: Instr, pcr: Pcr, paths: seq<Path>) {
    forall vs, tpm :: Denote([i], vs, tpm) == Success(Spread(vs, pcr, paths))
  }

  function RootBranches(pcr: Pcr, roots: seq<Root>): (r: seq<Branch>)
    ensures |r| == |roots|
    ensures forall i | 0 <= i < |r| :: r[i] == Branch(Some(Plains(Extends(pcr, roots[i].measured))), [], roots[i].ctx)
  {
    seq(|roots|, i requires 0 <= i < |roots| => Branch(Some(Plains(Extends(pcr, roots[i].measured))), [], roots[i].ctx))
  }

  /** The first state of a run. */
  ghost predicate Starts(alg: HashAlg, pcr: Pcr, v: View, roots: seq<Root>, routes: seq<seq<LoadEvent>>) {
    && v.all == RootBranches(pcr, roots) && |v.measured| == |roots| && v.paths == EachRootPaths(alg, roots, routes)
    && (forall i | 0 <= i < |roots| :: v.measured[i] == roots[i].measured)
    && v.await == map i | i in Elements(Numbers(0, |roots|)) :: Awaiting(None, routes)
  }

  lemma {:induction false} LevelNumbers(n: nat)
    ensures forall i: nat :: i in Elements(Numbers(0, n)) <==> i < n
  {
    forall i: nat
      ensures i in Elements(Numbers(0, n)) <==> i < n
    {
      assert i < n ==> Numbers(0, n)[i] == i;
    }
  }

  lemma {:induction false} StartGood(alg: HashAlg, pcr: Pcr, v: View, roots: seq<Root>, routes: seq<seq<LoadEvent>>)
    requires Starts(alg, pcr, v, roots, routes)
    ensures Good(alg, pcr, v)
  {
    LevelNumbers(|roots|);
    forall i: nat | i in v.await
      ensures i < |v.all| && AwaitOk(alg, v.all, v.measured, v.paths, i, v.await[i])
    {
      NothingGathered(v.paths, BootPaths(alg, roots[i].ctx, routes));
    }
  }

  lemma {:induction false} StartFaults(alg: HashAlg, pcr: Pcr, v: View, roots: seq<Root>, routes: seq<seq<LoadEvent>>)
    requires Starts(alg, pcr, v, roots, routes)
    ensures Fault(alg, v) <==> AnyRootLacksShim(alg, roots, routes)
  {
    LevelNumbers(|roots|);
    forall i: nat | i < |roots|
      ensures FaultAt(alg, v.all, v.await, i) <==> SomeLacksShim(alg, roots[i].ctx, routes)
    {
    }
  }

  lemma {:induction false} StartReady(alg: HashAlg, pcr: Pcr, v: View, roots: seq<Root>, routes: seq<seq<LoadEvent>>)
    requires Starts(alg, pcr, v, roots, routes)
    ensures Ready(alg, pcr, v, Elements(Numbers(0, |roots|)), []) &&
            AllWait(v, Numbers(0, |roots|), Awaiting(None, routes))
    ensures Fault(alg, v) <==> AnyRootLacksShim(alg, roots, routes)
  {
    StartGood(alg, pcr, v, roots, routes);
    StartFaults(alg, pcr, v, roots, routes);
    LevelNumbers(|roots|);
  }

  /** The roots that survive are those with a bootable path. */
  lemma {:induction false} RootsSurvive(alg: HashAlg, pcr: Pcr, v: View, all': seq<Branch>, roots: seq<Root>,
                                        routes: seq<seq<LoadEvent>>)
    requires Good(alg, pcr, v) && v.await == map[] && Pruned(v.all, all') &&
             EachRootPaths(alg, roots, routes) <= v.paths
    ensures |roots| <= |all'|
    ensures forall i | 0 <= i < |roots| :: Live(all'[i]) <==> BootPaths(alg, roots[i].ctx, routes) != []
  {
    forall i | 0 <= i < |roots|
      ensures Live(all'[i]) <==> BootPaths(alg, roots[i].ctx, routes) != []
    {
      SurvivesExactly(alg, pcr, v.all, v.measured, v.paths, all', i);
      assert v.paths[i] == RootPaths(alg, roots[i], routes);
    }
  }

  lemma {:induction false} GatheredRoots(alg: HashAlg, paths: seq<seq<Path>>, roots: seq<Root>,
                                         routes: seq<seq<LoadEvent>>)
    requires EachRootPaths(alg, roots, routes) <= paths
    ensures Gathered(paths, Numbers(0, |roots|)) == AllRootPaths(alg, roots, routes)
  {
    var each := EachRootPaths(alg, roots, routes);
    GatheredLocal(paths, each, Numbers(0, |roots|));
    GatheredNew([], each);
    assert [] + each == each;
  }

  lemma {:induction false} LiveRootPaths(alg: HashAlg, pcr: Pcr, v: View, all': seq<Branch>, roots: seq<Root>,
                                         routes: seq<seq<LoadEvent>>, live: seq<nat>)
    requires Good(alg, pcr, v) && v.await == map[] && Pruned(v.all, all') &&
             EachRootPaths(alg, roots, routes) <= v.paths
    requires live == LiveOnes(all', Numbers(0, |roots|))
    ensures Gathered(v.paths, live) == AllRootPaths(alg, roots, routes)
  {
    var levels := Numbers(0, |roots|);
    forall k | 0 <= k < |levels|
      ensures LiveMeansPaths(all', v.paths, levels[k])
    {
      SurvivesExactly(alg, pcr, v.all, v.measured, v.paths, all', levels[k]);
    }
    GatheredLive(all', v.paths, levels);
    GatheredRoots(alg, v.paths, roots, routes);
  }

  /** The generated choice means the paths of all levels. */
  lemma {:induction false} RunMeans(alg: HashAlg, pcr: Pcr, v: View, all': seq<Branch>, roots: seq<Root>,
                                    routes: seq<seq<LoadEvent>>, live: seq<nat>)
    requires Good(alg, pcr, v) && v.await == map[] && Pruned(v.all, all') &&
             EachRootPaths(alg, roots, routes) <= v.paths
    requires live == LiveOnes(all', Numbers(0, |roots|)) && live != []
    ensures MeansPaths(AddOr(ResolveAll(SecureBootProfile.Bodies(all'), live)), pcr, AllRootPaths(alg, roots, routes))
  {
    LiveRootPaths(alg, pcr, v, all', roots, routes, live);
    var profiles := ResolveAll(SecureBootProfile.Bodies(all'), live);
    forall vs, tpm
      ensures Denote([AddOr(profiles)], vs, tpm) == Success(Spread(vs, pcr, AllRootPaths(alg, roots, routes)))
    {
      SurvivorsMean(alg, pcr, v.all, v.measured, v.paths, all', live, vs, tpm);
      assert [AddOr(profiles)][1..] == [];
    }
  }

  lemma {:induction false} LiveOnesLocal(all: seq<Branch>, all': seq<Branch>, branches: seq<nat>)
    requires |all| == |all'| && forall k | 0 <= k < |branches| ::
               branches[k] < |all| && all[branches[k]] == all'[branches[k]]
    ensures LiveOnes(all, branches) == LiveOnes(all', branches)
    decreases |branches|
  {
    if branches != [] {
      assert all[branches[0]] == all'[branches[0]];
      LiveOnesLocal(all, all', branches[1..]);
    }
  }

  lemma {:induction false} PrunedFrom(all0: seq<Branch>, all: seq<Branch>, all': seq<Branch>, i: nat)
    requires i < |all0| == |all| == |all'| && all[i] == all0[i] && PrunedTo(all, all', i)
    ensures PrunedTo(all0, all', i)
  {
  }

  /** Pruning a branch does not disturb those after it. */
  lemma {:induction false} PrunedStays(all0: seq<Branch>, all: seq<Branch>, all': seq<Branch>, i: nat, j: nat)
    requires i < j < |all0| == |all| == |all'| && (forall k | 0 <= k < |all| && k != i :: all'[k] == all[k])
    requires forall k | 0 <= k < |all0[j].subBranches| :: j < all0[j].subBranches[k] < |all0|
    requires PrunedTo(all0, all, j)
    ensures PrunedTo(all0, all', j)
  {
    LiveOnesLocal(all, all', all0[j].subBranches);
  }

  datatype LoadFault = UnreadableImage | ShimMissing

  lemma {:induction false} OutsideTwice(v: View, v': View, v'': View, cur: set<nat>)
    requires Outside(v, v', cur) && Outside(v', v'', cur)
    ensures Outside(v, v'', cur)
  {
  }

  // ---------------------------------------------------------- when a run succeeds

  /** Images that can be loaded one after the other. */
  ghost predicate IsChain(es: seq<LoadEvent>, chain: seq<LoadEvent>) {
    && chain != [] && chain[0] in es
    && forall k | 0 < k < |chain| :: chain[k] in chain[k - 1].next
  }

  /** The image can be opened, is a PE binary with a signature, and if it is a shim its certificate can be read. */
  ghost predicate CanBeRead(image: Image) {
    && image.content.Some? && image.decoded.Some? && image.signers.Some? && |image.signers.value| > 0
    && (image.vendorCert.None? ==>
          forall i | 0 <= i < |image.decoded.value.sections| ::
            image.decoded.value.sections[i].name != ".vendor_cert")
  }

  ghost predicate LeadsToUnreadable(es: seq<LoadEvent>, chain: seq<LoadEvent>) {
    IsChain(es, chain) && !CanBeRead(chain[|chain| - 1].image)
  }

  lemma {:induction false} UnreadableChain(es: seq<LoadEvent>) returns (chain: seq<LoadEvent>)
    requires AnyUnreadableEach(es)
    ensures LeadsToUnreadable(es, chain)
    decreases es
  {
    var e := es[0];
    if !AnyUnreadable(e) {
      chain := UnreadableChain(es[1..]);
    } else if !Readable(e.image) {
      chain := [e];
    } else {
      var rest := UnreadableChain(e.next);
      chain := [e] + rest;
      forall k | 0 < k < |chain|
        ensures chain[k] in chain[k - 1].next
      {
        assert k > 1 ==> rest[k - 1] in rest[k - 2].next;
      }
    }
  }

  lemma {:induction false} ChainIsUnreadable(es: seq<LoadEvent>, chain: seq<LoadEvent>)
    requires LeadsToUnreadable(es, chain)
    ensures AnyUnreadableEach(es)
    decreases |chain|
  {
    var e := chain[0];
    if |chain| == 1 {
      assert !Readable(e.image);
    } else {
      var rest := chain[1..];
      assert rest[0] in e.next by {
        assert chain[1] in chain[0].next;
      }
      forall k | 0 < k < |rest|
        ensures rest[k] in rest[k - 1].next
      {
        assert chain[k + 1] in chain[k].next;
      }
      ChainIsUnreadable(e.next, rest);
    }
    UnreadableMember(es, e);
  }

  lemma {:induction false} UnreadableMember(es: seq<LoadEvent>, e: LoadEvent)
    requires e in es && AnyUnreadable(e)
    ensures AnyUnreadableEach(es)
    decreases |es|
  {
    if es[0] != e {
      UnreadableMember(es[1..], e);
    }
  }

  /** Loading fails for an unreadable image exactly if one can be reached. */
  lemma {:induction false} UnreadableExactly(es: seq<LoadEvent>)
    ensures AnyUnreadableEach(es) <==> exists chain :: LeadsToUnreadable(es, chain)
  {
    if AnyUnreadableEach(es) {
      var chain := UnreadableChain(es);
    }
    if chain :| LeadsToUnreadable(es, chain) {
      ChainIsUnreadable(es, chain);
    }
  }

  lemma {:induction false} SomeLacksShimAt(alg: HashAlg, ctx: Context, routes: seq<seq<LoadEvent>>)
    ensures SomeLacksShim(alg, ctx, routes) <==> exists r :: 0 <= r < |routes| && LacksShim(alg, ctx, routes[r])
    decreases |routes|
  {
    if routes != [] {
      SomeLacksShimAt(alg, ctx, routes[1..]);
      if r :| 0 <= r < |routes| && LacksShim(alg, ctx, routes[r]) {
        assert r > 0 ==> routes[1..][r - 1] == routes[r];
      }
      if r :| 0 <= r < |routes[1..]| && LacksShim(alg, ctx, routes[1..][r]) {
        assert routes[r + 1] == routes[1..][r];
      }
    }
  }

  /** Some way through the images needs a shim that is not there. */
  ghost predicate WayNeedsShim(ctx: Context, sequences: seq<LoadEvent>, route: seq<LoadEvent>, k: nat) {
    IsWay(sequences, route) && NeedsMissingShim(ctx, route, k)
  }

  lemma {:induction false} LacksShimOnWay(alg: HashAlg, ctx: Context, sequences: seq<LoadEvent>)
    ensures SomeLacksShim(alg, ctx, RoutesFrom(sequences)) <==>
            exists route, k: nat :: WayNeedsShim(ctx, sequences, route, k)
  {
    var routes := RoutesFrom(sequences);
    SomeLacksShimAt(alg, ctx, routes);
    if r :| 0 <= r < |routes| && LacksShim(alg, ctx, routes[r]) {
      LacksShimExactly(alg, ctx, routes[r]);
      WaysExactly(sequences, routes[r]);
      var k: nat :| NeedsMissingShim(ctx, routes[r], k);
      assert routes[r] in routes;
      assert WayNeedsShim(ctx, sequences, routes[r], k);
    }
    if route, k: nat :| WayNeedsShim(ctx, sequences, route, k) {
      LacksShimExactly(alg, ctx, route);
      WaysExactly(sequences, route);
      var r :| 0 <= r < |routes| && routes[r] == route;
    }
  }

  /** All images on some way through them can be authenticated. */
  ghost predicate WayBoots(ctx: Context, sequences: seq<LoadEvent>, route: seq<LoadEvent>) {
    IsWay(sequences, route) && forall k | 0 <= k < |route| :: Authenticated(ctx, route, k)
  }

  lemma {:induction false} BootsOnWay(alg: HashAlg, ctx: Context, sequences: seq<LoadEvent>)
    ensures BootPaths(alg, ctx, RoutesFrom(sequences)) != [] <==> exists route :: WayBoots(ctx, sequences, route)
  {
    var routes := RoutesFrom(sequences);
    var paths := BootPaths(alg, ctx, routes);
    if paths != [] {
      BootPathsMembers(alg, ctx, routes, paths[0]);
      var r :| 0 <= r < |routes| && Walk(alg, ctx, routes[r]) == Some(paths[0]);
      RouteBootsExactly(alg, ctx, routes[r]);
      WaysExactly(sequences, routes[r]);
      assert routes[r] in routes;
      assert WayBoots(ctx, sequences, routes[r]);
    }
    if route :| WayBoots(ctx, sequences, route) {
      RouteBootsExactly(alg, ctx, route);
      WaysExactly(sequences, route);
      var r :| 0 <= r < |routes| && routes[r] == route;
      assert Walks(alg, ctx, routes, Walk(alg, ctx, route).value);
      BootPathsMembers(alg, ctx, routes, Walk(alg, ctx, route).value);
    }
  }

  /** A run succeeds exactly if every image that can be reached can be read, no way through the images needs a shim that
      is not there, with any number of updates, and with the current database some way boots. */
  lemma {:induction false} RunsExactly(alg: HashAlg, roots: seq<Root>, sequences: seq<LoadEvent>)
    requires |roots| > 0
    ensures Runs(alg, roots, sequences) <==>
            && (forall chain :: !LeadsToUnreadable(sequences, chain))
            && (forall i, route, k: nat | 0 <= i < |roots| :: !WayNeedsShim(roots[i].ctx, sequences, route, k))
            && (exists route :: WayBoots(roots[0].ctx, sequences, route))
  {
    UnreadableExactly(sequences);
    BootsOnWay(alg, roots[0].ctx, sequences);
    forall i | 0 <= i < |roots|
      ensures SomeLacksShim(alg, roots[i].ctx, RoutesFrom(sequences)) <==>
              exists route, k: nat :: WayNeedsShim(roots[i].ctx, sequences, route, k)
    {
      LacksShimOnWay(alg, roots[i].ctx, sequences);
    }
  }
}
