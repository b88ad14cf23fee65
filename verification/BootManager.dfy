/** The boot manager code profile: the PCR 4 values of every way to load the boot images. */
module BootManager {
  import opened Digests
  import opened PcrProfile
  import opened ProfileArena
  import opened Authenticode
  import opened LoadEvents

  datatype BootError = AlgorithmNotLogged | BadImage(error: ImageError)

  // -------------------------------------------------------------- the meaning

  function EventDigest(alg: HashAlg, e: LoadEvent): Result<Digest, ImageError> {
    ImageDigest(alg, e.image.content, e.image.decoded)
  }

  /** The errors of the images that cannot be hashed. */
  function Errors(alg: HashAlg, e: LoadEvent): set<ImageError>
    decreases e
  {
    (match EventDigest(alg, e) { case Success(_) => {} case Failure(error) => {error} }) + ErrorsOfEach(alg, e.next)
  }

  function ErrorsOfEach(alg: HashAlg, es: seq<LoadEvent>): set<ImageError>
    decreases es
  {
    if es == [] then {} else Errors(alg, es[0]) + ErrorsOfEach(alg, es[1..])
  }

  /** What an image that can be hashed measures. */
  function Measurement(alg: HashAlg, e: LoadEvent): Digest {
    match EventDigest(alg, e) { case Success(d) => d case Failure(_) => Zeros(alg) }
  }

  /** The digests that are measured on the way through some images. */
  function DigestsAlong(alg: HashAlg, route: seq<LoadEvent>): (r: Path)
    ensures |r| == |route|
    ensures forall k | 0 <= k < |r| :: r[k] == Measurement(alg, route[k])
  {
    seq(|route|, k requires 0 <= k < |route| => Measurement(alg, route[k]))
  }

  function PathsAlong(alg: HashAlg, routes: seq<seq<LoadEvent>>): (r: seq<Path>)
    ensures |r| == |routes|
    ensures forall k | 0 <= k < |r| :: r[k] == DigestsAlong(alg, routes[k])
  {
    seq(|routes|, k requires 0 <= k < |routes| => DigestsAlong(alg, routes[k]))
  }

  lemma {:induction false} PathsConcat(alg: HashAlg, a: seq<seq<LoadEvent>>, b: seq<seq<LoadEvent>>)
    ensures PathsAlong(alg, a + b) == PathsAlong(alg, a) + PathsAlong(alg, b)
  {
  }

  lemma {:induction false} DigestsLed(alg: HashAlg, e: LoadEvent, route: seq<LoadEvent>, d: Digest)
    requires EventDigest(alg, e) == Success(d)
    ensures DigestsAlong(alg, [e] + route) == [d] + DigestsAlong(alg, route)
  {
    var whole := [e] + route;
    assert Measurement(alg, e) == d;
    forall k | 0 < k < |whole|
      ensures DigestsAlong(alg, whole)[k] == DigestsAlong(alg, route)[k - 1]
    {
      assert whole[k] == route[k - 1];
    }
  }

  lemma {:induction false} PathsLed(alg: HashAlg, e: LoadEvent, routes: seq<seq<LoadEvent>>, d: Digest)
    requires EventDigest(alg, e) == Success(d)
    ensures PathsAlong(alg, Led(e, routes)) == Prepend([d], PathsAlong(alg, routes))
  {
    forall k | 0 <= k < |routes|
      ensures PathsAlong(alg, Led(e, routes))[k] == Prepend([d], PathsAlong(alg, routes))[k]
    {
      DigestsLed(alg, e, routes[k], d);
    }
  }

  /** The measurements to PCR 4 before the operating system is present, and the separator. */
  function Replayed(alg: HashAlg, events: seq<LogEvent>): Path
    requires HaveDigests(alg, events)
    decreases |events|
  {
    if events == [] then []
    else if events[0].pcrIndex != BOOT_MANAGER_PCR then Replayed(alg, events[1..])
    else if events[0].eventType == Separator then [events[0].digests[alg]]
    else [events[0].digests[alg]] + Replayed(alg, events[1..])
  }

  predicate EndsReplay(e: LogEvent) {
    e.pcrIndex == 4 && e.eventType == Separator
  }

  /** The part of the log that is replayed: up to the first separator of PCR 4, or all of it. */
  ghost predicate ReplayedPart(events: seq<LogEvent>, end: nat) {
    && end <= |events|
    && (forall i | 0 <= i < end - 1 :: !EndsReplay(events[i]))
    && (end < |events| ==> end > 0)
    && (end > 0 && !EndsReplay(events[end - 1]) ==> end == |events|)
  }

  lemma {:induction false} ReplayStops(alg: HashAlg, events: seq<LogEvent>, end: nat)
    requires HaveDigests(alg, events) && ReplayedPart(events, end)
    ensures Replayed(alg, events) == Replayed(alg, events[..end])
    decreases |events|
  {
    if end < |events| && !EndsReplay(events[0]) {
      var rest := events[1..];
      ReplayStops(alg, rest, end - 1);
      assert rest[..end - 1] == events[..end][1..];
    } else if end == |events| {
      assert events[..end] == events;
    }
  }

  /** The last event of the replayed part is the last that is measured. */
  lemma {:induction false} ReplayLast(alg: HashAlg, events: seq<LogEvent>)
    requires HaveDigests(alg, events) && events != []
    requires forall i | 0 <= i < |events| - 1 :: !EndsReplay(events[i])
    ensures
      var last := events[|events| - 1];
      Replayed(alg, events) ==
      Replayed(alg, events[..|events| - 1]) + if last.pcrIndex == 4 then [last.digests[alg]] else []
    decreases |events|
  {
    if |events| > 1 {
      var rest := events[1..];
      assert !EndsReplay(events[0]);
      ReplayLast(alg, rest);
      assert rest[..|rest| - 1] == events[..|events| - 1][1..];
    }
  }

  lemma {:induction false} ReplayedAt(alg: HashAlg, events: seq<LogEvent>) returns (at: seq<nat>)
    requires HaveDigests(alg, events)
    requires forall i | 0 <= i < |events| - 1 :: !EndsReplay(events[i])
    ensures Enumerates(at, OfPcr(events, 4)) && |Replayed(alg, events)| == |at|
    ensures forall k | 0 <= k < |at| :: Replayed(alg, events)[k] == events[at[k]].digests[alg]
    decreases |events|
  {
    if events == [] {
      at := [];
    } else {
      var n := |events| - 1;
      at := ReplayedAt(alg, events[..n]);
      ReplayLast(alg, events);
      OfPcrMore(events, 4);
      EnumeratesMore(at, OfPcr(events[..n], 4), events[n].pcrIndex == 4);
      at := at + if events[n].pcrIndex == 4 then [n] else [];
    }
  }

  /** What is replayed of a log: the digests of the PCR 4 events in order, up to and including the first separator. */
  lemma {:induction false} ReplayedExactly(alg: HashAlg, events: seq<LogEvent>, end: nat) returns (at: seq<nat>)
    requires HaveDigests(alg, events) && ReplayedPart(events, end)
    ensures Enumerates(at, OfPcr(events[..end], 4)) && |Replayed(alg, events)| == |at|
    ensures forall k | 0 <= k < |at| :: Replayed(alg, events)[k] == events[at[k]].digests[alg]
    ensures end > 0 && EndsReplay(events[end - 1]) ==>
              |at| > 0 && Replayed(alg, events)[|at| - 1] == events[end - 1].digests[alg]
  {
    ReplayStops(alg, events, end);
    at := ReplayedAt(alg, events[..end]);
    if end > 0 && EndsReplay(events[end - 1]) {
      assert OfPcr(events[..end], 4)[end - 1];
      assert end - 1 in at;
    }
  }

  // ------------------------------------------------------------ the generator

  datatype Branch = Branch(profile: seq<PendingInstr>, branches: seq<nat>)

  function Bodies(all: seq<Branch>): (r: seq<seq<PendingInstr>>)
    ensures |r| == |all|
    ensures forall i | 0 <= i < |r| :: r[i] == all[i].profile
  {
    seq(|all|, i requires 0 <= i < |all| => all[i].profile)
  }

  predicate Queued(queue: seq<Pending<nat>>, i: nat) {
    exists k :: 0 <= k < |queue| && queue[k].at == i
  }

  /** What every branch holds while the load events are processed. `measured` are the digests extended in a branch, and
      `paths` the digests of all ways through it, including those still to come. */
  ghost predicate BranchOk(all: seq<Branch>, base: seq<Instr>, pcr: Pcr, measured: seq<Path>, i: nat)
    requires i < |all| == |measured|
  {
    && all[i].profile == Plains((if i == 0 then base else []) + Extends(pcr, measured[i]))
    && forall k | 0 <= k < |all[i].branches| :: i < all[i].branches[k] < |all|
  }

  ghost predicate PendingOk(alg: HashAlg, all: seq<Branch>, measured: seq<Path>, paths: seq<seq<Path>>, q: Pending<nat>)
    requires |all| == |measured| == |paths|
  {
    && q.at < |all| && all[q.at].branches == []
    && paths[q.at] == Prepend(measured[q.at], PathsAlong(alg, Routes(q.event)))
  }

  ghost predicate QueueOk(alg: HashAlg, all: seq<Branch>, measured: seq<Path>, paths: seq<seq<Path>>,
                          queue: seq<Pending<nat>>)
    requires |all| == |measured| == |paths|
  {
    && (forall k | 0 <= k < |queue| :: PendingOk(alg, all, measured, paths, queue[k]))
    && forall j, k | 0 <= j < k < |queue| :: queue[j].at != queue[k].at
  }

  /** Branch `b` is being worked on, and `rest` are the paths that follow what it has measured. */
  ghost predicate Handling(alg: HashAlg, base: seq<Instr>, pcr: Pcr, all: seq<Branch>, measured: seq<Path>,
                           paths: seq<seq<Path>>, queue: seq<Pending<nat>>, b: nat, rest: seq<Path>)
  {
    && |all| == |measured| == |paths| && b < |all|
    && (forall i | 0 <= i < |all| :: BranchOk(all, base, pcr, measured, i))
    && QueueOk(alg, all, measured, paths, queue)
    && !Queued(queue, b) && all[b].branches == [] && paths[b] == Prepend(measured[b], rest)
    && forall i | 0 <= i < |all| && i != b && !Queued(queue, i) ::
         paths[i] == Continued(paths, Shape(measured[i], all[i].branches))
  }

  ghost predicate Growing(alg: HashAlg, base: seq<Instr>, pcr: Pcr, all: seq<Branch>, measured: seq<Path>,
                          paths: seq<seq<Path>>, queue: seq<Pending<nat>>)
  {
    && |all| == |measured| == |paths| && |all| > 0
    && (forall i | 0 <= i < |all| :: BranchOk(all, base, pcr, measured, i))
    && QueueOk(alg, all, measured, paths, queue)
    && forall i | 0 <= i < |all| && !Queued(queue, i) ::
         paths[i] == Continued(paths, Shape(measured[i], all[i].branches))
  }

  // --- one load event

  function ExtendedBranch(b: Branch, pcr: Pcr, d: Digest): Branch {
    b.(profile := b.profile + [Plain(ExtendPcr(pcr, d))])
  }

  lemma {:induction false} ExtendsMore(base: seq<Instr>, pcr: Pcr, path: Path, d: Digest)
    ensures Plains(base + Extends(pcr, path)) + [Plain(ExtendPcr(pcr, d))] == Plains(base + Extends(pcr, path + [d]))
  {
  }

  lemma {:induction false} QueuedFirst(queue: seq<Pending<nat>>, i: nat)
    requires queue != []
    ensures Queued(queue, i) <==> queue[0].at == i || Queued(queue[1..], i)
  {
    if k :| 0 <= k < |queue| && queue[k].at == i {
      assert k > 0 ==> queue[1..][k - 1].at == i;
    }
    if k :| 0 <= k < |queue[1..]| && queue[1..][k].at == i {
      assert queue[k + 1].at == i;
    }
  }

  lemma {:induction false} FirstIsAlone(queue: seq<Pending<nat>>)
    requires queue != [] && forall j, k | 0 <= j < k < |queue| :: queue[j].at != queue[k].at
    ensures !Queued(queue[1..], queue[0].at)
  {
    forall k | 0 <= k < |queue[1..]|
      ensures queue[1..][k].at != queue[0].at
    {
      assert queue[1..][k] == queue[k + 1];
    }
  }

  lemma {:induction false} ExtendedOk(base: seq<Instr>, pcr: Pcr, all: seq<Branch>, measured: seq<Path>, b: nat,
                                      d: Digest, all': seq<Branch>, measured': seq<Path>, i: nat)
    requires |all| == |measured| && b < |all| && i < |all| && BranchOk(all, base, pcr, measured, i)
    requires all' == all[b := ExtendedBranch(all[b], pcr, d)] && measured' == measured[b := measured[b] + [d]]
    ensures BranchOk(all', base, pcr, measured', i)
  {
    ExtendsMore(if i == 0 then base else [], pcr, measured[i], d);
  }

  lemma {:induction false} TailOk(alg: HashAlg, all: seq<Branch>, measured: seq<Path>, paths: seq<seq<Path>>,
                                  queue: seq<Pending<nat>>, all': seq<Branch>, measured': seq<Path>)
    requires |all| == |measured| == |paths| == |all'| == |measured'|
    requires queue != [] && QueueOk(alg, all, measured, paths, queue)
    requires forall i | 0 <= i < |all| && i != queue[0].at :: all'[i] == all[i] && measured'[i] == measured[i]
    ensures QueueOk(alg, all', measured', paths, queue[1..])
  {
    forall k | 0 <= k < |queue[1..]|
      ensures PendingOk(alg, all', measured', paths, queue[1..][k])
    {
      assert PendingOk(alg, all, measured, paths, queue[k + 1]);
      assert queue[0].at != queue[k + 1].at;
    }
  }

  /** Measuring the image of the first load event in the queue. */
  lemma {:induction false} MeasureEvent(alg: HashAlg, base: seq<Instr>, pcr: Pcr, all: seq<Branch>, measured: seq<Path>,
                                        paths: seq<seq<Path>>, queue: seq<Pending<nat>>, b: nat, d: Digest,
                                        all': seq<Branch>, measured': seq<Path>, rest: seq<Path>)
    requires Growing(alg, base, pcr, all, measured, paths, queue) && queue != [] && b == queue[0].at < |all|
    requires EventDigest(alg, queue[0].event) == Success(d)
    requires all' == all[b := ExtendedBranch(all[b], pcr, d)] && measured' == measured[b := measured[b] + [d]]
    requires rest == PathsAlong(alg, RoutesFrom(queue[0].event.next))
    ensures Handling(alg, base, pcr, all', measured', paths, queue[1..], b, rest)
  {
    assert PendingOk(alg, all, measured, paths, queue[0]);
    PathsLed(alg, queue[0].event, RoutesFrom(queue[0].event.next), d);
    PrependTwice(measured[b], [d], rest);
    FirstIsAlone(queue);
    TailOk(alg, all, measured, paths, queue, all', measured');
    forall i | 0 <= i < |all'|
      ensures BranchOk(all', base, pcr, measured', i)
    {
      ExtendedOk(base, pcr, all, measured, b, d, all', measured', i);
    }
    forall i | 0 <= i < |all'| && i != b && !Queued(queue[1..], i)
      ensures paths[i] == Continued(paths, Shape(measured'[i], all'[i].branches))
    {
      QueuedFirst(queue, i);
    }
  }

  /** A branch without further load events is complete. */
  lemma {:induction false} EndHere(alg: HashAlg, base: seq<Instr>, pcr: Pcr, all: seq<Branch>, measured: seq<Path>,
                                   paths: seq<seq<Path>>, queue: seq<Pending<nat>>, b: nat)
    requires Handling(alg, base, pcr, all, measured, paths, queue, b, [[]])
    ensures Growing(alg, base, pcr, all, measured, paths, queue)
  {
  }

  lemma {:induction false} QueuedLast(queue: seq<Pending<nat>>, q: Pending<nat>, i: nat)
    ensures Queued(queue + [q], i) <==> Queued(queue, i) || q.at == i
  {
    if k :| 0 <= k < |queue| && queue[k].at == i {
      assert (queue + [q])[k].at == i;
    }
    assert (queue + [q])[|queue|] == q;
  }

  /** A single load event continues the branch. */
  lemma {:induction false} GoOn(alg: HashAlg, base: seq<Instr>, pcr: Pcr, all: seq<Branch>, measured: seq<Path>,
                                paths: seq<seq<Path>>, queue: seq<Pending<nat>>, b: nat, e: LoadEvent)
    requires Handling(alg, base, pcr, all, measured, paths, queue, b, PathsAlong(alg, Routes(e)))
    ensures Growing(alg, base, pcr, all, measured, paths, queue + [Pending(e, b)])
  {
    var queue' := queue + [Pending(e, b)];
    forall k | 0 <= k < |queue'|
      ensures PendingOk(alg, all, measured, paths, queue'[k])
    {
      assert k < |queue| ==> PendingOk(alg, all, measured, paths, queue[k]);
    }
    forall i | 0 <= i < |all| && !Queued(queue', i)
      ensures paths[i] == Continued(paths, Shape(measured[i], all[i].branches))
    {
      QueuedLast(queue, Pending(e, b), i);
    }
  }

  // --- splitting a branch

  function NewBranches(k: nat): (r: seq<Branch>)
    ensures |r| == k
    ensures forall j | 0 <= j < k :: r[j] == Branch([], [])
  {
    seq(k, _ => Branch([], []))
  }

  function NewPending(es: seq<LoadEvent>, n: nat): (r: seq<Pending<nat>>)
    ensures |r| == |es|
    ensures forall j | 0 <= j < |r| :: r[j] == Pending(es[j], n + j)
  {
    seq(|es|, j requires 0 <= j < |es| => Pending(es[j], n + j))
  }

  function SplitAll(all: seq<Branch>, b: nat, k: nat): (r: seq<Branch>)
    requires b < |all|
  {
    all[b := all[b].(branches := Numbers(|all|, k))] + NewBranches(k)
  }

  function NoPaths(k: nat): (r: seq<Path>)
    ensures |r| == k
    ensures forall j | 0 <= j < k :: r[j] == []
  {
    seq(k, _ => [])
  }

  function PathsOfEvents(alg: HashAlg, es: seq<LoadEvent>): (r: seq<seq<Path>>)
    ensures |r| == |es|
    ensures forall j | 0 <= j < |r| :: r[j] == PathsAlong(alg, Routes(es[j]))
  {
    seq(|es|, j requires 0 <= j < |es| => PathsAlong(alg, Routes(es[j])))
  }

  lemma {:induction false} FlattenEvents(alg: HashAlg, es: seq<LoadEvent>)
    ensures Flatten(PathsOfEvents(alg, es)) == PathsAlong(alg, RoutesOfEach(es))
    decreases |es|
  {
    if es == [] {
      assert PathsAlong(alg, []) == [];
    } else {
      assert PathsOfEvents(alg, es)[1..] == PathsOfEvents(alg, es[1..]);
      FlattenEvents(alg, es[1..]);
      PathsConcat(alg, Routes(es[0]), RoutesOfEach(es[1..]));
    }
  }

  lemma {:induction false} QueuedNew(queue: seq<Pending<nat>>, es: seq<LoadEvent>, n: nat, i: nat)
    ensures Queued(queue + NewPending(es, n), i) <==> Queued(queue, i) || n <= i < n + |es|
  {
    var queue' := queue + NewPending(es, n);
    if k :| 0 <= k < |queue'| && queue'[k].at == i {
      assert k < |queue| ==> queue[k].at == i;
    }
    if k :| 0 <= k < |queue| && queue[k].at == i {
      assert queue'[k].at == i;
    }
    if n <= i < n + |es| {
      assert queue'[|queue| + i - n].at == i;
    }
  }

  /** A load event that is already in the queue. */
  lemma {:induction false} PendingStays(alg: HashAlg, all: seq<Branch>, measured: seq<Path>, paths: seq<seq<Path>>,
                                        all': seq<Branch>, measured': seq<Path>, paths': seq<seq<Path>>,
                                        q: Pending<nat>)
    requires |all| == |measured| == |paths| && |all'| == |measured'| == |paths'|
    requires PendingOk(alg, all, measured, paths, q) && q.at < |all'| && all'[q.at] == all[q.at]
    requires measured'[q.at] == measured[q.at] && paths'[q.at] == paths[q.at]
    ensures PendingOk(alg, all', measured', paths', q)
  {
  }

  lemma {:induction false} SplitAllAt(all: seq<Branch>, b: nat, k: nat, i: nat)
    requires b < |all| && i < |all| + k
    ensures |SplitAll(all, b, k)| == |all| + k
    ensures i < |all| && i != b ==> SplitAll(all, b, k)[i] == all[i]
    ensures i >= |all| ==> SplitAll(all, b, k)[i].branches == []
  {
  }

  lemma {:induction false} NewPendingOk(alg: HashAlg, all: seq<Branch>, measured: seq<Path>, paths: seq<seq<Path>>,
                                        q: Pending<nat>)
    requires |all| == |measured| == |paths| && q.at < |all| && all[q.at].branches == [] && measured[q.at] == []
    requires paths[q.at] == PathsAlong(alg, Routes(q.event))
    ensures PendingOk(alg, all, measured, paths, q)
  {
    PrependNothing(paths[q.at]);
  }

  lemma {:induction false} NewAt(alg: HashAlg, measured: seq<Path>, paths: seq<seq<Path>>, es: seq<LoadEvent>, j: nat)
    requires |measured| == |paths| && j < |es|
    ensures (measured + NoPaths(|es|))[|paths| + j] == []
    ensures (paths + PathsOfEvents(alg, es))[|paths| + j] == PathsAlong(alg, Routes(es[j]))
  {
  }

  lemma {:induction false} NewQueuedOk(alg: HashAlg, all: seq<Branch>, measured: seq<Path>, paths: seq<seq<Path>>,
                                       b: nat, es: seq<LoadEvent>, j: nat)
    requires |all| == |measured| == |paths| && b < |all| && j < |es|
    ensures |SplitAll(all, b, |es|)| == |all| + |es|
    ensures PendingOk(alg, SplitAll(all, b, |es|), measured + NoPaths(|es|), paths + PathsOfEvents(alg, es),
                      Pending(es[j], |all| + j))
  {
    SplitAllAt(all, b, |es|, |all| + j);
    NewAt(alg, measured, paths, es, j);
    NewPendingOk(alg, SplitAll(all, b, |es|), measured + NoPaths(|es|), paths + PathsOfEvents(alg, es),
                 Pending(es[j], |all| + j));
  }

  lemma {:induction false} OldQueuedOk(alg: HashAlg, all: seq<Branch>, measured: seq<Path>, paths: seq<seq<Path>>,
                                       b: nat, k: nat, more: seq<Path>, morePaths: seq<seq<Path>>, q: Pending<nat>)
    requires |all| == |measured| == |paths| && b < |all| && |more| == |morePaths| == k
    requires PendingOk(alg, all, measured, paths, q) && q.at != b
    ensures |SplitAll(all, b, k)| == |all| + k
    ensures PendingOk(alg, SplitAll(all, b, k), measured + more, paths + morePaths, q)
  {
    SplitAllAt(all, b, k, q.at);
    PendingStays(alg, all, measured, paths, SplitAll(all, b, k), measured + more, paths + morePaths, q);
  }

  lemma {:induction false} NewQueuedApart(queue: seq<Pending<nat>>, es: seq<LoadEvent>, n: nat, j: nat, k: nat)
    requires forall j | 0 <= j < |queue| :: queue[j].at < n
    requires forall j, k | 0 <= j < k < |queue| :: queue[j].at != queue[k].at
    requires j < k < |queue| + |es|
    ensures (queue + NewPending(es, n))[j].at != (queue + NewPending(es, n))[k].at
  {
  }

  lemma {:induction false} SplitQueueOk(alg: HashAlg, all: seq<Branch>, measured: seq<Path>, paths: seq<seq<Path>>,
                                        queue: seq<Pending<nat>>, b: nat, es: seq<LoadEvent>, all': seq<Branch>,
                                        measured': seq<Path>, paths': seq<seq<Path>>, queue': seq<Pending<nat>>)
    requires |all| == |measured| == |paths| && b < |all|
    requires QueueOk(alg, all, measured, paths, queue) && !Queued(queue, b)
    requires all' == SplitAll(all, b, |es|) && measured' == measured + NoPaths(|es|) &&
             paths' == paths + PathsOfEvents(alg, es)
    requires queue' == queue + NewPending(es, |all|)
    ensures QueueOk(alg, all', measured', paths', queue')
  {
    forall k | 0 <= k < |queue'|
      ensures PendingOk(alg, all', measured', paths', queue'[k])
    {
      if k < |queue| {
        assert queue'[k] == queue[k];
        assert PendingOk(alg, all, measured, paths, queue[k]) && queue[k].at != b;
        OldQueuedOk(alg, all, measured, paths, b, |es|, NoPaths(|es|), PathsOfEvents(alg, es), queue[k]);
      } else {
        var j := k - |queue|;
        assert queue'[k] == Pending(es[j], |all| + j);
        NewQueuedOk(alg, all, measured, paths, b, es, j);
      }
    }
    forall j, k | 0 <= j < k < |queue'|
      ensures queue'[j].at != queue'[k].at
    {
      assert forall i | 0 <= i < |queue| :: PendingOk(alg, all, measured, paths, queue[i]);
      NewQueuedApart(queue, es, |all|, j, k);
    }
  }

  lemma {:induction false} SplitBranchOk(base: seq<Instr>, pcr: Pcr, all: seq<Branch>, measured: seq<Path>, b: nat,
                                         k: nat, all': seq<Branch>, measured': seq<Path>, i: nat)
    requires |all| == |measured| && b < |all| && i < |all| + k
    requires all' == SplitAll(all, b, k) && measured' == measured + NoPaths(k)
    requires i < |all| ==> BranchOk(all, base, pcr, measured, i)
    ensures BranchOk(all', base, pcr, measured', i)
  {
    if i >= |all| {
      assert i != 0 && all'[i] == Branch([], []) && measured'[i] == [];
      assert Plains([] + Extends(pcr, [])) == [];
    }
  }

  /** Several load events split the branch. */
  lemma {:induction false} Split(alg: HashAlg, base: seq<Instr>, pcr: Pcr, all: seq<Branch>, measured: seq<Path>,
                                 paths: seq<seq<Path>>, queue: seq<Pending<nat>>, b: nat, es: seq<LoadEvent>,
                                 all': seq<Branch>, measured': seq<Path>, paths': seq<seq<Path>>,
                                 queue': seq<Pending<nat>>)
    requires Handling(alg, base, pcr, all, measured, paths, queue, b, PathsAlong(alg, RoutesOfEach(es))) && es != []
    requires all' == SplitAll(all, b, |es|) && measured' == measured + NoPaths(|es|) &&
             paths' == paths + PathsOfEvents(alg, es)
    requires queue' == queue + NewPending(es, |all|)
    ensures Growing(alg, base, pcr, all', measured', paths', queue')
  {
    SplitQueueOk(alg, all, measured, paths, queue, b, es, all', measured', paths', queue');
    forall i | 0 <= i < |all'|
      ensures BranchOk(all', base, pcr, measured', i)
    {
      SplitBranchOk(base, pcr, all, measured, b, |es|, all', measured', i);
    }
    forall i | 0 <= i < |all'| && !Queued(queue', i)
      ensures paths'[i] == Continued(paths', Shape(measured'[i], all'[i].branches))
    {
      QueuedNew(queue, es, |all|, i);
      if i == b {
        GatheredNew(paths, PathsOfEvents(alg, es));
        FlattenEvents(alg, es);
      } else {
        assert BranchOk(all, base, pcr, measured, i);
        GatheredLocal(paths, paths', all[i].branches);
      }
    }
  }

  // --- choices

  /** The choice between the sub-branches ends the profile of a branch. */
  function WithOr(b: Branch): Branch {
    if b.branches == [] then b else b.(profile := b.profile + [OrOf(b.branches)])
  }

  function AllWithOr(all: seq<Branch>): (r: seq<Branch>)
    ensures |r| == |all|
    ensures forall i | 0 <= i < |r| :: r[i] == WithOr(all[i])
  {
    seq(|all|, i requires 0 <= i < |all| => WithOr(all[i]))
  }

  /** Adding the choices in some order. */
  function OrPass(all: seq<Branch>, order: seq<nat>): seq<Branch>
    decreases |order|
  {
    if order == [] then all
    else if order[0] < |all| then OrPass(all[order[0] := WithOr(all[order[0]])], order[1..])
    else OrPass(all, order[1..])
  }

  lemma {:induction false} OrPassAt(all: seq<Branch>, order: seq<nat>, i: nat)
    requires i < |all| && forall j, k | 0 <= j < k < |order| :: order[j] != order[k]
    ensures |OrPass(all, order)| == |all| && OrPass(all, order)[i] == if i in order then WithOr(all[i]) else all[i]
    decreases |order|
  {
    if order != [] {
      assert forall j, k | 0 <= j < k < |order[1..]| :: order[1..][j] == order[j + 1] && order[1..][k] == order[k + 1];
      OrPassAt(if order[0] < |all| then all[order[0] := WithOr(all[order[0]])] else all, order[1..], i);
      assert order == [order[0]] + order[1..];
    }
  }

  /** The choices can be added in any order. */
  lemma {:induction false} OrPassInAnyOrder(all: seq<Branch>, order: seq<nat>)
    requires forall j, k | 0 <= j < k < |order| :: order[j] != order[k]
    requires forall i | 0 <= i < |all| :: i in order
    requires all != []
    ensures OrPass(all, order) == AllWithOr(all)
  {
    forall i | 0 <= i < |all|
      ensures |OrPass(all, order)| == |all| && OrPass(all, order)[i] == WithOr(all[i])
    {
      OrPassAt(all, order, i);
    }
    OrPassAt(all, order, 0);
  }

  // --- the finished profile

  function Shapes(all: seq<Branch>, measured: seq<Path>): (r: seq<Shape>)
    requires |all| == |measured|
    ensures |r| == |all|
    ensures forall i | 0 <= i < |r| :: r[i] == Shape(measured[i], all[i].branches)
  {
    seq(|all|, i requires 0 <= i < |all| => Shape(measured[i], all[i].branches))
  }

  function AllLive(n: nat): (r: seq<bool>)
    ensures |r| == n && forall i | 0 <= i < n :: r[i]
  {
    seq(n, _ => true)
  }

  lemma {:induction false} BranchFinished(alg: HashAlg, base: seq<Instr>, pcr: Pcr, all: seq<Branch>,
                                          measured: seq<Path>, paths: seq<seq<Path>>, i: nat)
    requires Growing(alg, base, pcr, all, measured, paths, []) && 0 < i < |all|
    ensures Finished(Bodies(AllWithOr(all)), paths, AllLive(|all|), pcr, i, Shape(measured[i], all[i].branches))
  {
    assert BranchOk(all, base, pcr, measured, i);
    assert !Queued([], i);
    assert [] + Extends(pcr, measured[i]) == Extends(pcr, measured[i]);
    assert Plains(Extends(pcr, measured[i])) + [] == Plains(Extends(pcr, measured[i]));
  }

  lemma {:induction false} RootBody(base: seq<Instr>, pcr: Pcr, all: seq<Branch>, measured: seq<Path>)
    requires |all| == |measured| > 0 && BranchOk(all, base, pcr, measured, 0)
    ensures Bodies(AllWithOr(all))[0] == Plains(base) + (Plains(Extends(pcr, measured[0])) + Tail(all[0].branches))
  {
    assert Plains(base + Extends(pcr, measured[0])) == Plains(base) + Plains(Extends(pcr, measured[0]));
    assert Plains(base) + (Plains(Extends(pcr, measured[0])) + []) == Plains(base) + Plains(Extends(pcr, measured[0]));
  }

  /** When the queue is empty, adding the choices gives a profile that means exactly the paths of the root. */
  lemma {:induction false} ProfileMeans(alg: HashAlg, base: seq<Instr>, pcr: Pcr, all: seq<Branch>, measured: seq<Path>,
                                        paths: seq<seq<Path>>)
    requires Growing(alg, base, pcr, all, measured, paths, [])
    ensures Means(Resolve(Bodies(AllWithOr(all)), 0).instrs, base, pcr, paths[0])
  {
    var table := Bodies(AllWithOr(all));
    var live := AllLive(|all|);
    var shapes := Shapes(all, measured);
    forall i | 1 <= i < |all|
      ensures Finished(table, paths, live, pcr, i, shapes[i])
    {
      BranchFinished(alg, base, pcr, all, measured, paths, i);
    }
    assert BranchOk(all, base, pcr, measured, 0);
    assert !Queued([], 0);
    RootBody(base, pcr, all, measured);
    var tail := Plains(Extends(pcr, measured[0])) + Tail(all[0].branches);
    ResolvePlains(table, 0, base, tail);
    forall vs, tpm
      ensures Denote(Resolve(table, 0).instrs, vs, tpm) ==
              match Denote(base, vs, tpm)
              case Failure(p) => Failure(p)
              case Success(ws) => Success(Spread(ws, pcr, paths[0]))
    {
      DenoteConcat(base, ResolveInstrs(table, 0, tail), vs, tpm);
      if Denote(base, vs, tpm).Success? {
        ShapeMeans(table, paths, live, pcr, 1, shapes, 0, shapes[0], Denote(base, vs, tpm).value, tpm);
      }
    }
  }

  // --- running

  function QueueErrors(alg: HashAlg, queue: seq<Pending<nat>>): set<ImageError> {
    if queue == [] then {} else Errors(alg, queue[0].event) + QueueErrors(alg, queue[1..])
  }

  lemma {:induction false} QueueErrorsConcat(alg: HashAlg, a: seq<Pending<nat>>, b: seq<Pending<nat>>)
    ensures QueueErrors(alg, a + b) == QueueErrors(alg, a) + QueueErrors(alg, b)
    decreases |a|
  {
    if a == [] {
      assert a + b == b;
    } else {
      assert (a + b)[1..] == a[1..] + b;
      QueueErrorsConcat(alg, a[1..], b);
    }
  }

  lemma {:induction false} NewPendingSums(alg: HashAlg, es: seq<LoadEvent>, n: nat)
    ensures QueueErrors(alg, NewPending(es, n)) == ErrorsOfEach(alg, es)
    ensures QueueSize(NewPending(es, n)) == SizeOfEach(es)
    decreases |es|
  {
    if es != [] {
      assert NewPending(es, n)[1..] == NewPending(es[1..], n + 1);
      NewPendingSums(alg, es[1..], n + 1);
    }
  }

  class Generator {
    const alg: HashAlg
    const pcr: Pcr
    var all: seq<Branch>
    ghost var base: seq<Instr>
    ghost var measured: seq<Path>
    ghost var paths: seq<seq<Path>>

    constructor (alg: HashAlg, profile: Profile)
      ensures this.alg == alg && pcr == Pcr(alg, BOOT_MANAGER_PCR)
      ensures all == [Branch(Plains(profile.instrs), [])]
    {
      this.alg := alg;
      pcr := Pcr(alg, BOOT_MANAGER_PCR);
      all := [Branch(Plains(profile.instrs), [])];
    }

    /** Replays the log up to the separator. */
    method Replay(events: seq<LogEvent>)
      requires HaveDigests(alg, events) && |all| == 1
      modifies this`all
      ensures |all| == 1 && all[0].branches == old(all)[0].branches
      ensures all[0].profile == old(all)[0].profile + Plains(Extends(pcr, Replayed(alg, events)))
    {
      ghost var start := all[0].profile;
      ghost var done: Path := [];
      ghost var whole := Replayed(alg, events);
      var todo := events;
      assert start + Plains(Extends(pcr, [])) == start;
      while todo != []
        invariant |all| == 1 && all[0].branches == old(all)[0].branches
        invariant HaveDigests(alg, todo)
        invariant all[0].profile == start + Plains(Extends(pcr, done))
        invariant done + Replayed(alg, todo) == whole
      {
        var event := todo[0];
        todo := todo[1..];
        if event.pcrIndex == BOOT_MANAGER_PCR {
          ReplayOne(start, pcr, done, event.digests[alg]);
          all := [all[0].(profile := all[0].profile + [Plain(ExtendPcr(pcr, event.digests[alg]))])];
          done := done + [event.digests[alg]];
          if event.eventType == Separator {
            return;
          }
        }
      }
    }

    /** Creates a sub-branch for each load event. */
    method AddBranches(b: nat, es: seq<LoadEvent>, pending: seq<Pending<nat>>) returns (pending': seq<Pending<nat>>)
      requires b < |all| && all[b].branches == []
      modifies this`all
      ensures all == SplitAll(old(all), b, |es|) && pending' == pending + NewPending(es, |old(all)|)
    {
      pending' := pending;
      for i := 0 to |es|
        invariant all == SplitAll(old(all), b, i) && pending' == pending + NewPending(es[..i], |old(all)|)
      {
        var c := |all|;
        all := all[b := all[b].(branches := all[b].branches + [c])] + [Branch([], [])];
        pending' := pending' + [Pending(es[i], c)];
        SplitOneMore(old(all), b, i);
        assert es[..i + 1] == es[..i] + [es[i]];
      }
      assert es[..|es|] == es;
    }

    /** Gives branch `b` the load events that come next. */
    method Advance(b: nat, es: seq<LoadEvent>, next: seq<Pending<nat>>, ghost queue: seq<Pending<nat>>)
        returns (next': seq<Pending<nat>>, ghost more: seq<Pending<nat>>)
      requires Handling(alg, base, pcr, all, measured, paths, queue, b, PathsAlong(alg, RoutesFrom(es)))
      modifies this
      ensures next' == next + more && Growing(alg, base, pcr, all, measured, paths, queue + more)
      ensures base == old(base) && |paths| > 0 && paths[0] == old(paths)[0]
      ensures QueueErrors(alg, more) == ErrorsOfEach(alg, es) && QueueSize(more) == SizeOfEach(es)
    {
      if |es| == 1 {
        more := [Pending(es[0], b)];
        next' := next + [Pending(es[0], b)];
        assert RoutesOfEach(es) == Routes(es[0]) + [] == Routes(es[0]);
        GoOn(alg, base, pcr, all, measured, paths, queue, b, es[0]);
        assert more[1..] == [] && es[1..] == [];
      } else {
        more := NewPending(es, |all|);
        ghost var all0 := all;
        next' := AddBranches(b, es, next);
        NewPendingSums(alg, es, |all0|);
        if es == [] {
          assert all == all0 && queue + more == queue;
          EndHere(alg, base, pcr, all, measured, paths, queue, b);
        } else {
          ghost var measured' := measured + NoPaths(|es|);
          ghost var paths' := paths + PathsOfEvents(alg, es);
          Split(alg, base, pcr, all0, measured, paths, queue, b, es, all, measured', paths', queue + more);
          measured, paths := measured', paths';
        }
      }
    }

    /** Processes the first load event of the queue. */
    method ProcessFirst(loadEvents: seq<Pending<nat>>, next: seq<Pending<nat>>)
        returns (r: Result<seq<Pending<nat>>, ImageError>, ghost queue: seq<Pending<nat>>)
      requires loadEvents != [] && Growing(alg, base, pcr, all, measured, paths, loadEvents + next)
      modifies this
      ensures r.Success? ==>
                && queue == loadEvents[1..] + r.value
                && Growing(alg, base, pcr, all, measured, paths, queue)
                && base == old(base) && paths[0] == old(paths)[0]
                && QueueErrors(alg, queue) == QueueErrors(alg, loadEvents + next)
                && QueueSize(queue) < QueueSize(loadEvents + next)
      ensures r.Failure? ==> r.error in QueueErrors(alg, loadEvents + next)
    {
      var e := loadEvents[0].event;
      var b := loadEvents[0].at;
      queue := loadEvents + next;
      ghost var rest := queue[1..];
      assert queue[0] == loadEvents[0] && rest == loadEvents[1..] + next;
      assert PendingOk(alg, all, measured, paths, queue[0]);
      var digest := ComputePeImageDigest(alg, e.image.content, e.image.decoded);
      if digest.Failure? {
        return Failure(digest.error), queue;
      }
      ghost var measured' := measured[b := measured[b] + [digest.value]];
      ghost var all' := all[b := ExtendedBranch(all[b], pcr, digest.value)];
      MeasureEvent(alg, base, pcr, all, measured, paths, queue, b, digest.value, all', measured',
                   PathsAlong(alg, RoutesFrom(e.next)));
      all := all[b := all[b].(profile := all[b].profile + [Plain(ExtendPcr(pcr, digest.value))])];
      measured := measured';
      var next', more := Advance(b, e.next, next, rest);
      QueueErrorsConcat(alg, rest, more);
      QueueSizeConcat(rest, more);
      queue := rest + more;
      Regroup(loadEvents[1..], next, more);
      return Success(next'), queue;
    }

    /** Processes all load events, level by level. */
    method ProcessAll(first: seq<Pending<nat>>) returns (r: Option<ImageError>)
      requires Growing(alg, base, pcr, all, measured, paths, first)
      modifies this
      ensures r.None? ==> Growing(alg, base, pcr, all, measured, paths, [])
      ensures r.None? ==> base == old(base) && paths[0] == old(paths)[0]
      ensures r.None? ==> QueueErrors(alg, first) == {}
      ensures r.Some? ==> r.value in QueueErrors(alg, first)
    {
      var loadEvents, next := first, [];
      ghost var queue, errors := first, QueueErrors(alg, first);
      assert first + [] == first;
      while loadEvents != []
        invariant queue == loadEvents + next && (loadEvents == [] ==> next == [])
        invariant Growing(alg, base, pcr, all, measured, paths, queue)
        invariant base == old(base) && paths[0] == old(paths)[0]
        invariant QueueErrors(alg, queue) == errors
        decreases QueueSize(queue)
      {
        var step, rest := ProcessFirst(loadEvents, next);
        if step.Failure? {
          return Some(step.error);
        }
        queue := rest;
        NextLevel(loadEvents[1..], step.value);
        loadEvents, next := loadEvents[1..], step.value;
        if loadEvents == [] {
          loadEvents, next := next, [];
        }
      }
      return None;
    }

    /** Adds the choices to all branches that have sub-branches. */
    method AddChoices()
      modifies this`all
      ensures all == AllWithOr(old(all))
    {
      for i := 0 to |all|
        invariant |all| == |old(all)|
        invariant forall j | 0 <= j < |all| :: all[j] == if j < i then WithOr(old(all)[j]) else old(all)[j]
      {
        var b := all[i];
        if |b.branches| != 0 {
          all := all[i := b.(profile := b.profile + [OrOf(b.branches)])];
        }
      }
    }

    /** Adds the boot manager code profile to the profile that the generator was created with. */
    method AddEFIBootManagerProfile(log: Log, sequences: seq<LoadEvent>, ghost before: Profile)
        returns (r: Result<Profile, BootError>)
      requires Parsed(log) && pcr == Pcr(alg, BOOT_MANAGER_PCR) && all == [Branch(Plains(before.instrs), [])]
      modifies this
      ensures alg !in log.algorithms ==> r == Failure(AlgorithmNotLogged)
      ensures alg in log.algorithms ==>
                && (r.Success? <==> ErrorsOfEach(alg, sequences) == {})
                && (r.Failure? ==> r.error.BadImage? && r.error.error in ErrorsOfEach(alg, sequences))
                && (r.Success? ==> Means(r.value.instrs, Replaying(alg, before, log.events), pcr,
                                         PathsAlong(alg, RoutesFrom(sequences))))
    {
      if alg !in log.algorithms {
        return Failure(AlgorithmNotLogged);
      }
      all := [all[0].(profile := all[0].profile + [Plain(AddValue(pcr, Zeros(alg)))])];
      Replay(log.events);
      base := Replaying(alg, before, log.events);
      measured, paths := [[]], [PathsAlong(alg, RoutesFrom(sequences))];
      StartHandling(alg, before, log.events, all, paths[0]);
      var first, more := Advance(0, sequences, [], []);
      assert [] + more == more;
      var failed := ProcessAll(first);
      if failed.Some? {
        return Failure(BadImage(failed.value));
      }
      ProfileMeans(alg, base, pcr, all, measured, paths);
      AddChoices();
      return Success(Resolve(Bodies(all), 0));
    }
  }

  /** The instructions before the images: the caller's, the initial value of PCR 4, and the replayed log. */
  function Replaying(alg: HashAlg, before: Profile, events: seq<LogEvent>): seq<Instr>
    requires HaveDigests(alg, events)
  {
    before.instrs + [AddValue(Pcr(alg, BOOT_MANAGER_PCR), Zeros(alg))] +
    Extends(Pcr(alg, BOOT_MANAGER_PCR), Replayed(alg, events))
  }

  lemma {:induction false} StartHandling(alg: HashAlg, before: Profile, events: seq<LogEvent>, all: seq<Branch>,
                                         rest: seq<Path>)
    requires HaveDigests(alg, events)
    requires
      var pcr := Pcr(alg, BOOT_MANAGER_PCR);
      all == [Branch(Plains(before.instrs) + [Plain(AddValue(pcr, Zeros(alg)))] +
                     Plains(Extends(pcr, Replayed(alg, events))), [])]
    ensures Handling(alg, Replaying(alg, before, events), Pcr(alg, BOOT_MANAGER_PCR), all, [[]], [rest], [], 0, rest)
  {
    var pcr := Pcr(alg, BOOT_MANAGER_PCR);
    var base := Replaying(alg, before, events);
    assert base + Extends(pcr, []) == base;
    assert all[0].profile == Plains(base);
    PrependNothing(rest);
  }

  lemma {:induction false} SplitOneMore(all: seq<Branch>, b: nat, k: nat)
    requires b < |all|
    ensures
      var now := SplitAll(all, b, k);
      now[b := now[b].(branches := now[b].branches + [|now|])] + [Branch([], [])] == SplitAll(all, b, k + 1)
  {
    assert Numbers(|all|, k) + [|all| + k] == Numbers(|all|, k + 1);
    assert NewBranches(k) + [Branch([], [])] == NewBranches(k + 1);
  }

  lemma {:induction false} ReplayOne(start: seq<PendingInstr>, pcr: Pcr, done: Path, d: Digest)
    ensures start + Plains(Extends(pcr, done)) + [Plain(ExtendPcr(pcr, d))] == start + Plains(Extends(pcr, done + [d]))
  {
  }

  // ---------------------------------------------------------- the PCR 4 values

  /** The replayed log is a common beginning of all paths. */
  lemma {:induction false} ReplayThenPaths(alg: HashAlg, instrs: seq<Instr>, before: Profile, events: seq<LogEvent>,
                                           paths: seq<Path>)
    requires HaveDigests(alg, events)
    requires Means(instrs, Replaying(alg, before, events), Pcr(alg, BOOT_MANAGER_PCR), paths)
    ensures Means(instrs, before.instrs + [AddValue(Pcr(alg, BOOT_MANAGER_PCR), Zeros(alg))],
                  Pcr(alg, BOOT_MANAGER_PCR), Prepend(Replayed(alg, events), paths))
  {
    var pcr := Pcr(alg, BOOT_MANAGER_PCR);
    var replayed := Replayed(alg, events);
    var start := before.instrs + [AddValue(pcr, Zeros(alg))];
    forall vs, tpm
      ensures Denote(instrs, vs, tpm) ==
              match Denote(start, vs, tpm)
              case Failure(p) => Failure(p)
              case Success(ws) => Success(Spread(ws, pcr, Prepend(replayed, paths)))
    {
      DenoteConcat(start, Extends(pcr, replayed), vs, tpm);
      if Denote(start, vs, tpm).Success? {
        var ws := Denote(start, vs, tpm).value;
        assert Extends(pcr, replayed) + [] == Extends(pcr, replayed);
        DenoteExtends(pcr, replayed, [], ws, tpm);
        SpreadPrepend(ws, pcr, replayed, paths);
      }
    }
  }

  /** The profile evaluates to the caller's combinations, each with one PCR 4 value for each way through the images: the
      replayed log, extended with the digests of the images on the way. */
  lemma {:induction false} EvaluatesToRoutes(alg: HashAlg, instrs: seq<Instr>, before: Profile, events: seq<LogEvent>,
                                             sequences: seq<LoadEvent>, tpm: PcrValues)
    requires HaveDigests(alg, events)
    requires Means(instrs, Replaying(alg, before, events), Pcr(alg, BOOT_MANAGER_PCR),
                   PathsAlong(alg, RoutesFrom(sequences)))
    ensures Evaluate(Profile(instrs), tpm) ==
            match Evaluate(before, tpm)
            case Failure(p) => Failure(p)
            case Success(vs) =>
              Success(FoldAlong(vs, Pcr(alg, BOOT_MANAGER_PCR), Zeros(alg),
                                Prepend(Replayed(alg, events), PathsAlong(alg, RoutesFrom(sequences)))))
  {
    var paths := PathsAlong(alg, RoutesFrom(sequences));
    ReplayThenPaths(alg, instrs, before, events, paths);
    EvaluatesToFolds(instrs, before, Pcr(alg, BOOT_MANAGER_PCR), Prepend(Replayed(alg, events), paths), tpm);
  }

  /** The PCR 4 values that the profile allows are those that some way through the images leads to, on top of the
      replayed log. */
  lemma {:induction false} AllowsExactlyRoutes(alg: HashAlg, instrs: seq<Instr>, before: Profile, events: seq<LogEvent>,
                                               sequences: seq<LoadEvent>, tpm: PcrValues, v: PcrValues)
    requires HaveDigests(alg, events) && Evaluate(before, tpm).Success?
    requires Means(instrs, Replaying(alg, before, events), Pcr(alg, 4), PathsAlong(alg, RoutesFrom(sequences)))
    ensures Evaluate(Profile(instrs), tpm).Success?
    ensures v in Evaluate(Profile(instrs), tpm).value <==>
            exists w, route ::
              && w in Evaluate(before, tpm).value && IsWay(sequences, route)
              && v == w[Pcr(alg, 4) := Fold(Zeros(alg), alg, Replayed(alg, events) + DigestsAlong(alg, route))]
  {
    var replayed := Replayed(alg, events);
    var paths := PathsAlong(alg, RoutesFrom(sequences));
    EvaluatesToRoutes(alg, instrs, before, events, sequences, tpm);
    FoldAlongMembers(Evaluate(before, tpm).value, Pcr(alg, 4), Zeros(alg), Prepend(replayed, paths), v);
    forall path
      ensures path in Prepend(replayed, paths) <==>
              exists route :: IsWay(sequences, route) && path == replayed + DigestsAlong(alg, route)
    {
      PathOfRoute(alg, replayed, sequences, path);
    }
  }

  lemma {:induction false} PathOfRoute(alg: HashAlg, replayed: Path, sequences: seq<LoadEvent>, path: Path)
    ensures path in Prepend(replayed, PathsAlong(alg, RoutesFrom(sequences))) <==>
            exists route :: IsWay(sequences, route) && path == replayed + DigestsAlong(alg, route)
  {
    var routes := RoutesFrom(sequences);
    var paths := PathsAlong(alg, routes);
    if path in Prepend(replayed, paths) {
      var k :| 0 <= k < |paths| && path == replayed + paths[k];
      WaysExactly(sequences, routes[k]);
      assert routes[k] in routes;
    }
    if route :| IsWay(sequences, route) && path == replayed + DigestsAlong(alg, route) {
      WaysExactly(sequences, route);
      var k :| 0 <= k < |routes| && routes[k] == route;
      assert Prepend(replayed, paths)[k] == path;
    }
  }
}
