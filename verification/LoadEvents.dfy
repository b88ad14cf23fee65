/** EFI images, the ways in which they can be loaded, and the log of a boot. */
module LoadEvents {
  import opened Digests
  import opened Authenticode

  /** The certificate of a signer, and the authorities that have issued it directly. */
  datatype Signer = Signer(raw: Bytes, issuers: set<Bytes>)

  /** An image with what the decoders for PE binaries, signatures and shim's vendor certificate find in it. */
  datatype Image = Image(content: Option<Bytes>, decoded: Option<PeFile>, signers: Option<seq<Signer>>,
                         vendorCert: Option<Option<Bytes>>)

  datatype Source = Firmware | Shim

  /** An image, and the images that can be loaded after it. */
  datatype LoadEvent = LoadEvent(source: Source, image: Image, next: seq<LoadEvent>)

  /** All ways through the images, from the first to the last image that is loaded, in depth-first order. */
  function Routes(e: LoadEvent): seq<seq<LoadEvent>>
    decreases e
  {
    Led(e, if e.next == [] then [[]] else RoutesOfEach(e.next))
  }

  function RoutesOfEach(es: seq<LoadEvent>): seq<seq<LoadEvent>>
    decreases es
  {
    if es == [] then [] else Routes(es[0]) + RoutesOfEach(es[1..])
  }

  function Led(e: LoadEvent, routes: seq<seq<LoadEvent>>): (r: seq<seq<LoadEvent>>)
    ensures |r| == |routes|
    ensures forall k | 0 <= k < |r| :: r[k] == [e] + routes[k]
  {
    seq(|routes|, k requires 0 <= k < |routes| => [e] + routes[k])
  }

  /** The ways through a list of alternatives; without alternatives nothing more is loaded. */
  function RoutesFrom(es: seq<LoadEvent>): seq<seq<LoadEvent>> {
    if es == [] then [[]] else RoutesOfEach(es)
  }

  /** A way through the images: it starts with one of the alternatives, each image can be loaded after the one before
      it, and nothing is loaded after the last. */
  ghost predicate IsRoute(es: seq<LoadEvent>, route: seq<LoadEvent>) {
    && route != [] && route[0] in es && route[|route| - 1].next == []
    && forall k | 0 < k < |route| :: route[k] in route[k - 1].next
  }

  lemma {:induction false} RouteTail(es: seq<LoadEvent>, e: LoadEvent, rest: seq<LoadEvent>)
    requires e in es
    ensures IsRoute(es, [e] + rest) <==> if rest == [] then e.next == [] else IsRoute(e.next, rest)
  {
    var route := [e] + rest;
    if rest != [] {
      if IsRoute(es, route) {
        assert route[1] in route[0].next;
        forall k | 0 < k < |rest|
          ensures rest[k] in rest[k - 1].next
        {
          assert route[k + 1] in route[k].next;
        }
      }
      if IsRoute(e.next, rest) {
        forall k | 0 < k < |route|
          ensures route[k] in route[k - 1].next
        {
          assert k > 1 ==> rest[k - 1] in rest[k - 2].next;
        }
      }
    }
  }

  /** The routes are exactly the ways through the images. */
  lemma {:induction false} RoutesExactly(es: seq<LoadEvent>, route: seq<LoadEvent>)
    ensures route in RoutesOfEach(es) <==> IsRoute(es, route)
    decreases es
  {
    if es != [] {
      RoutesOfOne(es[0], route);
      RoutesExactly(es[1..], route);
      assert es == [es[0]] + es[1..];
      FirstOrRest(es, route);
    }
  }

  /** Without alternatives nothing is loaded. */
  ghost predicate IsWay(es: seq<LoadEvent>, route: seq<LoadEvent>) {
    if es == [] then route == [] else IsRoute(es, route)
  }

  lemma {:induction false} WaysExactly(es: seq<LoadEvent>, route: seq<LoadEvent>)
    ensures route in RoutesFrom(es) <==> IsWay(es, route)
  {
    RoutesExactly(es, route);
  }

  lemma {:induction false} FirstOrRest(es: seq<LoadEvent>, route: seq<LoadEvent>)
    requires es != []
    ensures IsRoute(es, route) <==> IsRoute([es[0]], route) || IsRoute(es[1..], route)
  {
    assert es == [es[0]] + es[1..];
  }

  lemma {:induction false} RoutesOfOne(e: LoadEvent, route: seq<LoadEvent>)
    ensures route in Routes(e) <==> IsRoute([e], route)
    decreases e, 0
  {
    var rests := if e.next == [] then [[]] else RoutesOfEach(e.next);
    if route in Routes(e) {
      var k :| 0 <= k < |rests| && route == [e] + rests[k];
      RouteTail([e], e, rests[k]);
      if e.next != [] {
        RoutesExactly(e.next, rests[k]);
      }
    }
    if IsRoute([e], route) {
      var rest := route[1..];
      assert route == [e] + rest;
      RouteTail([e], e, rest);
      if rest != [] {
        RoutesExactly(e.next, rest);
      }
      assert rest in rests;
      var k :| 0 <= k < |rests| && rests[k] == rest;
      assert Routes(e)[k] == route;
    }
  }

  /** The number of load events in a tree. */
  function Size(e: LoadEvent): nat
    decreases e
  {
    1 + SizeOfEach(e.next)
  }

  function SizeOfEach(es: seq<LoadEvent>): nat
    decreases es
  {
    if es == [] then 0 else Size(es[0]) + SizeOfEach(es[1..])
  }

  // ---------------------------------------------------------- load events to do

  /** A load event, and the branch or branches of a profile in which it happens. */
  datatype Pending<+T> = Pending(event: LoadEvent, at: T)

  function QueueSize<T>(queue: seq<Pending<T>>): nat {
    if queue == [] then 0 else Size(queue[0].event) + QueueSize(queue[1..])
  }

  lemma {:induction false} QueueSizeConcat<T>(a: seq<Pending<T>>, b: seq<Pending<T>>)
    ensures QueueSize(a + b) == QueueSize(a) + QueueSize(b)
    decreases |a|
  {
    if a == [] {
      assert a + b == b;
    } else {
      assert (a + b)[1..] == a[1..] + b;
      QueueSizeConcat(a[1..], b);
    }
  }

  lemma {:induction false} NextLevel<T>(loadEvents: seq<Pending<T>>, next: seq<Pending<T>>)
    ensures loadEvents == [] ==> loadEvents + next == next + []
  {
  }

  // ----------------------------------------------------------- the event log

  const BOOT_MANAGER_PCR := 4
  const SECURE_BOOT_PCR := 7

  datatype EventType =
    | Separator
    | BootServicesApplication
    | VariableAuthority
    | VariableDriverConfig
    | EfiAction
    | OtherType

  datatype EventData = Variable(guid: Bytes, name: string, value: Bytes) | Text(text: string) | InvalidData | OtherData

  /** `index` counts the events of the same PCR. */
  datatype LogEvent = LogEvent(pcrIndex: int, index: nat, eventType: EventType, digests: map<HashAlg, Digest>,
                               data: EventData)

  datatype Log = Log(algorithms: set<HashAlg>, events: seq<LogEvent>)

  /** The parser gives every event a digest for each algorithm of the log. */
  predicate Parsed(log: Log) {
    forall i | 0 <= i < |log.events| :: log.algorithms <= log.events[i].digests.Keys
  }

  predicate HaveDigests(alg: HashAlg, events: seq<LogEvent>) {
    forall i | 0 <= i < |events| :: alg in events[i].digests
  }

  // ---------------------------------------------------------- events by position

  /** `at` lists the positions that are chosen, in order. */
  ghost predicate Enumerates(at: seq<nat>, chosen: seq<bool>) {
    && (forall k | 0 <= k < |at| :: at[k] < |chosen| && chosen[at[k]])
    && (forall k, l | 0 <= k < l < |at| :: at[k] < at[l])
    && forall i | 0 <= i < |chosen| && chosen[i] :: i in at
  }

  lemma {:induction false} EnumeratesMore(at: seq<nat>, chosen: seq<bool>, c: bool)
    requires Enumerates(at, chosen)
    ensures Enumerates(at + if c then [|chosen|] else [], chosen + [c])
  {
    var at': seq<nat> := at + if c then [|chosen|] else [];
    forall i | 0 <= i < |chosen| + 1 && (chosen + [c])[i]
      ensures i in at'
    {
      if i == |chosen| {
        assert at'[|at|] == i;
      } else {
        assert i in at;
      }
    }
  }

  ghost function OfPcr(events: seq<LogEvent>, pcr: int): (r: seq<bool>)
    ensures |r| == |events|
    ensures forall i | 0 <= i < |r| :: r[i] == (events[i].pcrIndex == pcr)
  {
    seq(|events|, i requires 0 <= i < |events| => events[i].pcrIndex == pcr)
  }

  lemma {:induction false} OfPcrMore(events: seq<LogEvent>, pcr: int)
    requires events != []
    ensures OfPcr(events, pcr) ==
            OfPcr(events[..|events| - 1], pcr) + [events[|events| - 1].pcrIndex == pcr]
  {
  }
}
