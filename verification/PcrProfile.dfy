/** PCR protection profiles and what they mean.

    A profile is a sequence of instructions; AddOr holds alternative sub-profiles.
    `Denote` is the meaning of a profile: it maps a list of PCR value combinations to
    the list of combinations the profile allows. `Paths` is an independent reading of
    a profile, as the set of straight-line instruction sequences through its choices.
  */
module PcrProfile {
  import opened Digests

  datatype Instr =
    | AddValue(pcr: Pcr, value: Digest)
    | AddValueFromTpm(pcr: Pcr)
    | ExtendPcr(pcr: Pcr, value: Digest)
    | AddOr(profiles: seq<Profile>)

  datatype Profile = Profile(instrs: seq<Instr>)

  /** A read of a PCR that the TPM does not answer (or there is no TPM) fails the evaluation. */
  type Evaluation = Result<seq<PcrValues>, Pcr>

  // ------------------------------------------------------------- denotation

  function Extended(v: PcrValues, pcr: Pcr, value: Digest): PcrValues {
    v[pcr := Extend(if pcr in v then v[pcr] else Zeros(pcr.alg), pcr.alg, value)]
  }

  function SetAll(vs: seq<PcrValues>, pcr: Pcr, value: Digest): (r: seq<PcrValues>)
    ensures |r| == |vs|
    ensures forall i | 0 <= i < |vs| :: r[i] == vs[i][pcr := value]
  {
    seq(|vs|, i requires 0 <= i < |vs| => vs[i][pcr := value])
  }

  function ExtendAll(vs: seq<PcrValues>, pcr: Pcr, value: Digest): (r: seq<PcrValues>)
    ensures |r| == |vs|
    ensures forall i | 0 <= i < |vs| :: r[i] == Extended(vs[i], pcr, value)
  {
    seq(|vs|, i requires 0 <= i < |vs| => Extended(vs[i], pcr, value))
  }

  /** The combinations that the instructions make of the incoming ones. `tpm` holds the
      PCR values that AddValueFromTpm can read. */
  function Denote(instrs: seq<Instr>, vs: seq<PcrValues>, tpm: PcrValues): Evaluation
    decreases instrs
  {
    if instrs == [] then Success(vs)
    else
      match instrs[0]
      case AddValue(pcr, value) => Denote(instrs[1..], SetAll(vs, pcr, value), tpm)
      case AddValueFromTpm(pcr) =>
        if pcr in tpm then Denote(instrs[1..], SetAll(vs, pcr, tpm[pcr]), tpm) else Failure(pcr)
      case ExtendPcr(pcr, value) => Denote(instrs[1..], ExtendAll(vs, pcr, value), tpm)
      case AddOr(profiles) =>
        if profiles == [] then Denote(instrs[1..], vs, tpm)
        else
          match DenoteEach(profiles, vs, tpm)
          case Failure(pcr) => Failure(pcr)
          case Success(ws) => Denote(instrs[1..], ws, tpm)
  }

  /** Every sub-profile runs on the incoming combinations, and the results are concatenated. */
  function DenoteEach(profiles: seq<Profile>, vs: seq<PcrValues>, tpm: PcrValues): Evaluation
    decreases profiles
  {
    if profiles == [] then Success([])
    else
      match Denote(profiles[0].instrs, vs, tpm)
      case Failure(pcr) => Failure(pcr)
      case Success(ws) =>
        match DenoteEach(profiles[1..], vs, tpm)
        case Failure(pcr) => Failure(pcr)
        case Success(xs) => Success(ws + xs)
  }

  /** The meaning of a whole profile: evaluation starts from one empty combination. */
  function Evaluate(p: Profile, tpm: PcrValues): Evaluation {
    Denote(p.instrs, [map[]], tpm)
  }

  /** Instructions run one after the other. */
  lemma {:induction false} DenoteConcat(a: seq<Instr>, b: seq<Instr>, vs: seq<PcrValues>, tpm: PcrValues)
    ensures Denote(a + b, vs, tpm) ==
            match Denote(a, vs, tpm)
            case Failure(pcr) => Failure(pcr)
            case Success(ws) => Denote(b, ws, tpm)
    decreases a
  {
    if a == [] {
      assert a + b == b;
    } else {
      assert (a + b)[0] == a[0];
      assert (a + b)[1..] == a[1..] + b;
      match a[0]
      case AddValue(pcr, value) => DenoteConcat(a[1..], b, SetAll(vs, pcr, value), tpm);
      case AddValueFromTpm(pcr) =>
        if pcr in tpm {
          DenoteConcat(a[1..], b, SetAll(vs, pcr, tpm[pcr]), tpm);
        }
      case ExtendPcr(pcr, value) => DenoteConcat(a[1..], b, ExtendAll(vs, pcr, value), tpm);
      case AddOr(profiles) =>
        if profiles == [] {
          DenoteConcat(a[1..], b, vs, tpm);
        } else if DenoteEach(profiles, vs, tpm).Success? {
          DenoteConcat(a[1..], b, DenoteEach(profiles, vs, tpm).value, tpm);
        }
    }
  }

  // ---------------------------------------------------------- branch counting

  /** Successive choices multiply and alternatives add; an empty choice is no choice. */
  function BranchCount(instrs: seq<Instr>): (n: nat)
    ensures n > 0
    decreases instrs
  {
    if instrs == [] then 1
    else if instrs[0].AddOr? && instrs[0].profiles != [] then
      BranchSum(instrs[0].profiles) * BranchCount(instrs[1..])
    else BranchCount(instrs[1..])
  }

  function BranchSum(profiles: seq<Profile>): (n: nat)
    ensures profiles != [] ==> n > 0
    decreases profiles
  {
    if profiles == [] then 0 else BranchCount(profiles[0].instrs) + BranchSum(profiles[1..])
  }

  lemma {:induction false} DenoteLength(instrs: seq<Instr>, vs: seq<PcrValues>, tpm: PcrValues)
    requires Denote(instrs, vs, tpm).Success?
    ensures |Denote(instrs, vs, tpm).value| == |vs| * BranchCount(instrs)
    decreases instrs
  {
    if instrs != [] {
      match instrs[0]
      case AddValue(pcr, value) => DenoteLength(instrs[1..], SetAll(vs, pcr, value), tpm);
      case AddValueFromTpm(pcr) => DenoteLength(instrs[1..], SetAll(vs, pcr, tpm[pcr]), tpm);
      case ExtendPcr(pcr, value) => DenoteLength(instrs[1..], ExtendAll(vs, pcr, value), tpm);
      case AddOr(profiles) =>
        if profiles == [] {
          DenoteLength(instrs[1..], vs, tpm);
        } else {
          DenoteEachLength(profiles, vs, tpm);
          DenoteLength(instrs[1..], DenoteEach(profiles, vs, tpm).value, tpm);
          MulAssociates(|vs|, BranchSum(profiles), BranchCount(instrs[1..]));
        }
    }
  }

  lemma {:induction false} DenoteEachLength(profiles: seq<Profile>, vs: seq<PcrValues>, tpm: PcrValues)
    requires DenoteEach(profiles, vs, tpm).Success?
    ensures |DenoteEach(profiles, vs, tpm).value| == |vs| * BranchSum(profiles)
    decreases profiles
  {
    if profiles != [] {
      DenoteLength(profiles[0].instrs, vs, tpm);
      DenoteEachLength(profiles[1..], vs, tpm);
      MulDistributes(|vs|, BranchCount(profiles[0].instrs), BranchSum(profiles[1..]));
    }
  }

  lemma {:induction false} MulDistributes(a: nat, b: nat, c: nat)
    ensures a * (b + c) == a * b + a * c
  {
  }

  lemma {:induction false} MulAssociates(a: nat, b: nat, c: nat)
    ensures a * b * c == a * (b * c)
  {
  }

  // ------------------------------------------------------- paths through choices

  /** The straight-line instruction sequences through the choices of a profile. */
  function Paths(instrs: seq<Instr>): set<seq<Instr>>
    decreases instrs
  {
    if instrs == [] then {[]}
    else if !instrs[0].AddOr? then set rest | rest in Paths(instrs[1..]) :: [instrs[0]] + rest
    else if instrs[0].profiles == [] then Paths(instrs[1..])
    else
      var heads := PathsOfEach(instrs[0].profiles);
      set head, rest | head in heads && rest in Paths(instrs[1..]) :: head + rest
  }

  function PathsOfEach(profiles: seq<Profile>): set<seq<Instr>>
    decreases profiles
  {
    if profiles == [] then {} else Paths(profiles[0].instrs) + PathsOfEach(profiles[1..])
  }

  predicate Straight(path: seq<Instr>) {
    forall i | 0 <= i < |path| :: !path[i].AddOr?
  }

  /** One straight-line run from one combination of values. */
  function RunPath(path: seq<Instr>, v: PcrValues, tpm: PcrValues): Result<PcrValues, Pcr>
    requires Straight(path)
  {
    if path == [] then Success(v)
    else
      match path[0]
      case AddValue(pcr, value) => RunPath(path[1..], v[pcr := value], tpm)
      case AddValueFromTpm(pcr) =>
        if pcr in tpm then RunPath(path[1..], v[pcr := tpm[pcr]], tpm) else Failure(pcr)
      case ExtendPcr(pcr, value) => RunPath(path[1..], Extended(v, pcr, value), tpm)
  }

  lemma {:induction false} PathsAreStraight(instrs: seq<Instr>, path: seq<Instr>)
    requires path in Paths(instrs)
    ensures Straight(path)
    decreases instrs
  {
    if instrs == [] {
    } else if !instrs[0].AddOr? {
      var rest :| rest in Paths(instrs[1..]) && path == [instrs[0]] + rest;
      PathsAreStraight(instrs[1..], rest);
    } else if instrs[0].profiles == [] {
      PathsAreStraight(instrs[1..], path);
    } else {
      var head, rest :| head in PathsOfEach(instrs[0].profiles) && rest in Paths(instrs[1..]) && path == head + rest;
      PathsOfEachAreStraight(instrs[0].profiles, head);
      PathsAreStraight(instrs[1..], rest);
    }
  }

  lemma {:induction false} PathsOfEachAreStraight(profiles: seq<Profile>, path: seq<Instr>)
    requires path in PathsOfEach(profiles)
    ensures Straight(path)
    decreases profiles
  {
    if path in Paths(profiles[0].instrs) {
      PathsAreStraight(profiles[0].instrs, path);
    } else {
      PathsOfEachAreStraight(profiles[1..], path);
    }
  }

  lemma {:induction false} RunPathConcat(a: seq<Instr>, b: seq<Instr>, v: PcrValues, tpm: PcrValues)
    requires Straight(a) && Straight(b)
    ensures RunPath(a + b, v, tpm) ==
            match RunPath(a, v, tpm)
            case Failure(pcr) => Failure(pcr)
            case Success(w) => RunPath(b, w, tpm)
  {
    if a == [] {
      assert a + b == b;
    } else {
      assert (a + b)[1..] == a[1..] + b;
      match a[0]
      case AddValue(pcr, value) => RunPathConcat(a[1..], b, v[pcr := value], tpm);
      case AddValueFromTpm(pcr) =>
        if pcr in tpm {
          RunPathConcat(a[1..], b, v[pcr := tpm[pcr]], tpm);
        }
      case ExtendPcr(pcr, value) => RunPathConcat(a[1..], b, Extended(v, pcr, value), tpm);
    }
  }

  /** One straight-line run of `instrs` takes v to w. */
  ghost predicate Leads(instrs: seq<Instr>, v: PcrValues, path: seq<Instr>, w: PcrValues, tpm: PcrValues) {
    path in Paths(instrs) && Straight(path) && RunPath(path, v, tpm) == Success(w)
  }

  ghost predicate LeadsOfEach(profiles: seq<Profile>, v: PcrValues, path: seq<Instr>, w: PcrValues, tpm: PcrValues) {
    path in PathsOfEach(profiles) && Straight(path) && RunPath(path, v, tpm) == Success(w)
  }

  /** The state after the first, straight-line instruction, if it can run. */
  function StepOne(i: Instr, v: PcrValues, tpm: PcrValues): Option<PcrValues>
    requires !i.AddOr?
  {
    match i
    case AddValue(pcr, value) => Some(v[pcr := value])
    case AddValueFromTpm(pcr) => if pcr in tpm then Some(v[pcr := tpm[pcr]]) else None
    case ExtendPcr(pcr, value) => Some(Extended(v, pcr, value))
  }

  function StepAll(i: Instr, vs: seq<PcrValues>, tpm: PcrValues): (r: Option<seq<PcrValues>>)
    requires !i.AddOr?
    ensures r.Some? ==> |r.value| == |vs| &&
                        forall k | 0 <= k < |vs| :: StepOne(i, vs[k], tpm) == Some(r.value[k])
    ensures r.None? ==> forall v :: StepOne(i, v, tpm) == None
  {
    match i
    case AddValue(pcr, value) => Some(SetAll(vs, pcr, value))
    case AddValueFromTpm(pcr) => if pcr in tpm then Some(SetAll(vs, pcr, tpm[pcr])) else None
    case ExtendPcr(pcr, value) => Some(ExtendAll(vs, pcr, value))
  }

  /** Every combination a profile allows comes from a straight-line run of one incoming combination. */
  lemma {:induction false} DenoteFromPath(instrs: seq<Instr>, vs: seq<PcrValues>, w: PcrValues, tpm: PcrValues)
      returns (k: nat, path: seq<Instr>)
    requires Denote(instrs, vs, tpm).Success? && w in Denote(instrs, vs, tpm).value
    ensures k < |vs| && Leads(instrs, vs[k], path, w, tpm)
    decreases instrs
  {
    if instrs == [] {
      k :| k < |vs| && vs[k] == w;
      path := [];
    } else if !instrs[0].AddOr? {
      var next := StepAll(instrs[0], vs, tpm).value;
      var rest;
      k, rest := DenoteFromPath(instrs[1..], next, w, tpm);
      path := [instrs[0]] + rest;
      assert path[1..] == rest;
    } else if instrs[0].profiles == [] {
      k, path := DenoteFromPath(instrs[1..], vs, w, tpm);
    } else {
      var mid := DenoteEach(instrs[0].profiles, vs, tpm).value;
      var j, rest := DenoteFromPath(instrs[1..], mid, w, tpm);
      var head;
      k, head := DenoteEachFromPath(instrs[0].profiles, vs, mid[j], tpm);
      RunPathConcat(head, rest, vs[k], tpm);
      path := head + rest;
    }
  }

  lemma {:induction false} DenoteEachFromPath(profiles: seq<Profile>, vs: seq<PcrValues>, w: PcrValues, tpm: PcrValues)
      returns (k: nat, path: seq<Instr>)
    requires DenoteEach(profiles, vs, tpm).Success? && w in DenoteEach(profiles, vs, tpm).value
    ensures k < |vs| && LeadsOfEach(profiles, vs[k], path, w, tpm)
    decreases profiles
  {
    if w in Denote(profiles[0].instrs, vs, tpm).value {
      k, path := DenoteFromPath(profiles[0].instrs, vs, w, tpm);
    } else {
      k, path := DenoteEachFromPath(profiles[1..], vs, w, tpm);
    }
  }

  /** When a profile evaluates, every straight-line run from every incoming combination succeeds and is allowed. */
  lemma {:induction false} PathIsDenoted(instrs: seq<Instr>, vs: seq<PcrValues>, k: nat, path: seq<Instr>,
                                         tpm: PcrValues)
    requires Denote(instrs, vs, tpm).Success? && k < |vs| && path in Paths(instrs)
    ensures Straight(path) && RunPath(path, vs[k], tpm).Success?
    ensures RunPath(path, vs[k], tpm).value in Denote(instrs, vs, tpm).value
    decreases instrs
  {
    PathsAreStraight(instrs, path);
    if instrs == [] {
    } else if !instrs[0].AddOr? {
      var rest :| rest in Paths(instrs[1..]) && path == [instrs[0]] + rest;
      assert path[1..] == rest;
      PathIsDenoted(instrs[1..], StepAll(instrs[0], vs, tpm).value, k, rest, tpm);
    } else if instrs[0].profiles == [] {
      PathIsDenoted(instrs[1..], vs, k, path, tpm);
    } else {
      var head, rest :| head in PathsOfEach(instrs[0].profiles) && rest in Paths(instrs[1..]) && path == head + rest;
      PathOfEachIsDenoted(instrs[0].profiles, vs, k, head, tpm);
      PathsAreStraight(instrs[1..], rest);
      RunPathConcat(head, rest, vs[k], tpm);
      var mid := DenoteEach(instrs[0].profiles, vs, tpm).value;
      var j :| 0 <= j < |mid| && mid[j] == RunPath(head, vs[k], tpm).value;
      PathIsDenoted(instrs[1..], mid, j, rest, tpm);
    }
  }

  lemma {:induction false} PathOfEachIsDenoted(profiles: seq<Profile>, vs: seq<PcrValues>, k: nat, path: seq<Instr>,
                                               tpm: PcrValues)
    requires DenoteEach(profiles, vs, tpm).Success? && k < |vs| && path in PathsOfEach(profiles)
    ensures Straight(path) && RunPath(path, vs[k], tpm).Success?
    ensures RunPath(path, vs[k], tpm).value in DenoteEach(profiles, vs, tpm).value
    decreases profiles
  {
    if path in Paths(profiles[0].instrs) {
      PathIsDenoted(profiles[0].instrs, vs, k, path, tpm);
    } else {
      PathOfEachIsDenoted(profiles[1..], vs, k, path, tpm);
    }
  }

  /** Every profile has a path. */
  lemma {:induction false} PathExists(instrs: seq<Instr>) returns (path: seq<Instr>)
    ensures path in Paths(instrs) && Straight(path)
    decreases instrs
  {
    if instrs == [] {
      path := [];
    } else if !instrs[0].AddOr? {
      var rest := PathExists(instrs[1..]);
      path := [instrs[0]] + rest;
    } else if instrs[0].profiles == [] {
      path := PathExists(instrs[1..]);
    } else {
      var head := PathExists(instrs[0].profiles[0].instrs);
      var rest := PathExists(instrs[1..]);
      path := head + rest;
    }
  }

  /** Whether an evaluation fails does not depend on the incoming combinations. */
  lemma {:induction false} FailureIgnoresValues(instrs: seq<Instr>, vs: seq<PcrValues>, ws: seq<PcrValues>,
                                                tpm: PcrValues)
    ensures Denote(instrs, vs, tpm).Success? <==> Denote(instrs, ws, tpm).Success?
    decreases instrs
  {
    if instrs == [] {
    } else if !instrs[0].AddOr? {
      if StepAll(instrs[0], vs, tpm).Some? && StepAll(instrs[0], ws, tpm).Some? {
        FailureIgnoresValues(instrs[1..], StepAll(instrs[0], vs, tpm).value, StepAll(instrs[0], ws, tpm).value, tpm);
      }
    } else if instrs[0].profiles == [] {
      FailureIgnoresValues(instrs[1..], vs, ws, tpm);
    } else {
      FailureOfEachIgnoresValues(instrs[0].profiles, vs, ws, tpm);
      var vs', ws' := DenoteEach(instrs[0].profiles, vs, tpm), DenoteEach(instrs[0].profiles, ws, tpm);
      if vs'.Success? {
        FailureIgnoresValues(instrs[1..], vs'.value, ws'.value, tpm);
      }
    }
  }

  lemma {:induction false} FailureOfEachIgnoresValues(profiles: seq<Profile>, vs: seq<PcrValues>, ws: seq<PcrValues>,
                                                      tpm: PcrValues)
    ensures DenoteEach(profiles, vs, tpm).Success? <==> DenoteEach(profiles, ws, tpm).Success?
    decreases profiles
  {
    if profiles != [] {
      FailureIgnoresValues(profiles[0].instrs, vs, ws, tpm);
      FailureOfEachIgnoresValues(profiles[1..], vs, ws, tpm);
    }
  }

  /** When a profile does not evaluate, some straight-line run cannot read the PCR that is reported. */
  lemma {:induction false} FailureFromPath(instrs: seq<Instr>, vs: seq<PcrValues>, v: PcrValues, tpm: PcrValues)
      returns (path: seq<Instr>)
    requires Denote(instrs, vs, tpm).Failure?
    ensures path in Paths(instrs) && Straight(path)
    ensures RunPath(path, v, tpm) == Failure(Denote(instrs, vs, tpm).error)
    decreases instrs
  {
    if !instrs[0].AddOr? {
      match StepAll(instrs[0], vs, tpm)
      case None =>
        var rest := PathExists(instrs[1..]);
        path := [instrs[0]] + rest;
      case Some(next) =>
        var after := StepAll(instrs[0], [v], tpm).value[0];
        var rest := FailureFromPath(instrs[1..], next, after, tpm);
        path := [instrs[0]] + rest;
        assert path[1..] == rest;
    } else if instrs[0].profiles == [] {
      path := FailureFromPath(instrs[1..], vs, v, tpm);
    } else {
      match DenoteEach(instrs[0].profiles, vs, tpm)
      case Failure(_) =>
        var head := FailureOfEachFromPath(instrs[0].profiles, vs, v, tpm);
        var rest := PathExists(instrs[1..]);
        RunPathConcat(head, rest, v, tpm);
        path := head + rest;
      case Success(mid) =>
        var head := PathExists(instrs[0].profiles[0].instrs);
        FailureIgnoresValues(instrs[0].profiles[0].instrs, vs, [v], tpm);
        PathIsDenoted(instrs[0].profiles[0].instrs, [v], 0, head, tpm);
        var rest := FailureFromPath(instrs[1..], mid, RunPath(head, v, tpm).value, tpm);
        RunPathConcat(head, rest, v, tpm);
        path := head + rest;
    }
  }

  lemma {:induction false} FailureOfEachFromPath(profiles: seq<Profile>, vs: seq<PcrValues>, v: PcrValues,
                                                 tpm: PcrValues)
      returns (path: seq<Instr>)
    requires DenoteEach(profiles, vs, tpm).Failure?
    ensures path in PathsOfEach(profiles) && Straight(path)
    ensures RunPath(path, v, tpm) == Failure(DenoteEach(profiles, vs, tpm).error)
    decreases profiles
  {
    if Denote(profiles[0].instrs, vs, tpm).Failure? {
      path := FailureFromPath(profiles[0].instrs, vs, v, tpm);
    } else {
      path := FailureOfEachFromPath(profiles[1..], vs, v, tpm);
    }
  }

  /** The combinations a profile allows are exactly the results of its straight-line runs, and its evaluation
      fails exactly when one of those runs does. */
  lemma {:induction false} EvaluateIsPaths(p: Profile, tpm: PcrValues)
    ensures Evaluate(p, tpm).Success? <==>
            forall path | path in Paths(p.instrs) :: Straight(path) && RunPath(path, map[], tpm).Success?
    ensures Evaluate(p, tpm).Success? ==>
              forall w :: w in Evaluate(p, tpm).value <==> exists path :: Leads(p.instrs, map[], path, w, tpm)
  {
    if Evaluate(p, tpm).Failure? {
      var path := FailureFromPath(p.instrs, [map[]], map[], tpm);
    } else {
      forall path | path in Paths(p.instrs)
        ensures Straight(path) && RunPath(path, map[], tpm).Success?
      {
        PathIsDenoted(p.instrs, [map[]], 0, path, tpm);
      }
      forall w
        ensures w in Evaluate(p, tpm).value <==> exists path :: Leads(p.instrs, map[], path, w, tpm)
      {
        if w in Evaluate(p, tpm).value {
          var k, path := DenoteFromPath(p.instrs, [map[]], w, tpm);
        }
        if path :| Leads(p.instrs, map[], path, w, tpm) {
          PathIsDenoted(p.instrs, [map[]], 0, path, tpm);
        }
      }
    }
  }

  // ------------------------------------------------------ the value of one PCR

  /** The values with which a path extends a PCR, in order. */
  ghost function ExtendsOn(path: seq<Instr>, p: Pcr): seq<Digest> {
    if path == [] then []
    else
      var last := path[|path| - 1];
      ExtendsOn(path[..|path| - 1], p) + if last.ExtendPcr? && last.pcr == p then [last.value] else []
  }

  ghost predicate Sets(i: Instr, p: Pcr) {
    (i.AddValue? || i.AddValueFromTpm?) && i.pcr == p
  }

  lemma {:induction false} RunPathLast(path: seq<Instr>, v: PcrValues, tpm: PcrValues)
    requires path != [] && Straight(path) && RunPath(path, v, tpm).Success?
    ensures Straight(path[..|path| - 1]) && RunPath(path[..|path| - 1], v, tpm).Success?
    ensures StepOne(path[|path| - 1], RunPath(path[..|path| - 1], v, tpm).value, tpm) ==
            Some(RunPath(path, v, tpm).value)
  {
    var front, last := path[..|path| - 1], path[|path| - 1];
    assert path == front + [last];
    RunPathConcat(front, [last], v, tpm);
    assert [last][1..] == [];
  }

  /** A PCR that a path does not set is extended from the value it had, or from zero. */
  lemma {:induction false} OnlyExtended(path: seq<Instr>, v: PcrValues, tpm: PcrValues, p: Pcr)
    requires Straight(path) && RunPath(path, v, tpm).Success? && forall k | 0 <= k < |path| :: !Sets(path[k], p)
    ensures
      var w, es := RunPath(path, v, tpm).value, ExtendsOn(path, p);
      && (p in w <==> p in v || es != [])
      && (p in w ==> w[p] == Fold(if p in v then v[p] else Zeros(p.alg), p.alg, es))
    decreases |path|
  {
    if path != [] {
      var n := |path| - 1;
      RunPathLast(path, v, tpm);
      assert forall k | 0 <= k < n :: path[..n][k] == path[k];
      OnlyExtended(path[..n], v, tpm, p);
      var es := ExtendsOn(path[..n], p);
      if path[n].ExtendPcr? && path[n].pcr == p {
        assert (es + [path[n].value])[..|es|] == es;
      } else {
        assert es + [] == es;
      }
    }
  }

  /** The value of a PCR at the end of a path: what the last instruction that sets it gives it, extended with what
      follows. */
  lemma {:induction false} SetThenExtended(path: seq<Instr>, v: PcrValues, tpm: PcrValues, p: Pcr, j: nat)
    requires Straight(path) && RunPath(path, v, tpm).Success?
    requires j < |path| && Sets(path[j], p) && forall k | j < k < |path| :: !Sets(path[k], p)
    ensures
      var w := RunPath(path, v, tpm).value;
      && p in w && (path[j].AddValueFromTpm? ==> p in tpm)
      && w[p] == Fold(if path[j].AddValue? then path[j].value else tpm[p], p.alg, ExtendsOn(path[j + 1..], p))
  {
    var head, rest := path[..j + 1], path[j + 1..];
    assert path == head + rest;
    RunPathConcat(head, rest, v, tpm);
    RunPathLast(head, v, tpm);
    assert head[|head| - 1] == path[j];
    assert forall k | 0 <= k < |rest| :: rest[k] == path[j + 1 + k];
    OnlyExtended(rest, RunPath(head, v, tpm).value, tpm, p);
  }
}
