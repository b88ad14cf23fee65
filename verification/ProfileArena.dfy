/** Profiles under construction.

    The profile generators keep every branch that they create in one list, and a branch refers to its sub-branches
    by their positions. An instruction is therefore either complete or a choice between branches that are still
    being extended; `Resolve` reads off the finished profile.
  */
module ProfileArena {
  import opened Digests
  import opened PcrProfile

  datatype PendingInstr = Plain(instr: Instr) | OrOf(branches: seq<nat>)

  function Resolve(table: seq<seq<PendingInstr>>, i: nat): Profile
    requires i < |table|
    decreases |table| - i, 2
  {
    Profile(ResolveInstrs(table, i, table[i]))
  }

  function ResolveInstrs(table: seq<seq<PendingInstr>>, i: nat, instrs: seq<PendingInstr>): seq<Instr>
    requires i < |table|
    decreases |table| - i, 1, |instrs|
  {
    if instrs == [] then []
    else
      [match instrs[0]
       case Plain(instr) => instr
       case OrOf(branches) => AddOr(ResolveEach(table, i, branches))] +
      ResolveInstrs(table, i, instrs[1..])
  }

  /** A branch only refers to branches that were created after it. */
  function ResolveEach(table: seq<seq<PendingInstr>>, i: nat, branches: seq<nat>): (r: seq<Profile>)
    requires i < |table|
    ensures |r| == |branches|
    decreases |table| - i, 0, |branches|
  {
    if branches == [] then []
    else
      [if i < branches[0] < |table| then Resolve(table, branches[0]) else Profile([])] +
      ResolveEach(table, i, branches[1..])
  }

  function Plains(instrs: seq<Instr>): (r: seq<PendingInstr>)
    ensures |r| == |instrs|
    ensures forall k | 0 <= k < |r| :: r[k] == Plain(instrs[k])
  {
    seq(|instrs|, k requires 0 <= k < |instrs| => Plain(instrs[k]))
  }

  lemma {:induction false} ResolvePlains(table: seq<seq<PendingInstr>>, i: nat, instrs: seq<Instr>,
                                         rest: seq<PendingInstr>)
    requires i < |table|
    ensures ResolveInstrs(table, i, Plains(instrs) + rest) == instrs + ResolveInstrs(table, i, rest)
    decreases |instrs|
  {
    if instrs == [] {
      assert Plains(instrs) + rest == rest;
    } else {
      assert (Plains(instrs) + rest)[1..] == Plains(instrs[1..]) + rest;
      ResolvePlains(table, i, instrs[1..], rest);
    }
  }

  // ------------------------------------------------------- measurement paths

  /** A path is the list of digests that a boot measures. */
  type Path = seq<Digest>

  function Extends(pcr: Pcr, path: Path): (r: seq<Instr>)
    ensures |r| == |path|
    ensures forall k | 0 <= k < |r| :: r[k] == ExtendPcr(pcr, path[k])
  {
    seq(|path|, k requires 0 <= k < |path| => ExtendPcr(pcr, path[k]))
  }

  function Measure(vs: seq<PcrValues>, pcr: Pcr, path: Path): seq<PcrValues>
    decreases |path|
  {
    if path == [] then vs else Measure(ExtendAll(vs, pcr, path[0]), pcr, path[1..])
  }

  /** Every path, measured on top of the incoming values. */
  function Spread(vs: seq<PcrValues>, pcr: Pcr, paths: seq<Path>): seq<PcrValues> {
    if paths == [] then [] else Measure(vs, pcr, paths[0]) + Spread(vs, pcr, paths[1..])
  }

  function Prepend(path: Path, paths: seq<Path>): (r: seq<Path>)
    ensures |r| == |paths|
    ensures forall k | 0 <= k < |r| :: r[k] == path + paths[k]
  {
    seq(|paths|, k requires 0 <= k < |paths| => path + paths[k])
  }

  lemma {:induction false} MeasureConcat(vs: seq<PcrValues>, pcr: Pcr, a: Path, b: Path)
    ensures Measure(vs, pcr, a + b) == Measure(Measure(vs, pcr, a), pcr, b)
    decreases |a|
  {
    if a == [] {
      assert a + b == b;
    } else {
      assert (a + b)[1..] == a[1..] + b;
      MeasureConcat(ExtendAll(vs, pcr, a[0]), pcr, a[1..], b);
    }
  }

  lemma {:induction false} SpreadConcat(vs: seq<PcrValues>, pcr: Pcr, a: seq<Path>, b: seq<Path>)
    ensures Spread(vs, pcr, a + b) == Spread(vs, pcr, a) + Spread(vs, pcr, b)
    decreases |a|
  {
    if a == [] {
      assert a + b == b;
    } else {
      assert (a + b)[1..] == a[1..] + b;
      SpreadConcat(vs, pcr, a[1..], b);
    }
  }

  lemma {:induction false} SpreadPrepend(vs: seq<PcrValues>, pcr: Pcr, path: Path, paths: seq<Path>)
    ensures Spread(vs, pcr, Prepend(path, paths)) == Spread(Measure(vs, pcr, path), pcr, paths)
    decreases |paths|
  {
    if paths != [] {
      assert Prepend(path, paths)[1..] == Prepend(path, paths[1..]);
      MeasureConcat(vs, pcr, path, paths[0]);
      SpreadPrepend(vs, pcr, path, paths[1..]);
    }
  }

  lemma {:induction false} PrependNothing(paths: seq<Path>)
    ensures Prepend([], paths) == paths
  {
    forall k | 0 <= k < |paths|
      ensures [] + paths[k] == paths[k]
    {
    }
  }

  lemma {:induction false} PrependTwice(a: Path, b: Path, paths: seq<Path>)
    ensures Prepend(a + b, paths) == Prepend(a, Prepend(b, paths))
  {
    forall k | 0 <= k < |paths|
      ensures a + b + paths[k] == a + (b + paths[k])
    {
    }
  }

  lemma {:induction false} DenoteExtends(pcr: Pcr, path: Path, rest: seq<Instr>, vs: seq<PcrValues>, tpm: PcrValues)
    ensures Denote(Extends(pcr, path) + rest, vs, tpm) == Denote(rest, Measure(vs, pcr, path), tpm)
    decreases |path|
  {
    if path == [] {
      assert Extends(pcr, path) + rest == rest;
    } else {
      assert (Extends(pcr, path) + rest)[1..] == Extends(pcr, path[1..]) + rest;
      DenoteExtends(pcr, path[1..], rest, ExtendAll(vs, pcr, path[0]), tpm);
    }
  }

  /** The instructions mean: first `base`, and then each of the paths. */
  ghost predicate Means(instrs: seq<Instr>, base: seq<Instr>, pcr: Pcr, paths: seq<Path>) {
    forall vs, tpm ::
      Denote(instrs, vs, tpm) ==
      match Denote(base, vs, tpm)
      case Failure(p) => Failure(p)
      case Success(ws) => Success(Spread(ws, pcr, paths))
  }

  // ------------------------------------------------------------ PCR values

  /** The combinations, with the PCR extended along a path. */
  function FoldEach(vs: seq<PcrValues>, pcr: Pcr, start: Digest, path: Path): (r: seq<PcrValues>)
    ensures |r| == |vs|
    ensures forall k | 0 <= k < |r| :: r[k] == vs[k][pcr := Fold(start, pcr.alg, path)]
  {
    seq(|vs|, k requires 0 <= k < |vs| => vs[k][pcr := Fold(start, pcr.alg, path)])
  }

  /** One value of the PCR for each path, in each combination. */
  function FoldAlong(vs: seq<PcrValues>, pcr: Pcr, start: Digest, paths: seq<Path>): seq<PcrValues> {
    if paths == [] then [] else FoldEach(vs, pcr, start, paths[0]) + FoldAlong(vs, pcr, start, paths[1..])
  }

  lemma {:induction false} MeasureIsFolds(vs: seq<PcrValues>, pcr: Pcr, start: Digest, path: Path)
    ensures Measure(SetAll(vs, pcr, start), pcr, path) == FoldEach(vs, pcr, start, path)
    decreases |path|
  {
    if path == [] {
      assert SetAll(vs, pcr, start) == FoldEach(vs, pcr, start, path);
    } else {
      var d := Extend(start, pcr.alg, path[0]);
      assert ExtendAll(SetAll(vs, pcr, start), pcr, path[0]) == SetAll(vs, pcr, d) by {
        assert forall k | 0 <= k < |vs| :: Extended(vs[k][pcr := start], pcr, path[0]) == vs[k][pcr := d];
      }
      MeasureIsFolds(vs, pcr, d, path[1..]);
      FoldConcat(start, pcr.alg, [path[0]], path[1..]);
      assert [path[0]] + path[1..] == path && [path[0]][..0] == [];
    }
  }

  lemma {:induction false} SpreadIsFolds(vs: seq<PcrValues>, pcr: Pcr, start: Digest, paths: seq<Path>)
    ensures Spread(SetAll(vs, pcr, start), pcr, paths) == FoldAlong(vs, pcr, start, paths)
    decreases |paths|
  {
    if paths != [] {
      MeasureIsFolds(vs, pcr, start, paths[0]);
      SpreadIsFolds(vs, pcr, start, paths[1..]);
    }
  }

  /** Instructions that set a PCR to zero and then take any of the paths: every combination before them is combined
      with the value that each path leads to. */
  lemma {:induction false} EvaluatesToFolds(instrs: seq<Instr>, before: Profile, pcr: Pcr, paths: seq<Path>,
                                            tpm: PcrValues)
    requires Means(instrs, before.instrs + [AddValue(pcr, Zeros(pcr.alg))], pcr, paths)
    ensures Evaluate(Profile(instrs), tpm) ==
            match Evaluate(before, tpm)
            case Failure(p) => Failure(p)
            case Success(vs) => Success(FoldAlong(vs, pcr, Zeros(pcr.alg), paths))
  {
    var set0 := [AddValue(pcr, Zeros(pcr.alg))];
    DenoteConcat(before.instrs, set0, [map[]], tpm);
    if Evaluate(before, tpm).Success? {
      var vs := Evaluate(before, tpm).value;
      assert set0[1..] == [];
      assert Denote(set0, vs, tpm) == Denote([], SetAll(vs, pcr, Zeros(pcr.alg)), tpm);
      SpreadIsFolds(vs, pcr, Zeros(pcr.alg), paths);
    }
  }

  lemma {:induction false} FoldAlongMembers(vs: seq<PcrValues>, pcr: Pcr, start: Digest, paths: seq<Path>, v: PcrValues)
    ensures v in FoldAlong(vs, pcr, start, paths) <==>
            exists w, path :: w in vs && path in paths && v == w[pcr := Fold(start, pcr.alg, path)]
    decreases |paths|
  {
    if paths != [] {
      FoldAlongMembers(vs, pcr, start, paths[1..], v);
      assert paths == [paths[0]] + paths[1..];
      var first := FoldEach(vs, pcr, start, paths[0]);
      if v in first {
        var k :| 0 <= k < |first| && first[k] == v;
        assert vs[k] in vs && paths[0] in paths;
      }
      if w :| w in vs && v == w[pcr := Fold(start, pcr.alg, paths[0])] {
        var k :| 0 <= k < |vs| && vs[k] == w;
        assert first[k] == v;
      }
    }
  }

  // ------------------------------------------------------- finished branches

  /** What a branch measures before it splits, and the branches it splits into. */
  datatype Shape = Shape(measured: Path, branches: seq<nat>)

  function Tail(branches: seq<nat>): seq<PendingInstr> {
    if branches == [] then [] else [OrOf(branches)]
  }

  function Gathered(paths: seq<seq<Path>>, branches: seq<nat>): seq<Path> {
    if branches == [] then []
    else (if branches[0] < |paths| then paths[branches[0]] else []) + Gathered(paths, branches[1..])
  }

  /** The paths through a branch, given those through its sub-branches. */
  function Continued(paths: seq<seq<Path>>, s: Shape): seq<Path> {
    Prepend(s.measured, if s.branches == [] then [[]] else Gathered(paths, s.branches))
  }

  predicate Finished(table: seq<seq<PendingInstr>>, paths: seq<seq<Path>>, live: seq<bool>, pcr: Pcr, i: nat, s: Shape)
    requires i < |table| && |table| == |paths| == |live|
  {
    && table[i] == Plains(Extends(pcr, s.measured)) + Tail(s.branches)
    && paths[i] == Continued(paths, s)
    && forall k | 0 <= k < |s.branches| :: i < s.branches[k] < |table| && live[s.branches[k]]
  }

  ghost predicate AllFinished(table: seq<seq<PendingInstr>>, paths: seq<seq<Path>>, live: seq<bool>, pcr: Pcr,
                              start: nat, shapes: seq<Shape>)
  {
    && |table| == |paths| == |live| == |shapes|
    && forall i | start <= i < |table| && live[i] :: Finished(table, paths, live, pcr, i, shapes[i])
  }

  /** A finished branch means exactly its paths. */
  lemma {:induction false} FinishedMeans(table: seq<seq<PendingInstr>>, paths: seq<seq<Path>>, live: seq<bool>,
                                         pcr: Pcr, start: nat, shapes: seq<Shape>, i: nat, vs: seq<PcrValues>,
                                         tpm: PcrValues)
    requires AllFinished(table, paths, live, pcr, start, shapes) && start <= i < |table| && live[i]
    ensures Denote(Resolve(table, i).instrs, vs, tpm) == Success(Spread(vs, pcr, paths[i]))
    decreases |table| - i, 1
  {
    assert Finished(table, paths, live, pcr, i, shapes[i]);
    ShapeMeans(table, paths, live, pcr, start, shapes, i, shapes[i], vs, tpm);
  }

  lemma {:induction false} LeafMeans(table: seq<seq<PendingInstr>>, paths: seq<seq<Path>>, pcr: Pcr, i: nat,
                                     measured: Path, vs: seq<PcrValues>, tpm: PcrValues)
    requires i < |table|
    ensures Denote(ResolveInstrs(table, i, Plains(Extends(pcr, measured)) + []), vs, tpm) ==
            Success(Spread(vs, pcr, Continued(paths, Shape(measured, []))))
  {
    ResolvePlains(table, i, Extends(pcr, measured), []);
    DenoteExtends(pcr, measured, [], vs, tpm);
    var none: seq<Path> := [[]];
    SpreadPrepend(vs, pcr, measured, none);
    assert none[1..] == [];
    assert Spread(Measure(vs, pcr, measured), pcr, none) == Measure(vs, pcr, measured);
  }

  lemma {:induction false} ChoiceMeans(table: seq<seq<PendingInstr>>, paths: seq<seq<Path>>, pcr: Pcr, i: nat,
                                       measured: Path, branches: seq<nat>, vs: seq<PcrValues>, tpm: PcrValues)
    requires i < |table| && branches != []
    requires DenoteEach(ResolveEach(table, i, branches), Measure(vs, pcr, measured), tpm) ==
             Success(Spread(Measure(vs, pcr, measured), pcr, Gathered(paths, branches)))
    ensures Denote(ResolveInstrs(table, i, Plains(Extends(pcr, measured)) + [OrOf(branches)]), vs, tpm) ==
            Success(Spread(vs, pcr, Continued(paths, Shape(measured, branches))))
  {
    ResolvePlains(table, i, Extends(pcr, measured), [OrOf(branches)]);
    var tail := ResolveInstrs(table, i, [OrOf(branches)]);
    DenoteExtends(pcr, measured, tail, vs, tpm);
    SpreadPrepend(vs, pcr, measured, Gathered(paths, branches));
    assert tail == [AddOr(ResolveEach(table, i, branches))];
    assert tail[1..] == [];
  }

  lemma {:induction false} ShapeMeans(table: seq<seq<PendingInstr>>, paths: seq<seq<Path>>, live: seq<bool>, pcr: Pcr,
                                      start: nat, shapes: seq<Shape>, i: nat, s: Shape, vs: seq<PcrValues>,
                                      tpm: PcrValues)
    requires AllFinished(table, paths, live, pcr, start, shapes) && i < |table| && start <= i + 1
    requires forall k | 0 <= k < |s.branches| :: i < s.branches[k] < |table| && live[s.branches[k]]
    ensures Denote(ResolveInstrs(table, i, Plains(Extends(pcr, s.measured)) + Tail(s.branches)), vs, tpm) ==
            Success(Spread(vs, pcr, Continued(paths, s)))
    decreases |table| - i, 0
  {
    if s.branches == [] {
      LeafMeans(table, paths, pcr, i, s.measured, vs, tpm);
    } else {
      EachMeans(table, paths, live, pcr, start, shapes, i, s.branches, Measure(vs, pcr, s.measured), tpm);
      ChoiceMeans(table, paths, pcr, i, s.measured, s.branches, vs, tpm);
    }
  }

  lemma {:induction false} EachMeans(table: seq<seq<PendingInstr>>, paths: seq<seq<Path>>, live: seq<bool>, pcr: Pcr,
                                     start: nat, shapes: seq<Shape>, i: nat, branches: seq<nat>, vs: seq<PcrValues>,
                                     tpm: PcrValues)
    requires AllFinished(table, paths, live, pcr, start, shapes) && i < |table| && start <= i + 1
    requires forall k | 0 <= k < |branches| :: i < branches[k] < |table| && live[branches[k]]
    ensures DenoteEach(ResolveEach(table, i, branches), vs, tpm) == Success(Spread(vs, pcr, Gathered(paths, branches)))
    decreases |table| - i, 0, |branches|
  {
    if branches != [] {
      assert i < branches[0] < |table| && live[branches[0]];
      FinishedMeans(table, paths, live, pcr, start, shapes, branches[0], vs, tpm);
      EachMeans(table, paths, live, pcr, start, shapes, i, branches[1..], vs, tpm);
      SpreadConcat(vs, pcr, paths[branches[0]], Gathered(paths, branches[1..]));
      assert ResolveEach(table, i, branches)[1..] == ResolveEach(table, i, branches[1..]);
    }
  }

  lemma {:induction false} GatheredConcat(paths: seq<seq<Path>>, a: seq<nat>, b: seq<nat>)
    ensures Gathered(paths, a + b) == Gathered(paths, a) + Gathered(paths, b)
    decreases |a|
  {
    if a == [] {
      assert a + b == b;
    } else {
      assert (a + b)[1..] == a[1..] + b;
      GatheredConcat(paths, a[1..], b);
    }
  }

  /** Which paths are gathered depends only on the branches that are named. */
  lemma {:induction false} GatheredLocal(paths: seq<seq<Path>>, paths': seq<seq<Path>>, branches: seq<nat>)
    requires forall k | 0 <= k < |branches| ::
               branches[k] < |paths| && branches[k] < |paths'| && paths[branches[k]] == paths'[branches[k]]
    ensures Gathered(paths, branches) == Gathered(paths', branches)
    decreases |branches|
  {
    if branches != [] {
      assert branches[0] < |paths|;
      GatheredLocal(paths, paths', branches[1..]);
    }
  }

  function Numbers(n: nat, k: nat): (r: seq<nat>)
    ensures |r| == k
    ensures forall j | 0 <= j < k :: r[j] == n + j
  {
    seq(k, j requires 0 <= j < k => n + j)
  }

  function Flatten(more: seq<seq<Path>>): seq<Path> {
    if more == [] then [] else more[0] + Flatten(more[1..])
  }

  /** The paths of branches that were added last. */
  lemma {:induction false} GatheredNew(paths: seq<seq<Path>>, more: seq<seq<Path>>)
    ensures Gathered(paths + more, Numbers(|paths|, |more|)) == Flatten(more)
    decreases |more|
  {
    if more != [] {
      var numbers := Numbers(|paths|, |more|);
      GatheredNew(paths + [more[0]], more[1..]);
      assert paths + [more[0]] + more[1..] == paths + more;
      assert numbers[1..] == Numbers(|paths| + 1, |more| - 1);
      assert (paths + more)[numbers[0]] == more[0];
    }
  }
}
