/** The evaluator of PCR protection profiles: an instruction iterator and a parallel
    stack of contexts, both updated in place. Its result is the denotation of the profile.
  */
module PcrEvaluator {
  import opened Digests
  import opened PcrProfile

  // ------------------------------------------------------- the abstract stack

  /** One level of the evaluation: the instructions still to run, the combinations
      computed so far, and the level (counted from the bottom) that receives them. */
  datatype Frame = Frame(instrs: seq<Instr>, values: seq<PcrValues>, parent: nat)

  predicate WellStacked(fs: seq<Frame>) {
    |fs| > 0 && forall i | 0 <= i < |fs| - 1 :: fs[i].parent < |fs| - 1 - i
  }

  /** The frames once `ws` has been added to the combinations of level `level`. */
  function Deliver(fs: seq<Frame>, level: nat, ws: seq<PcrValues>): (r: seq<Frame>)
    requires WellStacked(fs) && level < |fs|
    ensures WellStacked(r) && |r| == |fs|
  {
    var i := |fs| - 1 - level;
    fs[i := fs[i].(values := fs[i].values + ws)]
  }

  /** What the rest of the evaluation will return: run the top level, hand its
      combinations to its parent, and continue. */
  function Finish(fs: seq<Frame>, tpm: PcrValues): Evaluation
    requires WellStacked(fs)
    decreases |fs|
  {
    match Denote(fs[0].instrs, fs[0].values, tpm)
    case Failure(pcr) => Failure(pcr)
    case Success(ws) =>
      if |fs| == 1 then Success(ws)
      else Finish(Deliver(Below(fs), fs[0].parent, ws), tpm)
  }

  function Below(fs: seq<Frame>): (r: seq<Frame>)
    requires WellStacked(fs) && |fs| > 1
    ensures WellStacked(r) && |r| == |fs| - 1 && fs[0].parent < |r|
  {
    fs[1..]
  }

  /** The levels that a choice opens, all running on the same incoming combinations. */
  function BranchFrames(profiles: seq<Profile>, vs: seq<PcrValues>, level: nat): (r: seq<Frame>)
    ensures |r| == |profiles|
    ensures forall i | 0 <= i < |profiles| :: r[i] == Frame(profiles[i].instrs, vs, level)
  {
    seq(|profiles|, i requires 0 <= i < |profiles| => Frame(profiles[i].instrs, vs, level))
  }

  /** Running the open alternatives of a choice delivers their concatenated results to the parked level. */
  lemma {:induction false} FinishBranches(profiles: seq<Profile>, vs: seq<PcrValues>, parked: Frame, below: seq<Frame>,
                                          tpm: PcrValues)
    requires WellStacked([parked] + below)
    ensures WellStacked(BranchFrames(profiles, vs, |below|) + [parked] + below)
    ensures Finish(BranchFrames(profiles, vs, |below|) + [parked] + below, tpm) ==
            match DenoteEach(profiles, vs, tpm)
            case Failure(pcr) => Failure(pcr)
            case Success(ws) => Finish(Deliver([parked] + below, |below|, ws), tpm)
    decreases |profiles|
  {
    StackedBranches(profiles, vs, parked, below);
    var base := [parked] + below;
    if profiles == [] {
      assert BranchFrames(profiles, vs, |below|) + [parked] + below == base;
      assert parked.values + [] == parked.values;
      assert Deliver(base, |below|, []) == base;
    } else if Denote(profiles[0].instrs, vs, tpm).Success? {
      var ws := Denote(profiles[0].instrs, vs, tpm).value;
      DeliverFirst(profiles, vs, parked, below, ws);
      var parked' := parked.(values := parked.values + ws);
      FinishBranches(profiles[1..], vs, parked', below, tpm);
      if DenoteEach(profiles[1..], vs, tpm).Success? {
        DeliverTwice(base, |below|, ws, DenoteEach(profiles[1..], vs, tpm).value);
      }
    }
  }

  lemma {:induction false} DeliverFirst(profiles: seq<Profile>, vs: seq<PcrValues>, parked: Frame, below: seq<Frame>,
                                        ws: seq<PcrValues>)
    requires profiles != [] && WellStacked([parked] + below)
    requires WellStacked(BranchFrames(profiles, vs, |below|) + [parked] + below)
    ensures [parked.(values := parked.values + ws)] + below == Deliver([parked] + below, |below|, ws)
    ensures Deliver(Below(BranchFrames(profiles, vs, |below|) + [parked] + below), |below|, ws) ==
            BranchFrames(profiles[1..], vs, |below|) + [parked.(values := parked.values + ws)] + below
  {
    var fs := BranchFrames(profiles, vs, |below|) + [parked] + below;
    assert fs[1..] == BranchFrames(profiles[1..], vs, |below|) + [parked] + below;
  }

  lemma {:induction false} DeliverTwice(fs: seq<Frame>, level: nat, ws: seq<PcrValues>, xs: seq<PcrValues>)
    requires WellStacked(fs) && level < |fs|
    ensures Deliver(Deliver(fs, level, ws), level, xs) == Deliver(fs, level, ws + xs)
  {
    var i := |fs| - 1 - level;
    assert fs[i].values + ws + xs == fs[i].values + (ws + xs);
  }

  lemma {:induction false} StackedBranches(profiles: seq<Profile>, vs: seq<PcrValues>, parked: Frame, below: seq<Frame>)
    requires WellStacked([parked] + below)
    ensures WellStacked(BranchFrames(profiles, vs, |below|) + [parked] + below)
  {
    var fs := BranchFrames(profiles, vs, |below|) + [parked] + below;
    var base := [parked] + below;
    forall i | 0 <= i < |fs| - 1
      ensures fs[i].parent < |fs| - 1 - i
    {
      if i >= |profiles| {
        assert fs[i] == base[i - |profiles|];
      }
    }
  }

  /** Entering a choice does not change what the evaluation will return. */
  lemma {:induction false} EnterChoice(fs: seq<Frame>, profiles: seq<Profile>, rest: seq<Instr>, tpm: PcrValues)
    requires WellStacked(fs) && profiles != []
    requires fs[0].instrs == [AddOr(profiles)] + rest
    ensures
      var parked := Frame(rest, [], fs[0].parent);
      var entered := BranchFrames(profiles, fs[0].values, |fs| - 1) + [parked] + fs[1..];
      WellStacked(entered) && Finish(entered, tpm) == Finish(fs, tpm)
  {
    var vs := fs[0].values;
    var parked := Frame(rest, [], fs[0].parent);
    var base := [parked] + fs[1..];
    assert base == fs[0 := parked];
    assert fs[0].instrs[1..] == rest;
    FinishBranches(profiles, vs, parked, fs[1..], tpm);
    if DenoteEach(profiles, vs, tpm).Success? {
      var ws := DenoteEach(profiles, vs, tpm).value;
      var resumed := Deliver(base, |fs| - 1, ws);
      assert parked.values + ws == ws;
      assert resumed[1..] == fs[1..];
    }
  }

  /** Replacing the top level by one with the same denotation changes nothing. */
  lemma {:induction false} FinishTop(fs: seq<Frame>, gs: seq<Frame>, tpm: PcrValues)
    requires WellStacked(fs) && |gs| == |fs| && gs[1..] == fs[1..] && gs[0].parent == fs[0].parent
    requires Denote(gs[0].instrs, gs[0].values, tpm) == Denote(fs[0].instrs, fs[0].values, tpm)
    ensures WellStacked(gs) && Finish(gs, tpm) == Finish(fs, tpm)
  {
    forall i | 0 <= i < |gs| - 1
      ensures gs[i].parent < |gs| - 1 - i
    {
      if i > 0 {
        assert gs[i] == gs[1..][i - 1] == fs[1..][i - 1] == fs[i];
      }
    }
  }

  /** The frames once the first instruction of the top level has run. */
  ghost function Stepped(fs: seq<Frame>, vs: seq<PcrValues>): seq<Frame>
    requires WellStacked(fs) && fs[0].instrs != []
  {
    fs[0 := Frame(fs[0].instrs[1..], vs, fs[0].parent)]
  }

  // ------------------------------------------------------------- the iterator

  /** A bound on the number of steps left in a list of instructions. */
  function Weight(instrs: seq<Instr>): nat
    decreases instrs
  {
    if instrs == [] then 0
    else
      1 + (if instrs[0].AddOr? then WeightOfEach(instrs[0].profiles) else 0) + Weight(instrs[1..])
  }

  function WeightOfEach(profiles: seq<Profile>): nat
    decreases profiles
  {
    if profiles == [] then 0 else 1 + Weight(profiles[0].instrs) + WeightOfEach(profiles[1..])
  }

  function WeightOfStack(stack: seq<seq<Instr>>): nat {
    if stack == [] then 0 else 1 + Weight(stack[0]) + WeightOfStack(stack[1..])
  }

  function Bodies(profiles: seq<Profile>): (r: seq<seq<Instr>>)
    ensures |r| == |profiles|
    ensures forall i | 0 <= i < |profiles| :: r[i] == profiles[i].instrs
  {
    seq(|profiles|, i requires 0 <= i < |profiles| => profiles[i].instrs)
  }

  lemma {:induction false} WeightOfBodies(profiles: seq<Profile>, below: seq<seq<Instr>>)
    ensures WeightOfStack(Bodies(profiles) + below) == WeightOfEach(profiles) + WeightOfStack(below)
    decreases |profiles|
  {
    if profiles == [] {
      assert Bodies(profiles) + below == below;
    } else {
      WeightOfBodies(profiles[1..], below);
      assert (Bodies(profiles) + below)[1..] == Bodies(profiles[1..]) + below;
    }
  }

  /** Empty choices yield no instruction. */
  function SkipEmptyChoices(instrs: seq<Instr>): (r: seq<Instr>)
    ensures r == [] || r[0] != AddOr([])
    ensures Weight(r) <= Weight(instrs)
  {
    if instrs != [] && instrs[0] == AddOr([]) then SkipEmptyChoices(instrs[1..]) else instrs
  }

  lemma {:induction false} SkippedChoicesMeanNothing(instrs: seq<Instr>, vs: seq<PcrValues>, tpm: PcrValues)
    ensures Denote(SkipEmptyChoices(instrs), vs, tpm) == Denote(instrs, vs, tpm)
  {
    if instrs != [] && instrs[0] == AddOr([]) {
      SkippedChoicesMeanNothing(instrs[1..], vs, tpm);
    }
  }

  /** None stands for the end-of-profile pseudo instruction. */
  class ProfileIterator {
    var stack: seq<seq<Instr>>

    constructor (p: Profile)
      ensures stack == [p.instrs]
    {
      stack := [];
      new;
      DescendInto([p]);
      assert Bodies([p]) + [] == [p.instrs];
    }

    method DescendInto(profiles: seq<Profile>)
      modifies this
      ensures stack == Bodies(profiles) + old(stack)
    {
      var instrs: seq<seq<Instr>> := [];
      for i := 0 to |profiles|
        invariant instrs == Bodies(profiles)[..i]
      {
        instrs := instrs + [profiles[i].instrs];
      }
      stack := instrs + stack;
      assert instrs == Bodies(profiles);
    }

    method Next() returns (r: Option<Instr>)
      requires |stack| > 0
      modifies this
      ensures var top := SkipEmptyChoices(old(stack)[0]);
              if top == [] then r == None && stack == old(stack)[1..]
              else r == Some(top[0]) &&
                   stack == (if top[0].AddOr? then Bodies(top[0].profiles) else []) + [top[1..]] + old(stack)[1..]
      ensures WeightOfStack(stack) < WeightOfStack(old(stack))
    {
      ghost var rest := stack[1..];
      while true
        invariant |stack| > 0 && stack[1..] == rest
        invariant SkipEmptyChoices(stack[0]) == SkipEmptyChoices(old(stack)[0])
        invariant WeightOfStack(stack) <= WeightOfStack(old(stack))
        decreases |stack[0]|
      {
        if |stack[0]| == 0 {
          stack := stack[1..];
          return None;
        }
        var instr := stack[0][0];
        stack := stack[0 := stack[0][1..]];
        if instr.AddOr? {
          if |instr.profiles| == 0 {
            continue;
          }
          WeightOfBodies(instr.profiles, stack);
          Regroup(Bodies(instr.profiles), [stack[0]], rest);
          assert stack == [stack[0]] + rest;
          DescendInto(instr.profiles);
          return Some(instr);
        }
        assert stack == [stack[0]] + rest == [] + [stack[0]] + rest;
        return Some(instr);
      }
    }
  }

  // ------------------------------------------------------------- the contexts

  /** One PCR value combination, updated in place. */
  class ValueMap {
    var m: PcrValues

    constructor (values: PcrValues)
      ensures m == values
    {
      m := values;
    }
  }

  ghost predicate Distinct<T>(s: seq<T>) {
    forall i, j | 0 <= i < j < |s| :: s[i] != s[j]
  }

  /** The combinations held by a list of maps. */
  ghost function Held(l: seq<ValueMap>): (r: seq<PcrValues>)
    reads l
    ensures |r| == |l|
    ensures forall i | 0 <= i < |l| :: r[i] == l[i].m
  {
    seq(|l|, i requires 0 <= i < |l| reads l => l[i].m)
  }

  method SetValue(l: seq<ValueMap>, pcr: Pcr, value: Digest)
    requires Distinct(l)
    modifies l
    ensures Held(l) == SetAll(old(Held(l)), pcr, value)
  {
    for k := 0 to |l|
      invariant forall i | 0 <= i < k :: l[i].m == old(l[i].m)[pcr := value]
      invariant forall i | k <= i < |l| :: l[i].m == old(l[i].m)
    {
      l[k].m := l[k].m[pcr := value];
    }
  }

  method ExtendValue(l: seq<ValueMap>, pcr: Pcr, value: Digest)
    requires Distinct(l)
    modifies l
    ensures Held(l) == ExtendAll(old(Held(l)), pcr, value)
  {
    for k := 0 to |l|
      invariant forall i | 0 <= i < k :: l[i].m == Extended(old(l[i].m), pcr, value)
      invariant forall i | k <= i < |l| :: l[i].m == old(l[i].m)
    {
      if pcr !in l[k].m {
        l[k].m := l[k].m[pcr := Zeros(pcr.alg)];
      }
      l[k].m := l[k].m[pcr := Extend(l[k].m[pcr], pcr.alg, value)];
    }
  }

  method Copy(l: seq<ValueMap>) returns (out: seq<ValueMap>)
    ensures Held(out) == Held(l)
    ensures Distinct(out) && fresh(out)
  {
    out := [];
    for k := 0 to |l|
      invariant |out| == k && Distinct(out) && fresh(out)
      invariant forall i | 0 <= i < k :: out[i].m == l[i].m
    {
      var ov := new ValueMap(l[k].m);
      out := out + [ov];
    }
  }

  class ComputeContext {
    const parent: ComputeContext?
    var values: seq<ValueMap>

    constructor (parent: ComputeContext?, values: seq<ValueMap>)
      ensures this.parent == parent && this.values == values
    {
      this.parent := parent;
      this.values := values;
    }

    predicate IsRoot() {
      parent == null
    }

    /** One new context for every alternative of a choice, each with its own copy of the combinations. */
    method HandleBranches(n: nat) returns (out: seq<ComputeContext>)
      modifies this
      ensures |out| == n && values == []
      ensures fresh(out) && Distinct(out) && Unshared(out)
      ensures forall i | 0 <= i < n ::
                out[i].parent == this && fresh(out[i].values) && Held(out[i].values) == old(Held(values))
    {
      out := [];
      for k := 0 to n
        invariant |out| == k && values == old(values)
        invariant fresh(out) && Distinct(out) && Unshared(out)
        invariant forall i | 0 <= i < k ::
                    out[i].parent == this && fresh(out[i].values) && Held(out[i].values) == old(Held(values))
      {
        out := AddBranch(out);
      }
      values := [];
    }

    /** One more context that branches off from this one. */
    method AddBranch(out: seq<ComputeContext>) returns (out': seq<ComputeContext>)
      requires Distinct(out) && Unshared(out)
      ensures |out'| == |out| + 1 && out'[..|out|] == out && fresh(out'[|out|]) && Distinct(out') && Unshared(out')
      ensures
        var c := out'[|out|];
        c.parent == this && fresh(c.values) && Held(c.values) == Held(values)
    {
      var copied := Copy(values);
      var c := new ComputeContext(this, copied);
      AppendUnshared(out, c);
      out' := out + [c];
    }

    /** Hands the combinations of a finished branch to the context it branched from. */
    method FinishBranch()
      requires parent != null && parent != this
      modifies parent
      ensures parent.values == old(parent.values) + values
    {
      parent.values := parent.values + values;
    }
  }

  ghost predicate Disjoint(l: seq<ValueMap>, k: seq<ValueMap>) {
    forall a, b | 0 <= a < |l| && 0 <= b < |k| :: l[a] != k[b]
  }

  /** No PCR value map is held twice by the contexts. */
  ghost predicate Unshared(cs: seq<ComputeContext>)
    reads cs
  {
    && (forall i | 0 <= i < |cs| :: Distinct(cs[i].values))
    && (forall i, j | 0 <= i < j < |cs| :: Disjoint(cs[i].values, cs[j].values))
  }

  lemma {:induction false} AppendUnshared(cs: seq<ComputeContext>, c: ComputeContext)
    requires Unshared(cs) && Distinct(c.values)
    requires forall i | 0 <= i < |cs| :: Disjoint(cs[i].values, c.values)
    ensures Unshared(cs + [c])
  {
  }

  /** Every context but the last finishes into the context its frame names. */
  ghost predicate Linked(cs: seq<ComputeContext>, fs: seq<Frame>) {
    && |cs| == |fs| && WellStacked(fs)
    && cs[|cs| - 1].IsRoot()
    && forall i | 0 <= i < |cs| - 1 :: cs[i].parent == cs[|cs| - 1 - fs[i].parent]
  }

  ghost predicate Within(l: seq<ValueMap>, maps: set<ValueMap>) {
    forall a | 0 <= a < |l| :: l[a] in maps
  }

  /** The contexts hold the combinations of the frames, in maps of `maps`. */
  ghost predicate Holds(cs: seq<ComputeContext>, fs: seq<Frame>, maps: set<ValueMap>)
    requires |cs| == |fs|
    reads cs, maps
  {
    forall i | 0 <= i < |cs| :: Within(cs[i].values, maps) && Held(cs[i].values) == fs[i].values
  }

  ghost predicate Among(cs: seq<ComputeContext>, known: set<ComputeContext>) {
    forall i | 0 <= i < |cs| :: cs[i] in known
  }

  /** The context stack stands for the frames. */
  ghost predicate Represents(cs: seq<ComputeContext>, fs: seq<Frame>, maps: set<ValueMap>)
    reads cs, maps
  {
    Linked(cs, fs) && Distinct(cs) && Unshared(cs) && Holds(cs, fs, maps)
  }

  /** The iterator holds the instructions of the frames. */
  ghost predicate Runs(stack: seq<seq<Instr>>, fs: seq<Frame>) {
    |stack| == |fs| && forall i | 0 <= i < |fs| :: fs[i].instrs == stack[i]
  }

  lemma {:induction false} SteppedRepresents(cs: seq<ComputeContext>, fs: seq<Frame>, vs: seq<PcrValues>,
                                             maps: set<ValueMap>)
    requires Linked(cs, fs) && fs[0].instrs != [] && Distinct(cs) && Unshared(cs)
    requires forall i | 0 <= i < |cs| :: Within(cs[i].values, maps)
    requires Held(cs[0].values) == vs && forall i | 0 < i < |cs| :: Held(cs[i].values) == fs[i].values
    ensures Represents(cs, Stepped(fs, vs), maps)
  {
  }

  /** Sets a PCR in every combination of the current branch, and in no other. */
  method SetTop(contexts: seq<ComputeContext>, pcr: Pcr, value: Digest, ghost fs: seq<Frame>, ghost maps: set<ValueMap>)
    requires Represents(contexts, fs, maps) && fs[0].instrs != []
    modifies maps
    ensures Represents(contexts, Stepped(fs, SetAll(fs[0].values, pcr, value)), maps)
  {
    SetValue(contexts[0].values, pcr, value);
    forall i | 0 < i < |contexts|
      ensures Held(contexts[i].values) == fs[i].values
    {
      assert Disjoint(contexts[0].values, contexts[i].values);
      assert Held(contexts[i].values) == old(Held(contexts[i].values));
    }
    SteppedRepresents(contexts, fs, SetAll(fs[0].values, pcr, value), maps);
  }

  /** Extends a PCR in every combination of the current branch, and in no other. */
  method ExtendTop(contexts: seq<ComputeContext>, pcr: Pcr, value: Digest, ghost fs: seq<Frame>,
                   ghost maps: set<ValueMap>)
    requires Represents(contexts, fs, maps) && fs[0].instrs != []
    modifies maps
    ensures Represents(contexts, Stepped(fs, ExtendAll(fs[0].values, pcr, value)), maps)
  {
    ExtendValue(contexts[0].values, pcr, value);
    forall i | 0 < i < |contexts|
      ensures Held(contexts[i].values) == fs[i].values
    {
      assert Disjoint(contexts[0].values, contexts[i].values);
      assert Held(contexts[i].values) == old(Held(contexts[i].values));
    }
    SteppedRepresents(contexts, fs, ExtendAll(fs[0].values, pcr, value), maps);
  }

  /** The frames once the alternatives of a choice are open. */
  ghost function Opened(fs: seq<Frame>, profiles: seq<Profile>, rest: seq<Instr>): seq<Frame>
    requires WellStacked(fs)
  {
    BranchFrames(profiles, fs[0].values, |fs| - 1) + [Frame(rest, [], fs[0].parent)] + fs[1..]
  }

  lemma {:induction false} OpenedLinked(branches: seq<ComputeContext>, cs: seq<ComputeContext>, fs: seq<Frame>,
                                        profiles: seq<Profile>, rest: seq<Instr>)
    requires Linked(cs, fs) && |branches| == |profiles|
    requires forall i | 0 <= i < |branches| :: branches[i].parent == cs[0]
    ensures Linked(branches + cs, Opened(fs, profiles, rest))
  {
    var parked := Frame(rest, [], fs[0].parent);
    var fs' := Opened(fs, profiles, rest);
    var cs' := branches + cs;
    assert [parked] + fs[1..] == fs[0 := parked];
    StackedBranches(profiles, fs[0].values, parked, fs[1..]);
    forall i | 0 <= i < |cs'| - 1
      ensures cs'[i].parent == cs'[|cs'| - 1 - fs'[i].parent]
    {
      if i >= |branches| {
        var k := i - |branches|;
        assert cs'[i] == cs[k] && fs'[i].parent == fs[k].parent;
        assert cs[k].parent == cs[|cs| - 1 - fs[k].parent];
      }
    }
  }

  lemma {:induction false} OpenedHolds(branches: seq<ComputeContext>, cs: seq<ComputeContext>, fs: seq<Frame>,
                                       profiles: seq<Profile>, rest: seq<Instr>, maps: set<ValueMap>)
    requires |cs| == |fs| && WellStacked(fs) && |branches| == |profiles|
    requires cs[0].values == []
    requires forall i | 0 < i < |cs| :: Within(cs[i].values, maps) && Held(cs[i].values) == fs[i].values
    requires forall i | 0 <= i < |branches| ::
               Within(branches[i].values, maps) && Held(branches[i].values) == fs[0].values
    ensures Holds(branches + cs, Opened(fs, profiles, rest), maps)
  {
    var fs' := Opened(fs, profiles, rest);
    forall i | 0 <= i < |branches + cs|
      ensures Within((branches + cs)[i].values, maps) && Held((branches + cs)[i].values) == fs'[i].values
    {
      if i >= |branches| {
        var k := i - |branches|;
        assert (branches + cs)[i] == cs[k];
        if k > 0 {
          assert fs'[i] == fs[k];
        }
      }
    }
  }

  lemma {:induction false} JoinUnshared(a: seq<ComputeContext>, b: seq<ComputeContext>)
    requires Unshared(a) && Unshared(b)
    requires forall i, j | 0 <= i < |a| && 0 <= j < |b| :: Disjoint(a[i].values, b[j].values)
    ensures Unshared(a + b)
  {
    var c := a + b;
    forall i, j | 0 <= i < j < |c|
      ensures Disjoint(c[i].values, c[j].values)
    {
      if i >= |a| {
        assert Disjoint(b[i - |a|].values, b[j - |a|].values);
      } else if j >= |a| {
        assert Disjoint(a[i].values, b[j - |a|].values);
      }
    }
  }

  lemma {:induction false} OpenedRepresents(branches: seq<ComputeContext>, cs: seq<ComputeContext>, fs: seq<Frame>,
                                            profiles: seq<Profile>, rest: seq<Instr>, maps: set<ValueMap>)
    requires Linked(cs, fs) && |branches| == |profiles| && Distinct(branches + cs) && Unshared(branches) && Unshared(cs)
    requires forall i, j | 0 <= i < |branches| && 0 <= j < |cs| :: Disjoint(branches[i].values, cs[j].values)
    requires cs[0].values == []
    requires forall i | 0 < i < |cs| :: Within(cs[i].values, maps) && Held(cs[i].values) == fs[i].values
    requires forall i | 0 <= i < |branches| ::
               && branches[i].parent == cs[0] && Within(branches[i].values, maps)
               && Held(branches[i].values) == fs[0].values
    ensures Represents(branches + cs, Opened(fs, profiles, rest), maps)
  {
    OpenedLinked(branches, cs, fs, profiles, rest);
    OpenedHolds(branches, cs, fs, profiles, rest, maps);
    JoinUnshared(branches, cs);
  }

  /** The maps that contexts hold. */
  ghost function MapsOf(cs: seq<ComputeContext>): (maps: set<ValueMap>)
    reads cs
    ensures forall i | 0 <= i < |cs| :: Within(cs[i].values, maps)
    ensures forall m | m in maps :: exists i :: 0 <= i < |cs| && m in cs[i].values
  {
    set i, a | 0 <= i < |cs| && 0 <= a < |cs[i].values| :: cs[i].values[a]
  }

  /** Parks the current branch and opens a context for every alternative. */
  method OpenBranches(contexts: seq<ComputeContext>, profiles: seq<Profile>, ghost rest: seq<Instr>,
                      ghost fs: seq<Frame>, ghost maps: set<ValueMap>, ghost known: set<ComputeContext>)
      returns (out: seq<ComputeContext>, ghost maps': set<ValueMap>, ghost known': set<ComputeContext>)
    requires Represents(contexts, fs, maps) && Among(contexts, known)
    modifies contexts[0]
    ensures Among(out, known') && fresh(known' - known) && fresh(maps' - maps)
    ensures Represents(out, Opened(fs, profiles, rest), maps')
  {
    var branches := contexts[0].HandleBranches(|profiles|);
    out := branches + contexts;
    maps' := maps + MapsOf(branches);
    known' := known + set i | 0 <= i < |branches| :: branches[i];
    assert forall i | 0 < i < |contexts| :: contexts[i].values == old(contexts[i].values);
    ParkedUnshared(contexts);
    NewMapsDisjoint(branches, contexts);
    OpenedRepresents(branches, contexts, fs, profiles, rest, maps');
  }

  twostate lemma {:induction false} ParkedUnshared(cs: seq<ComputeContext>)
    requires |cs| > 0 && old(Unshared(cs)) && cs[0].values == []
    requires forall i | 0 < i < |cs| :: cs[i].values == old(cs[i].values)
    ensures Unshared(cs)
  {
    forall i, j | 0 <= i < j < |cs|
      ensures Disjoint(cs[i].values, cs[j].values)
    {
      assert i > 0 ==> Disjoint(old(cs[i].values), old(cs[j].values));
    }
  }

  /** New maps are not among the old ones. */
  twostate lemma {:induction false} NewMapsDisjoint(new branches: seq<ComputeContext>, cs: seq<ComputeContext>)
    requires forall i | 0 <= i < |branches| :: fresh(branches[i].values)
    requires forall j | 0 <= j < |cs| :: cs[j].values == [] || cs[j].values == old(cs[j].values)
    ensures forall i, j | 0 <= i < |branches| && 0 <= j < |cs| :: Disjoint(branches[i].values, cs[j].values)
  {
    forall i, j | 0 <= i < |branches| && 0 <= j < |cs|
      ensures Disjoint(branches[i].values, cs[j].values)
    {
      assert forall b | 0 <= b < |old(cs[j].values)| :: !fresh(old(cs[j].values)[b]);
    }
  }

  lemma {:induction false} ClosedLinked(cs: seq<ComputeContext>, fs: seq<Frame>, ws: seq<PcrValues>)
    requires Linked(cs, fs) && |cs| > 1
    ensures Linked(cs[1..], Deliver(Below(fs), fs[0].parent, ws))
  {
    var fs' := Deliver(Below(fs), fs[0].parent, ws);
    forall i | 0 <= i < |cs| - 2
      ensures cs[1..][i].parent == cs[1..][|cs| - 2 - fs'[i].parent]
    {
      assert cs[i + 1].parent == cs[|cs| - 1 - fs[i + 1].parent];
    }
  }

  lemma {:induction false} ClosedHolds(cs: seq<ComputeContext>, fs: seq<Frame>, k: nat, own: seq<ValueMap>,
                                       maps: set<ValueMap>)
    requires |cs| == |fs| > 1 && WellStacked(fs) && k == |cs| - 1 - fs[0].parent
    requires Within(cs[0].values, maps) && Held(cs[0].values) == fs[0].values
    requires forall i | 0 < i < |cs| && i != k :: Within(cs[i].values, maps) && Held(cs[i].values) == fs[i].values
    requires cs[k].values == own + cs[0].values && Within(own, maps) && Held(own) == fs[k].values
    ensures Holds(cs[1..], Deliver(Below(fs), fs[0].parent, fs[0].values), maps)
  {
    assert Held(cs[k].values) == Held(own) + Held(cs[0].values);
  }

  lemma {:induction false} ClosedUnshared(cs: seq<ComputeContext>, k: nat, own: seq<ValueMap>)
    requires 0 < k < |cs| && cs[k].values == own + cs[0].values
    requires Distinct(own) && Distinct(cs[0].values) && Disjoint(own, cs[0].values)
    requires forall i | 0 < i < |cs| && i != k ::
               Distinct(cs[i].values) && Disjoint(cs[i].values, own) && Disjoint(cs[i].values, cs[0].values)
    requires forall i, j | 0 < i < j < |cs| && i != k && j != k :: Disjoint(cs[i].values, cs[j].values)
    ensures Unshared(cs[1..])
  {
    var r := cs[1..];
    forall i, j | 0 <= i < j < |r|
      ensures Disjoint(r[i].values, r[j].values)
    {
      assert r[i] == cs[i + 1] && r[j] == cs[j + 1];
    }
  }

  lemma {:induction false} DisjointSymmetric(l: seq<ValueMap>, k: seq<ValueMap>)
    requires Disjoint(l, k)
    ensures Disjoint(k, l)
  {
  }

  /** Finishes the current branch; the next context is a sibling branch or the parent. */
  method CloseBranch(contexts: seq<ComputeContext>, ghost fs: seq<Frame>, ghost maps: set<ValueMap>)
      returns (out: seq<ComputeContext>)
    requires Represents(contexts, fs, maps) && |contexts| > 1
    modifies contexts
    ensures out == contexts[1..]
    ensures Represents(out, Deliver(Below(fs), fs[0].parent, fs[0].values), maps)
  {
    ghost var k := |contexts| - 1 - fs[0].parent;
    assert contexts[0].parent == contexts[k] && k > 0;
    contexts[0].FinishBranch();
    out := contexts[1..];
    assert forall i | 0 < i < |contexts| && i != k :: contexts[i].values == old(contexts[i].values);
    ClosedLinked(contexts, fs, fs[0].values);
    ClosedHolds(contexts, fs, k, old(contexts[k].values), maps);
    forall i | 0 < i < |contexts| && i != k
      ensures Disjoint(contexts[i].values, old(contexts[k].values)) && Disjoint(contexts[i].values, contexts[0].values)
    {
      DisjointSymmetric(contexts[0].values, contexts[i].values);
      if k < i {
        DisjointSymmetric(old(contexts[k].values), contexts[i].values);
      }
    }
    DisjointSymmetric(contexts[0].values, old(contexts[k].values));
    ClosedUnshared(contexts, k, old(contexts[k].values));
  }

  // ---------------------------------------------------------------- the loop

  /** The frames once the empty choices in front of the top level are gone. */
  ghost function Skipped(fs: seq<Frame>): seq<Frame>
    requires WellStacked(fs)
  {
    fs[0 := fs[0].(instrs := SkipEmptyChoices(fs[0].instrs))]
  }

  lemma {:induction false} FinishSkipped(fs: seq<Frame>, tpm: PcrValues)
    requires WellStacked(fs)
    ensures WellStacked(Skipped(fs)) && Finish(Skipped(fs), tpm) == Finish(fs, tpm)
  {
    SkippedChoicesMeanNothing(fs[0].instrs, fs[0].values, tpm);
    FinishTop(fs, Skipped(fs), tpm);
  }

  lemma {:induction false} RepresentsSkipped(cs: seq<ComputeContext>, fs: seq<Frame>, maps: set<ValueMap>)
    requires Represents(cs, fs, maps)
    ensures Represents(cs, Skipped(fs), maps)
  {
    assert Linked(cs, Skipped(fs));
    assert Holds(cs, Skipped(fs), maps);
  }

  lemma {:induction false} RunsDelivered(stack: seq<seq<Instr>>, fs: seq<Frame>, level: nat, ws: seq<PcrValues>)
    requires WellStacked(fs) && level < |fs| && Runs(stack, fs)
    ensures Runs(stack, Deliver(fs, level, ws))
  {
  }

  /** `instr` is the first instruction of the frames, and `stack` holds what comes after it. */
  ghost predicate Taken(instr: Option<Instr>, fs: seq<Frame>, stack: seq<seq<Instr>>)
    requires WellStacked(fs)
  {
    match instr
    case None => fs[0].instrs == [] && Runs(stack, fs[1..])
    case Some(i) =>
      && fs[0].instrs != [] && fs[0].instrs[0] == i
      && (if i.AddOr? then i.profiles != [] && Runs(stack, Opened(fs, i.profiles, fs[0].instrs[1..]))
          else Runs(stack, Stepped(fs, fs[0].values)))
  }

  /** What taking an instruction from a stack of instructions leaves. */
  ghost predicate TakenFrom(before: seq<seq<Instr>>, r: Option<Instr>, after: seq<seq<Instr>>)
    requires |before| > 0
  {
    var top := SkipEmptyChoices(before[0]);
    if top == [] then r == None && after == before[1..]
    else
      && r == Some(top[0])
      && after == (if top[0].AddOr? then Bodies(top[0].profiles) else []) + [top[1..]] + before[1..]
  }

  lemma {:induction false} TakenChoice(before: seq<seq<Instr>>, fs: seq<Frame>, profiles: seq<Profile>,
                                       rest: seq<Instr>)
    requires WellStacked(fs) && Runs(before, fs)
    ensures Runs(Bodies(profiles) + [rest] + before[1..], Opened(Skipped(fs), profiles, rest))
  {
    var hs := Opened(Skipped(fs), profiles, rest);
    var after := Bodies(profiles) + [rest] + before[1..];
    forall i | 0 <= i < |hs|
      ensures hs[i].instrs == after[i]
    {
      if i > |profiles| {
        assert hs[i] == fs[i - |profiles|] && after[i] == before[i - |profiles|];
      }
    }
  }

  lemma {:induction false} TakenMatches(before: seq<seq<Instr>>, fs: seq<Frame>, r: Option<Instr>,
                                        after: seq<seq<Instr>>)
    requires WellStacked(fs) && Runs(before, fs) && |before| > 0 && TakenFrom(before, r, after)
    ensures WellStacked(Skipped(fs)) && Taken(r, Skipped(fs), after)
  {
    if r.Some? && r.value.AddOr? {
      TakenChoice(before, fs, r.value.profiles, SkipEmptyChoices(before[0])[1..]);
    }
  }

  /** Takes the next instruction from the iterator. */
  method Fetch(iter: ProfileIterator, ghost fs: seq<Frame>) returns (r: Option<Instr>)
    requires WellStacked(fs) && Runs(iter.stack, fs)
    modifies iter
    ensures WeightOfStack(iter.stack) < WeightOfStack(old(iter.stack))
    ensures WellStacked(Skipped(fs)) && Taken(r, Skipped(fs), iter.stack)
  {
    r := iter.Next();
    TakenMatches(old(iter.stack), fs, r, iter.stack);
  }

  /** Handles an instruction other than a choice. */
  method StepStraight(instr: Instr, contexts: seq<ComputeContext>, tpm: PcrValues, ghost fs: seq<Frame>,
                      ghost maps: set<ValueMap>)
      returns (err: Option<Pcr>, ghost vs: seq<PcrValues>)
    requires Represents(contexts, fs, maps) && fs[0].instrs != [] && instr == fs[0].instrs[0] && !instr.AddOr?
    modifies maps
    ensures err == None ==> Represents(contexts, Stepped(fs, vs), maps)
    ensures err == None ==> Finish(Stepped(fs, vs), tpm) == Finish(fs, tpm)
    ensures err.Some? ==> Finish(fs, tpm) == Failure(err.value)
  {
    err, vs := None, [];
    match instr
    case AddValue(pcr, value) =>
      vs := SetAll(fs[0].values, pcr, value);
      SetTop(contexts, pcr, value, fs, maps);
      FinishTop(fs, Stepped(fs, vs), tpm);
    case AddValueFromTpm(pcr) =>
      if pcr !in tpm {
        err := Some(pcr);
        return;
      }
      vs := SetAll(fs[0].values, pcr, tpm[pcr]);
      SetTop(contexts, pcr, tpm[pcr], fs, maps);
      FinishTop(fs, Stepped(fs, vs), tpm);
    case ExtendPcr(pcr, value) =>
      vs := ExtendAll(fs[0].values, pcr, value);
      ExtendTop(contexts, pcr, value, fs, maps);
      FinishTop(fs, Stepped(fs, vs), tpm);
  }

  lemma {:induction false} RootIsLast(cs: seq<ComputeContext>, fs: seq<Frame>)
    requires Linked(cs, fs)
    ensures cs[0].IsRoot() ==> |fs| == 1
  {
    if |fs| > 1 {
      assert cs[0].parent == cs[|cs| - 1 - fs[0].parent];
    }
  }

  /** Handles a choice. */
  method StepChoice(profiles: seq<Profile>, contexts: seq<ComputeContext>, tpm: PcrValues, ghost fs: seq<Frame>,
                    ghost maps: set<ValueMap>, ghost known: set<ComputeContext>)
      returns (contexts': seq<ComputeContext>, ghost maps': set<ValueMap>, ghost known': set<ComputeContext>)
    requires Represents(contexts, fs, maps) && Among(contexts, known)
    requires fs[0].instrs != [] && fs[0].instrs[0] == AddOr(profiles) && profiles != []
    modifies known
    ensures Represents(contexts', Opened(fs, profiles, fs[0].instrs[1..]), maps')
    ensures Finish(Opened(fs, profiles, fs[0].instrs[1..]), tpm) == Finish(fs, tpm)
    ensures Among(contexts', known') && fresh(known' - known) && fresh(maps' - maps)
  {
    ghost var rest := fs[0].instrs[1..];
    assert fs[0].instrs == [AddOr(profiles)] + rest;
    EnterChoice(fs, profiles, rest, tpm);
    contexts', maps', known' := OpenBranches(contexts, profiles, rest, fs, maps, known);
  }

  /** Handles the end of a profile other than the root. */
  method StepEnd(contexts: seq<ComputeContext>, tpm: PcrValues, ghost fs: seq<Frame>, ghost maps: set<ValueMap>,
                 ghost known: set<ComputeContext>, ghost stack: seq<seq<Instr>>)
      returns (contexts': seq<ComputeContext>, ghost fs': seq<Frame>)
    requires Represents(contexts, fs, maps) && Among(contexts, known)
    requires fs[0].instrs == [] && !contexts[0].IsRoot() && Runs(stack, fs[1..])
    modifies known
    ensures Represents(contexts', fs', maps) && Among(contexts', known)
    ensures Finish(fs', tpm) == Finish(fs, tpm)
    ensures Runs(stack, fs')
  {
    contexts' := CloseBranch(contexts, fs, maps);
    fs' := Deliver(Below(fs), fs[0].parent, fs[0].values);
    RunsDelivered(stack, Below(fs), fs[0].parent, fs[0].values);
  }

  /** Handles the instruction taken from the iterator, which now holds `stack`. */
  method Dispatch(instr: Option<Instr>, contexts: seq<ComputeContext>, tpm: PcrValues, ghost fs: seq<Frame>,
                  ghost maps: set<ValueMap>, ghost known: set<ComputeContext>, ghost stack: seq<seq<Instr>>)
      returns (r: Option<Result<seq<ValueMap>, Pcr>>, contexts': seq<ComputeContext>, ghost fs': seq<Frame>,
               ghost maps': set<ValueMap>, ghost known': set<ComputeContext>)
    requires Represents(contexts, fs, maps) && Among(contexts, known)
    requires Taken(instr, fs, stack)
    modifies known, maps
    ensures r == None ==> Represents(contexts', fs', maps') && Runs(stack, fs') && Among(contexts', known')
    ensures r == None ==> Finish(fs', tpm) == Finish(fs, tpm) && fresh(known' - known) && fresh(maps' - maps)
    ensures r.Some? && r.value.Failure? ==> Finish(fs, tpm) == Failure(r.value.error)
    ensures r.Some? && r.value.Success? ==>
              Distinct(r.value.value) && Within(r.value.value, maps) && Finish(fs, tpm) == Success(Held(r.value.value))
  {
    r, contexts', fs', maps', known' := None, contexts, fs, maps, known;
    match instr
    case Some(AddOr(profiles)) =>
      contexts', maps', known' := StepChoice(profiles, contexts, tpm, fs, maps, known);
      fs' := Opened(fs, profiles, fs[0].instrs[1..]);
    case Some(straight) =>
      ghost var vs;
      var err;
      err, vs := StepStraight(straight, contexts, tpm, fs, maps);
      fs' := Stepped(fs, vs);
      if err.Some? {
        r := Some(Failure(err.value));
      }
    case None =>
      if contexts[0].IsRoot() {
        RootIsLast(contexts, fs);
        r := Some(Success(contexts[0].values));
      } else {
        contexts', fs' := StepEnd(contexts, tpm, fs, maps, known, stack);
      }
  }

  /** Handles one instruction. None means that evaluation goes on. */
  method Step(iter: ProfileIterator, contexts: seq<ComputeContext>, tpm: PcrValues, ghost fs: seq<Frame>,
              ghost maps: set<ValueMap>, ghost known: set<ComputeContext>)
      returns (r: Option<Result<seq<ValueMap>, Pcr>>, contexts': seq<ComputeContext>, ghost fs': seq<Frame>,
               ghost maps': set<ValueMap>, ghost known': set<ComputeContext>)
    requires Represents(contexts, fs, maps) && Runs(iter.stack, fs) && Among(contexts, known)
    modifies iter, known, maps
    ensures r == None ==>
              && Represents(contexts', fs', maps') && Runs(iter.stack, fs')
              && Finish(fs', tpm) == Finish(fs, tpm)
              && WeightOfStack(iter.stack) < WeightOfStack(old(iter.stack))
              && Among(contexts', known') && fresh(known' - known) && fresh(maps' - maps)
    ensures r.Some? && r.value.Failure? ==> Finish(fs, tpm) == Failure(r.value.error)
    ensures r.Some? && r.value.Success? ==>
              Distinct(r.value.value) && Within(r.value.value, maps) && Finish(fs, tpm) == Success(Held(r.value.value))
  {
    FinishSkipped(fs, tpm);
    RepresentsSkipped(contexts, fs, maps);
    var instr := Fetch(iter, fs);
    r, contexts', fs', maps', known' := Dispatch(instr, contexts, tpm, Skipped(fs), maps, known, iter.stack);
  }

  /** Evaluation starts with the root profile and one empty combination. */
  method Start(p: Profile)
      returns (iter: ProfileIterator, contexts: seq<ComputeContext>, ghost frames: seq<Frame>,
               ghost maps: set<ValueMap>, ghost known: set<ComputeContext>)
    ensures fresh(iter) && fresh(known) && fresh(maps) && Among(contexts, known)
    ensures Represents(contexts, frames, maps) && Runs(iter.stack, frames)
    ensures frames == [Frame(p.instrs, [map[]], 0)]
  {
    var first := new ValueMap(map[]);
    var root := new ComputeContext(null, [first]);
    contexts := [root];
    iter := new ProfileIterator(p);
    frames := [Frame(p.instrs, [map[]], 0)];
    maps, known := {first}, {root};
    assert Held([first]) == [map[]];
  }

  /** The in-place evaluation returns the denotation of the profile, in maps that nothing else holds. */
  method ComputePcrValues(p: Profile, tpm: PcrValues) returns (r: Result<seq<ValueMap>, Pcr>)
    ensures r.Success? ==> Distinct(r.value) && fresh(r.value) && Evaluate(p, tpm) == Success(Held(r.value))
    ensures r.Failure? ==> Evaluate(p, tpm) == Failure(r.error)
  {
    var iter, contexts;
    ghost var frames, maps, known;
    iter, contexts, frames, maps, known := Start(p);
    while true
      invariant fresh(iter) && fresh(known) && fresh(maps) && Among(contexts, known)
      invariant Represents(contexts, frames, maps) && Runs(iter.stack, frames)
      invariant Finish(frames, tpm) == Evaluate(p, tpm)
      decreases WeightOfStack(iter.stack)
    {
      var result;
      result, contexts, frames, maps, known := Step(iter, contexts, tpm, frames, maps, known);
      if result.Some? {
        return result.value;
      }
    }
  }
}
