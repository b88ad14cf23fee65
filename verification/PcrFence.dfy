/** The PCR fence: after it, approved PCR values that were reachable before are out of reach until a reset. */
module PcrFence {
  import opened Digests
  import opened Tpm
  import opened PolicyOrTree
  import opened PolicySessions
  import opened PcrProfile
  import opened Sealing

  // ----------------------------------------------------------- one PCR

  /** `f` is `d`, or one of the values that a PCR with value `d` had before. */
  predicate Passes(f: Digest, d: Digest, alg: HashAlg)
    decreases d
  {
    || f == d
    || (&& d.Hash? && d.alg == alg && |d.input| == 2 && d.input[0].Block? && d.input[1].Block?
        && Passes(f, d.input[0].d, alg))
  }

  lemma {:induction false} FoldPasses(f: Digest, alg: HashAlg, vs: seq<Digest>)
    ensures Passes(f, Fold(f, alg, vs), alg)
  {
    if vs != [] {
      FoldPasses(f, alg, vs[..|vs| - 1]);
    }
  }

  lemma {:induction false} PassesFold(f: Digest, d: Digest, alg: HashAlg) returns (vs: seq<Digest>)
    requires Passes(f, d, alg)
    ensures Fold(f, alg, vs) == d
    decreases d
  {
    if f == d {
      return [];
    }
    var before := PassesFold(f, d.input[0].d, alg);
    vs := before + [d.input[1].d];
    assert vs[..|vs| - 1] == before;
    assert d.input == [d.input[0], d.input[1]];
  }

  /** How often a value was extended. */
  function Depth(d: Digest): nat
    decreases d
  {
    if d.Hash? && |d.input| == 2 && d.input[0].Block? then 1 + Depth(d.input[0].d) else 0
  }

  lemma {:induction false} FoldDepth(d: Digest, alg: HashAlg, vs: seq<Digest>)
    ensures Depth(Fold(d, alg, vs)) == Depth(d) + |vs|
  {
    if vs != [] {
      FoldDepth(d, alg, vs[..|vs| - 1]);
    }
  }

  // ----------------------------------------------------------- all PCRs

  datatype Event = Event(pcr: Pcr, value: Digest)

  function ExtendOne(pcrs: PcrValues, e: Event): PcrValues {
    if e.pcr in pcrs then pcrs[e.pcr := Extend(pcrs[e.pcr], e.pcr.alg, e.value)] else pcrs
  }

  /** PCRs after any number of extends. */
  function After(pcrs: PcrValues, es: seq<Event>): PcrValues {
    if es == [] then pcrs else ExtendOne(After(pcrs, es[..|es| - 1]), es[|es| - 1])
  }

  lemma {:induction false} AfterAt(pcrs: PcrValues, es: seq<Event>, p: Pcr) returns (vs: seq<Digest>)
    requires p in pcrs
    ensures After(pcrs, es).Keys == pcrs.Keys && After(pcrs, es)[p] == Fold(pcrs[p], p.alg, vs)
  {
    if es == [] {
      return [];
    }
    var before := AfterAt(pcrs, es[..|es| - 1], p);
    var e := es[|es| - 1];
    vs := if e.pcr == p then before + [e.value] else before;
    assert e.pcr == p ==> vs[..|vs| - 1] == before;
  }

  lemma {:induction false} AfterKeys(pcrs: PcrValues, es: seq<Event>)
    ensures After(pcrs, es).Keys == pcrs.Keys
  {
    if es != [] {
      AfterKeys(pcrs, es[..|es| - 1]);
    }
  }

  lemma {:induction false} AfterOne(pcrs: PcrValues, es: seq<Event>, p: Pcr, vs: seq<Digest>) returns (more: seq<Event>)
    requires p in pcrs && After(pcrs, es).Keys == pcrs.Keys
    ensures After(pcrs, es + more) == After(pcrs, es)[p := Fold(After(pcrs, es)[p], p.alg, vs)]
    decreases |vs|
  {
    if vs == [] {
      assert es + [] == es;
      return [];
    }
    var first := AfterOne(pcrs, es, p, vs[..|vs| - 1]);
    more := first + [Event(p, vs[|vs| - 1])];
    assert (es + more)[..|es + more| - 1] == es + first;
  }

  lemma {:induction false} ReachTogether(pcrs: PcrValues, target: PcrValues) returns (es: seq<Event>)
    requires target.Keys <= pcrs.Keys
    requires forall p | p in target :: Passes(pcrs[p], target[p], p.alg)
    ensures After(pcrs, es) == pcrs + target
    decreases |target|
  {
    if target == map[] {
      return [];
    }
    var p :| p in target;
    var rest := map q | q in target && q != p :: target[q];
    assert rest.Keys == target.Keys - {p};
    assert |rest| == |rest.Keys| && |target| == |target.Keys|;
    var es0 := ReachTogether(pcrs, rest);
    var vs := PassesFold(pcrs[p], target[p], p.alg);
    var more := AfterOne(pcrs, es0, p, vs);
    es := es0 + more;
  }

  // ----------------------------------------------------------- the fence

  const PCR_COUNT := 24

  /** The digest of the event data of the fence: four zero octets. */
  function Separator(alg: HashAlg): Digest {
    Hash(alg, Octets([0, 0, 0, 0]))
  }

  /** An event extends a PCR in every bank. */
  function FenceOne(pcrs: PcrValues, index: int): (r: PcrValues)
    ensures r.Keys == pcrs.Keys
  {
    map p | p in pcrs :: if p.index == index then Extend(pcrs[p], p.alg, Separator(p.alg)) else pcrs[p]
  }

  function FenceAll(pcrs: PcrValues, indices: seq<int>): (r: PcrValues)
    ensures r.Keys == pcrs.Keys
  {
    if indices == [] then pcrs else FenceOne(FenceAll(pcrs, indices[..|indices| - 1]), indices[|indices| - 1])
  }

  class PcrBanks {
    var values: PcrValues

    /** TPM2_EventSequenceComplete: hashes the data with the algorithm of each bank, and extends each bank. */
    method EventSequenceExecute(index: int, data: seq<byte>) returns (ok: bool)
      modifies this
      ensures ok == (0 <= index < PCR_COUNT)
      ensures values == if ok then map p | p in old(values) ::
                                     if p.index == index then Extend(old(values)[p], p.alg, Hash(p.alg, Octets(data)))
                                     else old(values)[p]
                        else old(values)
    {
      if !(0 <= index < PCR_COUNT) {
        return false;
      }
      values := map p | p in values ::
                  if p.index == index then Extend(values[p], p.alg, Hash(p.alg, Octets(data))) else values[p];
      return true;
    }

    /** Fences the PCRs one after the other, and stops at the first that the TPM does not have. */
    method BlockPCRProtectionPolicies(pcrs: seq<int>) returns (ok: bool, done: nat)
      modifies this
      ensures done <= |pcrs| && values == FenceAll(old(values), pcrs[..done])
      ensures ok == (forall i | 0 <= i < |pcrs| :: 0 <= pcrs[i] < PCR_COUNT)
      ensures ok ==> done == |pcrs|
      ensures !ok ==> done < |pcrs| && !(0 <= pcrs[done] < PCR_COUNT)
    {
      var fence: seq<byte> := [0, 0, 0, 0];
      done := 0;
      while done < |pcrs|
        invariant done <= |pcrs| && values == FenceAll(old(values), pcrs[..done])
        invariant forall i | 0 <= i < done :: 0 <= pcrs[i] < PCR_COUNT
      {
        ghost var before := values;
        ok := EventSequenceExecute(pcrs[done], fence);
        if !ok {
          return;
        }
        assert values == FenceOne(before, pcrs[done]);
        assert pcrs[..done + 1][..done] == pcrs[..done];
        done := done + 1;
      }
      ok := true;
    }
  }

  /** The fence extends each PCR with the hash of four zero octets, once for every time that it is listed. */
  lemma {:induction false} FenceAt(pcrs: PcrValues, indices: seq<int>, p: Pcr) returns (vs: seq<Digest>)
    requires p in pcrs
    ensures FenceAll(pcrs, indices)[p] == Fold(pcrs[p], p.alg, vs)
    ensures |vs| == multiset(indices)[p.index]
    ensures forall k | 0 <= k < |vs| :: vs[k] == Hash(p.alg, [Octet(0), Octet(0), Octet(0), Octet(0)])
    ensures p.index in indices ==> vs != []
  {
    if indices == [] {
      return [];
    }
    var n := |indices| - 1;
    var before := FenceAt(pcrs, indices[..n], p);
    vs := if p.index == indices[n] then before + [Separator(p.alg)] else before;
    assert p.index == indices[n] ==> vs[..|vs| - 1] == before;
    assert indices == indices[..n] + [indices[n]];
    assert Octets([0, 0, 0, 0]) == [Octet(0), Octet(0), Octet(0), Octet(0)];
  }

  /** No extends bring back the value that a fenced PCR had before the fence. */
  lemma {:induction false} NeverBack(pcrs: PcrValues, indices: seq<int>, es: seq<Event>, p: Pcr)
    requires p in pcrs && p.index in indices
    ensures After(FenceAll(pcrs, indices), es).Keys == pcrs.Keys
    ensures After(FenceAll(pcrs, indices), es)[p] != pcrs[p]
  {
    var vs := FenceAt(pcrs, indices, p);
    FoldDepth(pcrs[p], p.alg, vs);
    var later := AfterAt(FenceAll(pcrs, indices), es, p);
    FoldDepth(FenceAll(pcrs, indices)[p], p.alg, later);
  }

  ghost predicate Reachable(pcrs: PcrValues, target: PcrValues) {
    exists es :: Selected(After(pcrs, es), target.Keys) == target
  }

  ghost predicate PassesAll(pcrs: PcrValues, target: PcrValues)
    requires target.Keys <= pcrs.Keys
  {
    forall p | p in target :: Passes(pcrs[p], target[p], p.alg)
  }

  /** A set of PCR values can be reached exactly when the history of each of its values passes through the present
      one. */
  lemma {:induction false} ReachableExactly(pcrs: PcrValues, target: PcrValues)
    requires target.Keys <= pcrs.Keys
    ensures Reachable(pcrs, target) <==> PassesAll(pcrs, target)
  {
    if Reachable(pcrs, target) {
      var es :| Selected(After(pcrs, es), target.Keys) == target;
      forall p | p in target
        ensures Passes(pcrs[p], target[p], p.alg)
      {
        var vs := AfterAt(pcrs, es, p);
        FoldPasses(pcrs[p], p.alg, vs);
        assert p in Selected(After(pcrs, es), target.Keys);
      }
    }
    if PassesAll(pcrs, target) {
      var es := ReachTogether(pcrs, target);
      assert Selected(After(pcrs, es), target.Keys) == target;
    }
  }

  /** A fenced PCR that is in `values` with a value that did not pass through the fence. */
  ghost predicate Cut(pcrs: PcrValues, indices: seq<int>, values: PcrValues) {
    exists p :: p in values && p in pcrs && p.index in indices && !Passes(FenceAll(pcrs, indices)[p], values[p], p.alg)
  }

  lemma {:induction false} CutIsGone(pcrs: PcrValues, indices: seq<int>, es: seq<Event>, selection: set<Pcr>)
    ensures !Cut(pcrs, indices, Selected(After(FenceAll(pcrs, indices), es), selection))
  {
    var fenced := FenceAll(pcrs, indices);
    forall p | p in Selected(After(fenced, es), selection) && p in pcrs
      ensures Passes(fenced[p], After(fenced, es)[p], p.alg)
    {
      var vs := AfterAt(fenced, es, p);
      FoldPasses(fenced[p], p.alg, vs);
    }
  }

  /** The values that held before the fence are cut off. */
  lemma {:induction false} PresentIsCut(pcrs: PcrValues, indices: seq<int>, selection: set<Pcr>, p: Pcr)
    requires p in pcrs && p in selection && p.index in indices
    ensures Cut(pcrs, indices, Selected(pcrs, selection))
  {
    var vs := FenceAt(pcrs, indices, p);
    if Passes(FenceAll(pcrs, indices)[p], pcrs[p], p.alg) {
      var more := PassesFold(FenceAll(pcrs, indices)[p], pcrs[p], p.alg);
      FoldDepth(pcrs[p], p.alg, vs);
      FoldDepth(FenceAll(pcrs, indices)[p], p.alg, more);
    }
    assert p in Selected(pcrs, selection);
  }

  /** Every set of values that an authorization approves is cut off. */
  ghost predicate AllCut(pcrs: PcrValues, indices: seq<int>, a: Authorization) {
    forall values: PcrValues | values.Keys == a.params.pcrs && PcrDigest(a.alg, values) in a.params.pcrDigests ::
      Cut(pcrs, indices, values)
  }

  /** If any metadata at all opens a session after the fence, then a policy was signed that approves values which
      have passed through the fence. */
  lemma {:induction false} SessionsPassTheFence(pcrs: PcrValues, indices: seq<int>, es: seq<Event>, now: TpmState,
                                                alg: HashAlg, static_: StaticData, dynamic: DynamicData,
                                                authKey: PublicKey, counter: Option<NvPublic>,
                                                ledger: seq<Authorization>)
      returns (a: Authorization)
    requires now.pcrs == After(FenceAll(pcrs, indices), es)
    requires Issued(dynamic.signature, ledger)
    requires Execute(now, alg, static_, dynamic) == Success(StaticPolicyDigest(alg, authKey, CounterName(counter)))
    ensures a in ledger && InForce(now, a, authKey, counter) && !AllCut(pcrs, indices, a)
  {
    a := SessionIsSound(now, alg, static_, dynamic, authKey, counter, ledger);
    CutIsGone(pcrs, indices, es, a.params.pcrs);
    assert Selected(now.pcrs, a.params.pcrs).Keys == a.params.pcrs;
  }

  /** A policy computed from a profile stops working when the fence cuts off every branch of the profile. */
  lemma {:induction false} FenceBlocksProfile(tpm: TpmState, pcrs: PcrValues, indices: seq<int>, es: seq<Event>,
                                              now: TpmState, alg: HashAlg, key: PrivateKey, static_: StaticData,
                                              counter: Option<NvIndex>, profile: Profile)
    requires now.pcrs == After(FenceAll(pcrs, indices), es) && now.pcrs.Keys == tpm.pcrs.Keys
    requires NextPolicy(tpm, alg, static_.authKey.nameAlg, key, counter, profile).Success?
    requires Matches(static_.authKey, key)
    requires CounterOf(now, static_).Success? && PublicOf(CounterOf(now, static_).value) == PublicOf(counter)
    requires forall v | v in Evaluate(profile, tpm.pcrs).value :: Cut(pcrs, indices, v)
    ensures Execute(now, alg, static_,
                    DynamicDataOf(alg, NextPolicy(tpm, alg, static_.authKey.nameAlg, key, counter, profile).value)) ==
            Failure(OrFailed(DigestNotFound))
  {
    var p := NextPolicy(tpm, alg, static_.authKey.nameAlg, key, counter, profile).value;
    CutIsGone(pcrs, indices, es, p.pcrs);
    ProfileToSession(tpm, now, alg, key, static_, counter, profile);
  }

  lemma {:induction false} SomeReachable(pcrs: PcrValues, values: seq<PcrValues>, selection: set<Pcr>)
    requires selection <= pcrs.Keys && forall v | v in values :: v.Keys == selection
    ensures (exists es :: Selected(After(pcrs, es), selection) in values) <==>
            (exists v :: v in values && PassesAll(pcrs, v))
  {
    if es :| Selected(After(pcrs, es), selection) in values {
      var v := Selected(After(pcrs, es), selection);
      assert Selected(After(pcrs, es), v.Keys) == v;
      ReachableExactly(pcrs, v);
    }
    if v :| v in values && PassesAll(pcrs, v) {
      ReachableExactly(pcrs, v);
      var es :| Selected(After(pcrs, es), v.Keys) == v;
    }
  }

  /** All branches of a profile from which a policy was made select the PCRs of the policy. */
  lemma {:induction false} BranchesSelect(tpm: TpmState, alg: HashAlg, signAlg: HashAlg, key: PrivateKey,
                                          counter: Option<NvIndex>, profile: Profile)
    requires NextPolicy(tpm, alg, signAlg, key, counter, profile).Success?
    ensures
      var p := NextPolicy(tpm, alg, signAlg, key, counter, profile).value;
      && p.pcrs <= tpm.pcrs.Keys && Evaluate(profile, tpm.pcrs).Success?
      && forall v | v in Evaluate(profile, tpm.pcrs).value :: v.Keys == p.pcrs
  {
  }

  /** What is left of a policy: after the fence, some extends open a session with it exactly when some branch of its
      profile has passed through the fence. */
  lemma {:induction false} FenceLeavesExactly(tpm: TpmState, pcrs: PcrValues, indices: seq<int>, fenced: TpmState,
                                              alg: HashAlg, key: PrivateKey, static_: StaticData,
                                              counter: Option<NvIndex>, profile: Profile)
    requires fenced.pcrs == FenceAll(pcrs, indices) && pcrs.Keys == tpm.pcrs.Keys
    requires NextPolicy(tpm, alg, static_.authKey.nameAlg, key, counter, profile).Success?
    requires Matches(static_.authKey, key)
    requires CounterOf(fenced, static_).Success? && PublicOf(CounterOf(fenced, static_).value) == PublicOf(counter)
    requires counter.Some? ==> CounterOf(fenced, static_).value.value.value <= counter.value.value + 1
    ensures
      var p := NextPolicy(tpm, alg, static_.authKey.nameAlg, key, counter, profile).value;
      (exists es ::
         Execute(fenced.(pcrs := After(fenced.pcrs, es)), alg, static_, DynamicDataOf(alg, p)).Success?) <==>
      (exists v ::
         v in Evaluate(profile, tpm.pcrs).value && v.Keys <= fenced.pcrs.Keys && PassesAll(fenced.pcrs, v))
  {
    var p := NextPolicy(tpm, alg, static_.authKey.nameAlg, key, counter, profile).value;
    var values := Evaluate(profile, tpm.pcrs).value;
    BranchesSelect(tpm, alg, static_.authKey.nameAlg, key, counter, profile);
    forall es
      ensures Execute(fenced.(pcrs := After(fenced.pcrs, es)), alg, static_, DynamicDataOf(alg, p)).Success? <==>
              Selected(After(fenced.pcrs, es), p.pcrs) in values
    {
      AfterKeys(fenced.pcrs, es);
      ProfileToSession(tpm, fenced.(pcrs := After(fenced.pcrs, es)), alg, key, static_, counter, profile);
    }
    SomeReachable(fenced.pcrs, values, p.pcrs);
  }

  /** A profile that allows a PCR to be unused, or to be fenced. */
  function UnusedOrFenced(p: Pcr): Profile {
    var unused := AddValue(p, Zeros(p.alg));
    Profile([AddOr([Profile([unused]), Profile([unused, ExtendPcr(p, Separator(p.alg))])])])
  }

  lemma {:induction false} UnusedOrFencedAllows(p: Pcr, tpm: PcrValues)
    ensures Evaluate(UnusedOrFenced(p), tpm) ==
            Success([map[p := Zeros(p.alg)], map[p := Extend(Zeros(p.alg), p.alg, Separator(p.alg))]])
  {
    var zero := Zeros(p.alg);
    var unused, fence := AddValue(p, zero), ExtendPcr(p, Separator(p.alg));
    var start: seq<PcrValues> := [map[]];
    var before: seq<PcrValues> := [map[p := zero]];
    var after: seq<PcrValues> := [map[p := Extend(zero, p.alg, Separator(p.alg))]];
    assert SetAll(start, p, zero) == before;
    assert Extended(before[0], p, Separator(p.alg)) == after[0];
    assert ExtendAll(before, p, Separator(p.alg)) == after;
    assert [fence][1..] == [] && [unused][1..] == [] && [unused, fence][1..] == [fence];
    assert Denote([unused], start, tpm) == Success(before);
    assert Denote([fence], before, tpm) == Success(after);
    assert Denote([unused, fence], start, tpm) == Success(after);
    var branches := [Profile([unused]), Profile([unused, fence])];
    assert branches[1..] == [Profile([unused, fence])] && branches[1..][1..] == [];
    assert DenoteEach(branches[1..], start, tpm) == Success(after + []);
    var all := before + after;
    assert before + (after + []) == all;
    assert DenoteEach(branches, start, tpm) == Success(all);
    assert [AddOr(branches)][1..] == [];
    assert UnusedOrFenced(p).instrs == [AddOr(branches)];
    assert Denote(UnusedOrFenced(p).instrs, start, tpm) == Denote([], all, tpm);
    assert Denote([], all, tpm) == Success(all);
    assert all == [before[0], after[0]];
  }

  lemma {:induction false} UnusedOrFencedPolicy(tpm: TpmState, p: Pcr, alg: HashAlg, signAlg: HashAlg, key: PrivateKey,
                                                counter: Option<NvIndex>)
    requires p in tpm.pcrs
    ensures NextPolicy(tpm, alg, signAlg, key, counter, UnusedOrFenced(p)).Success?
    ensures NextPolicy(tpm, alg, signAlg, key, counter, UnusedOrFenced(p)).value.pcrs == {p}
  {
    UnusedOrFencedAllows(p, tpm.pcrs);
    var vs := Evaluate(UnusedOrFenced(p), tpm.pcrs).value;
    assert vs[0].Keys == {p} && vs[1].Keys == {p};
  }

  lemma {:induction false} FencedOnce(pcrs: PcrValues, p: Pcr)
    requires p in pcrs
    ensures FenceAll(pcrs, [p.index])[p] == Extend(pcrs[p], p.alg, Separator(p.alg))
  {
    assert [p.index][..0] == [];
  }

  /** A state with the PCR unused or fenced opens a session with the policy, unless the counter has moved on. */
  lemma {:induction false} UnusedOrFencedOpens(tpm: TpmState, now: TpmState, p: Pcr, alg: HashAlg, key: PrivateKey,
                                               static_: StaticData)
    requires now.nv == tpm.nv && now.pcrs.Keys == tpm.pcrs.Keys && p in tpm.pcrs
    requires now.pcrs[p] == Zeros(p.alg) || now.pcrs[p] == Extend(Zeros(p.alg), p.alg, Separator(p.alg))
    requires Matches(static_.authKey, key) && CounterOf(tpm, static_).Success?
    ensures
      var policy := NextPolicy(tpm, alg, static_.authKey.nameAlg, key, CounterOf(tpm, static_).value,
                               UnusedOrFenced(p));
      policy.Success? && Execute(now, alg, static_, DynamicDataOf(alg, policy.value)).Success?
  {
    var counter := CounterOf(tpm, static_).value;
    UnusedOrFencedPolicy(tpm, p, alg, static_.authKey.nameAlg, key, counter);
    UnusedOrFencedAllows(p, tpm.pcrs);
    var vs := Evaluate(UnusedOrFenced(p), tpm.pcrs).value;
    var v := Selected(now.pcrs, {p});
    assert v == map[p := now.pcrs[p]];
    assert v == vs[0] || v == vs[1];
    ProfileToSession(tpm, now, alg, key, static_, counter, UnusedOrFenced(p));
  }

  /** The fence does not invalidate every policy that depends on a fenced PCR and that the present values satisfy: on
      every device with an unused PCR, this one opens a session before the fence and again after it. */
  lemma {:induction false} FenceIsNotABarrierForItself(tpm: TpmState, p: Pcr, alg: HashAlg, key: PrivateKey,
                                                       static_: StaticData)
    requires p in tpm.pcrs && tpm.pcrs[p] == Zeros(p.alg)
    requires Matches(static_.authKey, key) && CounterOf(tpm, static_).Success?
    ensures
      var policy := NextPolicy(tpm, alg, static_.authKey.nameAlg, key, CounterOf(tpm, static_).value,
                               UnusedOrFenced(p));
      var fenced := tpm.(pcrs := FenceAll(tpm.pcrs, [p.index]));
      && policy.Success? && policy.value.pcrs == {p} && fenced.pcrs[p] != tpm.pcrs[p]
      && Execute(tpm, alg, static_, DynamicDataOf(alg, policy.value)).Success?
      && Execute(fenced, alg, static_, DynamicDataOf(alg, policy.value)).Success?
  {
    var fenced := tpm.(pcrs := FenceAll(tpm.pcrs, [p.index]));
    UnusedOrFencedPolicy(tpm, p, alg, static_.authKey.nameAlg, key, CounterOf(tpm, static_).value);
    FencedOnce(tpm.pcrs, p);
    NeverBack(tpm.pcrs, [p.index], [], p);
    UnusedOrFencedOpens(tpm, tpm, p, alg, key, static_);
    UnusedOrFencedOpens(tpm, fenced, p, alg, key, static_);
  }
}
