/** The PCR selection and the approved PCR digests of a profile. */
module PcrDigests {
  import opened Digests
  import opened PcrProfile
  import opened PcrEvaluator

  datatype DigestError = CannotReadPcr(pcr: Pcr) | MixedSelections

  // --------------------------------------------------------- de-duplication

  /** First-occurrence de-duplication. */
  function Unique(ds: seq<Digest>): seq<Digest> {
    if ds == [] then []
    else
      var r := Unique(ds[..|ds| - 1]);
      var last := ds[|ds| - 1];
      if last in r then r else r + [last]
  }

  lemma {:induction false} UniqueMembers(ds: seq<Digest>, d: Digest)
    ensures d in Unique(ds) <==> d in ds
  {
    if ds != [] {
      UniqueMembers(ds[..|ds| - 1], d);
      assert ds == ds[..|ds| - 1] + [ds[|ds| - 1]];
    }
  }

  /** `at[k]` is the first position of r[k] in ds. */
  ghost predicate FirstAt(ds: seq<Digest>, d: Digest, i: nat) {
    i < |ds| && ds[i] == d && forall j | 0 <= j < i :: ds[j] != d
  }

  ghost predicate FirstOccurrences(ds: seq<Digest>, r: seq<Digest>, at: seq<nat>) {
    && |at| == |r|
    && (forall k | 0 <= k < |r| :: FirstAt(ds, r[k], at[k]))
    && (forall k, l | 0 <= k < l < |r| :: at[k] < at[l])
  }

  /** De-duplication keeps every digest once, in the order of first occurrence. */
  lemma {:induction false} UniqueIsFirstOccurrences(ds: seq<Digest>) returns (at: seq<nat>)
    ensures FirstOccurrences(ds, Unique(ds), at)
    ensures forall d | d in ds :: d in Unique(ds)
  {
    forall d | d in ds
      ensures d in Unique(ds)
    {
      UniqueMembers(ds, d);
    }
    if ds == [] {
      at := [];
    } else {
      var front, last := ds[..|ds| - 1], ds[|ds| - 1];
      var r := Unique(front);
      at := UniqueIsFirstOccurrences(front);
      forall k | 0 <= k < |r|
        ensures FirstAt(ds, r[k], at[k])
      {
        assert FirstAt(front, r[k], at[k]);
      }
      if last !in r {
        UniqueMembers(front, last);
        assert FirstAt(ds, last, |front|) by {
          assert forall j | 0 <= j < |front| :: ds[j] == front[j];
        }
        at := at + [|front|];
      }
    }
  }

  method Deduplicate(digests: seq<Digest>) returns (kept: seq<Digest>)
    ensures kept == Unique(digests)
  {
    kept := [];
    for i := 0 to |digests|
      invariant kept == Unique(digests[..i])
    {
      assert digests[..i + 1][..i] == digests[..i];
      var found := false;
      for j := 0 to |kept|
        invariant !found && digests[i] !in kept[..j]
      {
        if digests[i] == kept[j] {
          found := true;
          break;
        }
      }
      assert found <==> digests[i] in kept;
      if !found {
        kept := kept + [digests[i]];
      }
    }
    assert digests[..|digests|] == digests;
  }

  // ------------------------------------------------------------ the digests

  function DigestsOf(alg: HashAlg, vs: seq<PcrValues>): (r: seq<Digest>)
    ensures |r| == |vs|
    ensures forall i | 0 <= i < |vs| :: r[i] == PcrDigest(alg, vs[i])
  {
    seq(|vs|, i requires 0 <= i < |vs| => PcrDigest(alg, vs[i]))
  }

  ghost predicate SameSelection(vs: seq<PcrValues>) {
    forall i | 0 <= i < |vs| :: vs[i].Keys == vs[0].Keys
  }

  /** The digests of all combinations, provided that they all cover the same PCRs. */
  method DigestEach(l: seq<ValueMap>, alg: HashAlg, ghost vs: seq<PcrValues>) returns (r: Option<seq<Digest>>)
    requires |l| > 0 && vs == Held(l)
    ensures r == if SameSelection(vs) then Some(DigestsOf(alg, vs)) else None
  {
    var pcrs := l[0].m.Keys;
    var digests: seq<Digest> := [];
    for i := 0 to |l|
      invariant digests == DigestsOf(alg, vs)[..i]
      invariant forall k | 0 <= k < i :: vs[k].Keys == pcrs
    {
      if l[i].m.Keys != pcrs {
        assert vs[i].Keys != vs[0].Keys;
        return None;
      }
      digests := digests + [PcrDigest(alg, l[i].m)];
    }
    assert digests == DigestsOf(alg, vs);
    return Some(digests);
  }

  /** What the computation of the PCR digests of a profile returns. */
  ghost function Approved(p: Profile, tpm: PcrValues, alg: HashAlg): Result<(set<Pcr>, seq<Digest>), DigestError> {
    match Evaluate(p, tpm)
    case Failure(pcr) => Failure(CannotReadPcr(pcr))
    case Success(vs) =>
      DenoteLength(p.instrs, [map[]], tpm);
      if SameSelection(vs) then Success((vs[0].Keys, Unique(DigestsOf(alg, vs)))) else Failure(MixedSelections)
  }

  method ComputePcrDigests(p: Profile, tpm: PcrValues, alg: HashAlg)
      returns (r: Result<(set<Pcr>, seq<Digest>), DigestError>)
    ensures r == Approved(p, tpm, alg)
  {
    var values := ComputePcrValues(p, tpm);
    if values.Failure? {
      return Failure(CannotReadPcr(values.error));
    }
    var l := values.value;
    DenoteLength(p.instrs, [map[]], tpm);
    var digests := DigestEach(l, alg, Held(l));
    if digests == None {
      return Failure(MixedSelections);
    }
    var kept := Deduplicate(digests.value);
    return Success((l[0].m.Keys, kept));
  }

  /** A digest is approved exactly when it is the digest of a combination that the profile allows. */
  lemma {:induction false} ApprovedMeansAllowed(p: Profile, tpm: PcrValues, alg: HashAlg, v: PcrValues)
    requires Approved(p, tpm, alg).Success?
    requires v.Keys == Approved(p, tpm, alg).value.0
    ensures PcrDigest(alg, v) in Approved(p, tpm, alg).value.1 <==> v in Evaluate(p, tpm).value
    ensures Approved(p, tpm, alg).value.1 != []
  {
    var vs := Evaluate(p, tpm).value;
    DenoteLength(p.instrs, [map[]], tpm);
    UniqueMembers(DigestsOf(alg, vs), PcrDigest(alg, v));
    if PcrDigest(alg, v) in DigestsOf(alg, vs) {
      var i :| 0 <= i < |vs| && DigestsOf(alg, vs)[i] == PcrDigest(alg, v);
      PcrDigestInjective(alg, v, vs[i]);
    }
    if v in vs {
      var i :| 0 <= i < |vs| && vs[i] == v;
      assert DigestsOf(alg, vs)[i] == PcrDigest(alg, v);
    }
    UniqueMembers(DigestsOf(alg, vs), DigestsOf(alg, vs)[0]);
  }
}
