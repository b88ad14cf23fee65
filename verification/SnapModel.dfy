/** The snap model profile: what the boot chain measures about the device model, and which models a key is bound to. */
module SnapModel {
  import opened Digests
  import opened Tpm
  import opened PcrProfile
  import opened PcrFence

  /** `signKey` is the decoded key identifier, if it can be decoded; `grade` is a 32-bit code. */
  datatype Model = Model(series: Bytes, brand: Bytes, model: Bytes, grade: nat, signKey: Option<Bytes>)

  /** TPM_ALG_SHA384, least significant octet first. */
  const KEY_DIGEST_ALG: Bytes := [0x0c, 0x00]

  function EpochDigest(alg: HashAlg): Digest {
    Hash(alg, Octets(EncodeUint32(0)))
  }

  function BrandDigest(alg: HashAlg, key: Bytes, brand: Bytes): Digest {
    Hash(alg, Octets(KEY_DIGEST_ALG + key + brand))
  }

  function NameDigest(alg: HashAlg, brand: Digest, name: Bytes): Digest {
    Hash(alg, [Block(brand)] + Octets(name))
  }

  function GradeDigest(alg: HashAlg, name: Digest, series: Bytes, grade: nat): Digest {
    Hash(alg, [Block(name)] + Octets(series + EncodeUint32(grade)))
  }

  function ModelDigest(alg: HashAlg, m: Model): Option<Digest> {
    if m.signKey.None? then None
    else Some(GradeDigest(alg, NameDigest(alg, BrandDigest(alg, m.signKey.value, m.brand), m.model), m.series, m.grade))
  }

  // ------------------------------------------------------------ what it binds

  lemma {:induction false} BlockThenOctets(d1: Digest, a: Bytes, d2: Digest, b: Bytes)
    requires [Block(d1)] + Octets(a) == [Block(d2)] + Octets(b)
    ensures d1 == d2 && a == b
  {
    var s1, s2 := [Block(d1)] + Octets(a), [Block(d2)] + Octets(b);
    assert s1[0] == s2[0];
    assert Octets(a) == s1[1..] && Octets(b) == s2[1..];
    OctetsInjective(a, b);
  }

  lemma {:induction false} SameEnds(a: Bytes, b: Bytes, c: Bytes, d: Bytes)
    requires a + b == c + d && |b| == |d|
    ensures a == c && b == d
  {
    assert a == (a + b)[..|a|] && c == (c + d)[..|c|];
    assert b == (a + b)[|a|..] && d == (c + d)[|c|..];
  }

  /** The three hashes of a model, innermost first: key and brand, the model, and series and grade. */
  lemma {:induction false} DigestLayers(alg: HashAlg, m: Model)
    requires m.signKey.Some? && m.grade < UINT32_LIMIT
    ensures
      var brand := Hash(alg, Octets([0x0c, 0x00] + m.signKey.value + m.brand));
      var model := Hash(alg, [Block(brand)] + Octets(m.model));
      ModelDigest(alg, m) == Some(Hash(alg, [Block(model)] + Octets(m.series + EncodeUint32(m.grade))))
    ensures EpochDigest(alg) == Hash(alg, [Octet(0), Octet(0), Octet(0), Octet(0)])
  {
    assert Octets([0, 0, 0, 0]) == [Octet(0), Octet(0), Octet(0), Octet(0)];
  }

  /** Two models have the same digest exactly when they agree on model, series and grade, and on the key and the brand
      taken together. */
  lemma {:induction false} DigestExactly(alg: HashAlg, m1: Model, m2: Model)
    requires m1.signKey.Some? && m2.signKey.Some? && m1.grade < UINT32_LIMIT && m2.grade < UINT32_LIMIT
    ensures ModelDigest(alg, m1) == ModelDigest(alg, m2) <==>
            && m1.model == m2.model && m1.series == m2.series && m1.grade == m2.grade
            && m1.signKey.value + m1.brand == m2.signKey.value + m2.brand
  {
    var b1, b2 := BrandDigest(alg, m1.signKey.value, m1.brand), BrandDigest(alg, m2.signKey.value, m2.brand);
    var n1, n2 := NameDigest(alg, b1, m1.model), NameDigest(alg, b2, m2.model);
    Regroup(KEY_DIGEST_ALG, m1.signKey.value, m1.brand);
    Regroup(KEY_DIGEST_ALG, m2.signKey.value, m2.brand);
    if ModelDigest(alg, m1) == ModelDigest(alg, m2) {
      BlockThenOctets(n1, m1.series + EncodeUint32(m1.grade), n2, m2.series + EncodeUint32(m2.grade));
      SameEnds(m1.series, EncodeUint32(m1.grade), m2.series, EncodeUint32(m2.grade));
      EncodedUint32(m1.grade);
      EncodedUint32(m2.grade);
      BlockThenOctets(b1, m1.model, b2, m2.model);
      OctetsInjective(KEY_DIGEST_ALG + m1.signKey.value + m1.brand, KEY_DIGEST_ALG + m2.signKey.value + m2.brand);
      SamePrefix(KEY_DIGEST_ALG, m1.signKey.value + m1.brand, m2.signKey.value + m2.brand);
    }
  }

  lemma {:induction false} SamePrefix(p: Bytes, a: Bytes, b: Bytes)
    requires p + a == p + b
    ensures a == b
  {
    assert a == (p + a)[|p|..] && b == (p + b)[|p|..];
  }

  /** Key identifiers are digests of one algorithm, so they have the same length; then the digest binds every field. */
  lemma {:induction false} DigestBindsModel(alg: HashAlg, m1: Model, m2: Model)
    requires m1.signKey.Some? && m2.signKey.Some? && m1.grade < UINT32_LIMIT && m2.grade < UINT32_LIMIT
    requires |m1.signKey.value| == |m2.signKey.value| && ModelDigest(alg, m1) == ModelDigest(alg, m2)
    ensures m1 == m2
  {
    DigestExactly(alg, m1, m2);
    var s := m1.signKey.value + m1.brand;
    var n := |m1.signKey.value|;
    assert m1.signKey.value == s[..n] && m1.brand == s[n..];
    assert m2.signKey.value == s[..n] && m2.brand == s[n..];
  }

  /** For key identifiers of different lengths it does not: an octet can move from the key to the brand. */
  lemma {:induction false} KeyLengthMatters(alg: HashAlg)
    ensures
      var m1 := Model([], [2], [], 0, Some([1]));
      var m2 := Model([], [], [], 0, Some([1, 2]));
      m1 != m2 && ModelDigest(alg, m1) == ModelDigest(alg, m2)
  {
    var m1 := Model([], [2], [], 0, Some([1]));
    var m2 := Model([], [], [], 0, Some([1, 2]));
    assert m1.signKey.value + m1.brand == m2.signKey.value + m2.brand;
    DigestExactly(alg, m1, m2);
  }

  // -------------------------------------------------------------- the profile

  datatype SnapError = InvalidIndex | NoModels | NilModel | BadKeyId

  /** The digests of all models, or the error of the first that has none. */
  function ModelDigests(alg: HashAlg, models: seq<Option<Model>>): Result<seq<Digest>, SnapError>
    decreases |models|
  {
    if models == [] then Success([])
    else
      match ModelDigests(alg, models[..|models| - 1])
      case Failure(e) => Failure(e)
      case Success(ds) =>
        var m := models[|models| - 1];
        if m.None? then Failure(NilModel)
        else
          match ModelDigest(alg, m.value)
          case None => Failure(BadKeyId)
          case Some(d) => Success(ds + [d])
  }

  function Choices(pcr: Pcr, ds: seq<Digest>): (r: seq<Profile>)
    ensures |r| == |ds|
    ensures forall k | 0 <= k < |r| :: r[k] == Profile([ExtendPcr(pcr, ds[k])])
  {
    seq(|ds|, k requires 0 <= k < |ds| => Profile([ExtendPcr(pcr, ds[k])]))
  }

  lemma {:induction false} DigestsFail(alg: HashAlg, models: seq<Option<Model>>, i: nat, e: SnapError)
    requires i <= |models| && ModelDigests(alg, models[..i]) == Failure(e)
    ensures ModelDigests(alg, models) == Failure(e)
    decreases |models|
  {
    if i < |models| {
      assert models[..|models| - 1][..i] == models[..i];
      DigestsFail(alg, models[..|models| - 1], i, e);
    } else {
      assert models[..i] == models;
    }
  }

  /** Adds the model profile. The epoch is added even if one of the models turns out to be unusable. */
  method AddSnapModelProfile(before: Profile, alg: HashAlg, index: int, models: seq<Option<Model>>)
      returns (after: Profile, error: Option<SnapError>)
    ensures index < 0 ==> after == before && error == Some(InvalidIndex)
    ensures index >= 0 && models == [] ==> after == before && error == Some(NoModels)
    ensures index >= 0 && models != [] ==>
              var epoch := [ExtendPcr(Pcr(alg, index), EpochDigest(alg))];
              match ModelDigests(alg, models)
              case Failure(e) => after == Profile(before.instrs + epoch) && error == Some(e)
              case Success(ds) =>
                && after == Profile(before.instrs + epoch + [AddOr(Choices(Pcr(alg, index), ds))])
                && error == None
  {
    if index < 0 {
      return before, Some(InvalidIndex);
    }
    if |models| == 0 {
      return before, Some(NoModels);
    }
    var pcr := Pcr(alg, index);
    after := Profile(before.instrs + [ExtendPcr(pcr, EpochDigest(alg))]);
    var subProfiles: seq<Profile> := [];
    ghost var ds: seq<Digest> := [];
    for i := 0 to |models|
      invariant subProfiles == Choices(pcr, ds) && ModelDigests(alg, models[..i]) == Success(ds)
    {
      assert models[..i + 1][..i] == models[..i];
      if models[i].None? {
        DigestsFail(alg, models, i + 1, NilModel);
        return after, Some(NilModel);
      }
      var digest := ModelDigest(alg, models[i].value);
      if digest.None? {
        DigestsFail(alg, models, i + 1, BadKeyId);
        return after, Some(BadKeyId);
      }
      subProfiles := subProfiles + [Profile([ExtendPcr(pcr, digest.value)])];
      ds := ds + [digest.value];
    }
    assert models[..|models|] == models;
    return Profile(after.instrs + [AddOr(subProfiles)]), None;
  }

  // ----------------------------------------------------------- the measurement

  /** What is measured: the epoch, or a model. */
  function PropertyDigest(alg: HashAlg, property: Option<Model>): Option<Digest> {
    if property.None? then Some(EpochDigest(alg)) else ModelDigest(alg, property.value)
  }

  function Extended(values: PcrValues, banks: set<HashAlg>, index: int, property: Option<Model>): PcrValues
    requires forall alg | alg in banks :: PropertyDigest(alg, property).Some?
  {
    map p | p in values ::
      if p.index == index && p.alg in banks then Extend(values[p], p.alg, PropertyDigest(p.alg, property).value)
          else values[p]
  }

  function BankSet(banks: seq<HashAlg>): set<HashAlg> {
    set alg | alg in banks
  }

  /** Measures a property to all banks of the TPM. */
  method MeasureSnapPropertyToTPM(tpm: PcrBanks, banks: seq<HashAlg>, index: int, property: Option<Model>)
      returns (ok: bool)
    modifies tpm
    ensures ok == ((forall k | 0 <= k < |banks| :: PropertyDigest(banks[k], property).Some?) && 0 <= index < PCR_COUNT)
    ensures ok ==> tpm.values == Extended(old(tpm.values), BankSet(banks), index, property)
    ensures !ok ==> tpm.values == old(tpm.values)
  {
    var digests: map<HashAlg, Digest> := map[];
    for i := 0 to |banks|
      invariant digests.Keys == BankSet(banks[..i])
      invariant forall alg | alg in digests :: PropertyDigest(alg, property) == Some(digests[alg])
      invariant forall k | 0 <= k < i :: PropertyDigest(banks[k], property).Some?
    {
      var digest := PropertyDigest(banks[i], property);
      if digest.None? {
        return false;
      }
      assert banks[..i + 1] == banks[..i] + [banks[i]];
      digests := digests[banks[i] := digest.value];
    }
    assert banks[..|banks|] == banks;
    if !(0 <= index < PCR_COUNT) {
      return false;
    }
    tpm.values := map p | p in tpm.values ::
                    if p.index == index && p.alg in digests then Extend(tpm.values[p], p.alg, digests[p.alg])
                        else tpm.values[p];
    return true;
  }

  // ----------------------------------------------------------- the connection

  /** The value of the PCR after measuring the epoch and then a model. */
  function MeasuredValue(alg: HashAlg, start: Digest, d: Digest): Digest {
    Extend(Extend(start, alg, EpochDigest(alg)), alg, d)
  }

  lemma {:induction false} ChoicesDenote(pcr: Pcr, ds: seq<Digest>, v: PcrValues, tpm: PcrValues)
    ensures DenoteEach(Choices(pcr, ds), [v], tpm).Success?
    ensures |DenoteEach(Choices(pcr, ds), [v], tpm).value| == |ds|
    ensures forall k | 0 <= k < |ds| ::
              DenoteEach(Choices(pcr, ds), [v], tpm).value[k] == PcrProfile.Extended(v, pcr, ds[k])
    decreases |ds|
  {
    if ds != [] {
      ChoicesDenote(pcr, ds[1..], v, tpm);
      var first := [ExtendPcr(pcr, ds[0])];
      assert first[1..] == [];
      assert ExtendAll([v], pcr, ds[0]) == [PcrProfile.Extended(v, pcr, ds[0])];
      assert Denote(first, [v], tpm) == Success([PcrProfile.Extended(v, pcr, ds[0])]);
      assert Choices(pcr, ds)[1..] == Choices(pcr, ds[1..]);
    }
  }

  /** The profile has one branch for each model, with the value that measuring the epoch and that model leads to. */
  lemma {:induction false} BranchPerModel(alg: HashAlg, index: int, ds: seq<Digest>, v: PcrValues, tpm: PcrValues)
    requires ds != []
    ensures
      var pcr := Pcr(alg, index);
      var r := Denote([ExtendPcr(pcr, EpochDigest(alg)), AddOr(Choices(pcr, ds))], [v], tpm);
      var start := if pcr in v then v[pcr] else Zeros(alg);
      && r.Success? && |r.value| == |ds|
      && forall k | 0 <= k < |ds| :: r.value[k] == v[pcr := MeasuredValue(alg, start, ds[k])]
  {
    var pcr := Pcr(alg, index);
    var instrs := [ExtendPcr(pcr, EpochDigest(alg)), AddOr(Choices(pcr, ds))];
    var v' := PcrProfile.Extended(v, pcr, EpochDigest(alg));
    assert instrs[1..] == [AddOr(Choices(pcr, ds))] && instrs[1..][1..] == [];
    assert ExtendAll([v], pcr, EpochDigest(alg)) == [v'];
    ChoicesDenote(pcr, ds, v', tpm);
    var or := instrs[1..];
    assert Choices(pcr, ds) != [];
    assert Denote(or, [v'], tpm) == DenoteEach(Choices(pcr, ds), [v'], tpm);
    assert Denote(instrs, [v], tpm) == Denote(or, [v'], tpm);
    forall k | 0 <= k < |ds|
      ensures PcrProfile.Extended(v', pcr, ds[k]) ==
              v[pcr := MeasuredValue(alg, if pcr in v then v[pcr] else Zeros(alg), ds[k])]
    {
    }
  }

  lemma {:induction false} DigestsAre(alg: HashAlg, models: seq<Option<Model>>)
    requires ModelDigests(alg, models).Success?
    ensures |ModelDigests(alg, models).value| == |models|
    ensures forall k | 0 <= k < |models| ::
              models[k].Some? && ModelDigest(alg, models[k].value) == Some(ModelDigests(alg, models).value[k])
    decreases |models|
  {
    if models != [] {
      DigestsAre(alg, models[..|models| - 1]);
    }
  }

  ghost predicate Lists(models: seq<Option<Model>>, m: Model) {
    exists k :: 0 <= k < |models| && models[k] == Some(m)
  }

  /** Starting from the value that the profile expects, measuring the epoch and a model leads to a branch of the profile
      exactly when the model is listed. */
  lemma {:induction false} ApprovedExactlyIfListed(alg: HashAlg, index: int, models: seq<Option<Model>>, m: Model,
                                                   v: PcrValues, tpm: PcrValues, keyLength: nat)
    requires models != [] && ModelDigests(alg, models).Success? && Pcr(alg, index) in v
    requires m.signKey.Some? && m.grade < UINT32_LIMIT && |m.signKey.value| == keyLength
    requires forall k | 0 <= k < |models| && models[k].Some? && models[k].value.signKey.Some? ::
               |models[k].value.signKey.value| == keyLength && models[k].value.grade < UINT32_LIMIT
    ensures
      var pcr := Pcr(alg, index);
      var r := Denote([ExtendPcr(pcr, EpochDigest(alg)), AddOr(Choices(pcr, ModelDigests(alg, models).value))], [v],
                      tpm);
      r.Success? && (v[pcr := MeasuredValue(alg, v[pcr], ModelDigest(alg, m).value)] in r.value <==> Lists(models, m))
  {
    var pcr := Pcr(alg, index);
    var ds := ModelDigests(alg, models).value;
    DigestsAre(alg, models);
    BranchPerModel(alg, index, ds, v, tpm);
    var r := Denote([ExtendPcr(pcr, EpochDigest(alg)), AddOr(Choices(pcr, ds))], [v], tpm).value;
    var d := ModelDigest(alg, m).value;
    var measured := v[pcr := MeasuredValue(alg, v[pcr], d)];
    if Lists(models, m) {
      var k :| 0 <= k < |models| && models[k] == Some(m);
      assert r[k] == measured;
    }
    if measured in r {
      var k :| 0 <= k < |r| && r[k] == measured;
      SameMeasured(alg, v, pcr, ds[k], d);
      DigestBindsModel(alg, models[k].value, m);
    }
  }

  lemma {:induction false} SameMeasured(alg: HashAlg, v: PcrValues, pcr: Pcr, d1: Digest, d2: Digest)
    requires pcr in v && v[pcr := MeasuredValue(alg, v[pcr], d1)] == v[pcr := MeasuredValue(alg, v[pcr], d2)]
    ensures d1 == d2
  {
    var e := Extend(v[pcr], alg, EpochDigest(alg));
    assert v[pcr := Extend(e, alg, d1)][pcr] == v[pcr := Extend(e, alg, d2)][pcr];
    ExtendInjective(e, e, alg, alg, d1, d2);
  }

  /** A TPM to which the epoch and a model are measured ends in a branch of the profile exactly when the model is
      listed. */
  lemma {:induction false} MeasuringApprovedExactly(values: PcrValues, banks: set<HashAlg>, alg: HashAlg, index: int,
                                                    models: seq<Option<Model>>, m: Model, tpm: PcrValues,
                                                    keyLength: nat)
    requires alg in banks && Pcr(alg, index) in values && models != [] && ModelDigests(alg, models).Success?
    requires m.signKey.Some? && m.grade < UINT32_LIMIT && |m.signKey.value| == keyLength
    requires forall k | 0 <= k < |models| && models[k].Some? && models[k].value.signKey.Some? ::
               |models[k].value.signKey.value| == keyLength && models[k].value.grade < UINT32_LIMIT
    ensures
      var pcr := Pcr(alg, index);
      var v := map[pcr := values[pcr]];
      var r := Denote([ExtendPcr(pcr, EpochDigest(alg)), AddOr(Choices(pcr, ModelDigests(alg, models).value))], [v],
                      tpm);
      var after := Extended(Extended(values, banks, index, None), banks, index, Some(m));
      r.Success? && (Selected(after, {pcr}) in r.value <==> Lists(models, m))
  {
    var pcr := Pcr(alg, index);
    var v := map[pcr := values[pcr]];
    var epoch := Extended(values, banks, index, None);
    var after := Extended(epoch, banks, index, Some(m));
    assert pcr in epoch && pcr in after;
    var value := MeasuredValue(alg, values[pcr], ModelDigest(alg, m).value);
    assert Selected(after, {pcr}) == v[pcr := value];
    ApprovedExactlyIfListed(alg, index, models, m, v, tpm, keyLength);
  }
}
