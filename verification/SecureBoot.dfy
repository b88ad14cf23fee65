/** Secure boot verification: which authority authenticates an image, what is measured to PCR 7, and which ways of
    loading the images can boot. */
module SecureBoot {
  import opened Digests
  import opened Authenticode
  import opened LoadEvents
  import opened SignatureDb
  import opened ProfileArena

  const CERT_X509_GUID: Bytes :=
    [0xa1, 0x59, 0xc0, 0xa5, 0xe4, 0x94, 0xa7, 0x4a, 0x87, 0xb5, 0xab, 0x15, 0x5c, 0x2b, 0xf0, 0x72]
  const SHIM_GUID: Bytes :=
    [0x50, 0xab, 0x5d, 0x60, 0x46, 0xe0, 0x00, 0x43, 0xab, 0xb6, 0x3d, 0xd8, 0x10, 0xdd, 0x8b, 0x23]
  const NO_OWNER: Bytes := [0, 0, 0, 0, 0, 0, 0, 0, 0, 0, 0, 0, 0, 0, 0, 0]

  datatype Db = Db(guid: Bytes, name: string, entries: seq<Entry>)

  /** What a branch knows: the signature databases, and the verification events that firmware and shim have measured. */
  datatype Context = Context(uefiDb: Option<Db>, shimDb: Option<Db>, firmwareEvents: Path, shimEvents: Path)

  // ------------------------------------------------------------- the authority

  predicate Trusts(ca: Bytes, signer: Signer) {
    ca == signer.raw || ca in signer.issuers
  }

  datatype Authority = Authority(entry: Entry, guid: Bytes, name: string)

  /** The first certificate of a database that the signer is trusted by. */
  function FindInEntries(entries: seq<Entry>, signer: Signer): Option<Entry> {
    if entries == [] then None
    else if entries[0].sigType == CERT_X509_GUID && Trusts(entries[0].data, signer) then Some(entries[0])
    else FindInEntries(entries[1..], signer)
  }

  function FindInDbs(dbs: seq<Option<Db>>, signer: Signer): Option<Authority> {
    if dbs == [] then None
    else if dbs[0].None? then FindInDbs(dbs[1..], signer)
    else
      match FindInEntries(dbs[0].value.entries, signer)
      case Some(entry) => Some(Authority(entry, dbs[0].value.guid, dbs[0].value.name))
      case None => FindInDbs(dbs[1..], signer)
  }

  /** The signatures of the image are tried in their order, and each against all databases. */
  function FindAuthority(signers: seq<Signer>, dbs: seq<Option<Db>>): Option<Authority> {
    if signers == [] then None
    else
      match FindInDbs(dbs, signers[0])
      case Some(a) => Some(a)
      case None => FindAuthority(signers[1..], dbs)
  }

  /** Shim also uses its own certificate; the database of machine owner keys is not supported. */
  function Dbs(ctx: Context, source: Source): seq<Option<Db>> {
    if source == Firmware then [ctx.uefiDb] else [ctx.uefiDb, None, ctx.shimDb]
  }

  /** The nested loops of the search. */
  method SearchAuthority(signers: seq<Signer>, dbs: seq<Option<Db>>) returns (r: Option<Authority>)
    ensures r == FindAuthority(signers, dbs)
  {
    var sigs := signers;
    while sigs != []
      invariant FindAuthority(signers, dbs) == FindAuthority(sigs, dbs)
    {
      var todo := dbs;
      while todo != []
        invariant FindInDbs(dbs, sigs[0]) == FindInDbs(todo, sigs[0])
      {
        if todo[0].Some? {
          var entries := todo[0].value.entries;
          while entries != []
            invariant FindInEntries(todo[0].value.entries, sigs[0]) == FindInEntries(entries, sigs[0])
          {
            if entries[0].sigType == CERT_X509_GUID && Trusts(entries[0].data, sigs[0]) {
              return Some(Authority(entries[0], todo[0].value.guid, todo[0].value.name));
            }
            entries := entries[1..];
          }
        }
        todo := todo[1..];
      }
      sigs := sigs[1..];
    }
    return None;
  }

  /** Entry k of database j is a certificate that signature i is trusted by. */
  ghost predicate Candidate(signers: seq<Signer>, dbs: seq<Option<Db>>, i: nat, j: nat, k: nat) {
    && i < |signers| && j < |dbs| && dbs[j].Some? && k < |dbs[j].value.entries|
    && dbs[j].value.entries[k].sigType == CERT_X509_GUID && Trusts(dbs[j].value.entries[k].data, signers[i])
  }

  /** Signatures come first in the order of the search, then databases, then entries. */
  ghost predicate Earlier(i: nat, j: nat, k: nat, i': nat, j': nat, k': nat) {
    i < i' || (i == i' && (j < j' || (j == j' && k < k')))
  }

  lemma {:induction false} FirstEntry(entries: seq<Entry>, signer: Signer) returns (k: nat)
    ensures k <= |entries|
    ensures forall n | 0 <= n < k :: !(entries[n].sigType == CERT_X509_GUID && Trusts(entries[n].data, signer))
    ensures k < |entries| ==> entries[k].sigType == CERT_X509_GUID && Trusts(entries[k].data, signer)
    ensures FindInEntries(entries, signer) == if k < |entries| then Some(entries[k]) else None
    decreases |entries|
  {
    if entries == [] || (entries[0].sigType == CERT_X509_GUID && Trusts(entries[0].data, signer)) {
      k := 0;
    } else {
      var rest := FirstEntry(entries[1..], signer);
      k := rest + 1;
      forall n | 0 <= n < k
        ensures !(entries[n].sigType == CERT_X509_GUID && Trusts(entries[n].data, signer))
      {
        assert n > 0 ==> entries[n] == entries[1..][n - 1];
      }
    }
  }

  /** Some entry of the database is a certificate that the signer is trusted by. */
  ghost predicate InDb(db: Option<Db>, signer: Signer) {
    db.Some? && FindInEntries(db.value.entries, signer).Some?
  }

  lemma {:induction false} FirstDb(dbs: seq<Option<Db>>, signer: Signer) returns (j: nat)
    ensures j <= |dbs| && forall n | 0 <= n < j :: !InDb(dbs[n], signer)
    ensures j < |dbs| ==> InDb(dbs[j], signer)
    ensures FindInDbs(dbs, signer) ==
            if j < |dbs| then Some(Authority(FindInEntries(dbs[j].value.entries, signer).value, dbs[j].value.guid,
                                             dbs[j].value.name))
            else None
    decreases |dbs|
  {
    if dbs == [] || InDb(dbs[0], signer) {
      j := 0;
    } else {
      var rest := FirstDb(dbs[1..], signer);
      j := rest + 1;
      forall n | 0 <= n < j
        ensures !InDb(dbs[n], signer)
      {
        assert n > 0 ==> dbs[n] == dbs[1..][n - 1];
      }
    }
  }

  lemma {:induction false} FirstSigner(signers: seq<Signer>, dbs: seq<Option<Db>>) returns (i: nat)
    ensures i <= |signers| && forall n | 0 <= n < i :: FindInDbs(dbs, signers[n]).None?
    ensures i < |signers| ==> FindInDbs(dbs, signers[i]).Some?
    ensures FindAuthority(signers, dbs) == if i < |signers| then FindInDbs(dbs, signers[i]) else None
    decreases |signers|
  {
    if signers == [] || FindInDbs(dbs, signers[0]).Some? {
      i := 0;
    } else {
      var rest := FirstSigner(signers[1..], dbs);
      i := rest + 1;
      forall n | 0 <= n < i
        ensures FindInDbs(dbs, signers[n]).None?
      {
        assert n > 0 ==> signers[n] == signers[1..][n - 1];
      }
    }
  }

  /** A candidate is found by the search of its signature, and not after its database. */
  lemma {:induction false} CandidateIsFound(signers: seq<Signer>, dbs: seq<Option<Db>>, i: nat, j: nat, k: nat)
    requires Candidate(signers, dbs, i, j, k)
    ensures InDb(dbs[j], signers[i]) && FindInDbs(dbs, signers[i]).Some?
  {
    var k' := FirstEntry(dbs[j].value.entries, signers[i]);
    var j' := FirstDb(dbs, signers[i]);
  }

  /** The authority is the earliest candidate, and there is none exactly if there is no candidate. */
  lemma {:induction false} AuthorityIsFirst(signers: seq<Signer>, dbs: seq<Option<Db>>) returns (i: nat, j: nat, k: nat)
    ensures FindAuthority(signers, dbs).None? ==> forall i', j', k' :: !Candidate(signers, dbs, i', j', k')
    ensures FindAuthority(signers, dbs).Some? ==>
              && Candidate(signers, dbs, i, j, k)
              && FindAuthority(signers, dbs).value ==
                 Authority(dbs[j].value.entries[k], dbs[j].value.guid, dbs[j].value.name)
              && forall i', j', k' | Candidate(signers, dbs, i', j', k') :: !Earlier(i', j', k', i, j, k)
  {
    i := FirstSigner(signers, dbs);
    if i < |signers| {
      j := FirstDb(dbs, signers[i]);
      k := FirstEntry(dbs[j].value.entries, signers[i]);
    } else {
      j, k := 0, 0;
    }
    forall i', j', k' | Candidate(signers, dbs, i', j', k')
      ensures i < |signers| && !Earlier(i', j', k', i, j, k)
    {
      CandidateIsFound(signers, dbs, i', j', k');
    }
  }

  // ---------------------------------------------------------- the measurement

  function Uint64Octets(n: nat): (r: Bytes)
    ensures |r| == 8
  {
    EncodeUint32(n % UINT32_LIMIT) + EncodeUint32(n / UINT32_LIMIT)
  }

  function Utf16(s: string): (r: Bytes)
    ensures |r| == 2 * |s|
  {
    if s == [] then [] else [(s[0] as nat % 0x100) as byte, (s[0] as nat / 0x100 % 0x100) as byte] + Utf16(s[1..])
  }

  /** The digest of a variable event: GUID, lengths, name and contents. */
  function VariableDigest(alg: HashAlg, guid: Bytes, name: string, value: Bytes): Digest {
    Hash(alg, Octets(VariableHeader(guid, name, value) + Utf16(name) + value))
  }

  /** Firmware measures the owner and the certificate, and shim the certificate alone. */
  function AuthorityDigest(alg: HashAlg, a: Authority, source: Source): Digest {
    VariableDigest(alg, a.guid, a.name, if source == Firmware then a.entry.owner + a.entry.data else a.entry.data)
  }

  lemma {:induction false} Uint64Injective(m: nat, n: nat)
    requires m < UINT32_LIMIT * UINT32_LIMIT && n < UINT32_LIMIT * UINT32_LIMIT && Uint64Octets(m) == Uint64Octets(n)
    ensures m == n
  {
    var a, b := Uint64Octets(m), Uint64Octets(n);
    assert EncodeUint32(m % UINT32_LIMIT) == a[..4] && EncodeUint32(n % UINT32_LIMIT) == b[..4];
    assert EncodeUint32(m / UINT32_LIMIT) == a[4..] && EncodeUint32(n / UINT32_LIMIT) == b[4..];
    EncodedUint32(m % UINT32_LIMIT);
    EncodedUint32(n % UINT32_LIMIT);
    EncodedUint32(m / UINT32_LIMIT);
    EncodedUint32(n / UINT32_LIMIT);
  }

  /** A name whose characters are 16-bit codes. */
  ghost predicate WideName(s: string) {
    forall i | 0 <= i < |s| :: s[i] as nat < 0x10000
  }

  lemma {:induction false} Utf16Injective(s: string, t: string)
    requires WideName(s) && WideName(t) && Utf16(s) == Utf16(t)
    ensures s == t
  {
    if s != [] && t != [] {
      var a, b := Utf16(s), Utf16(t);
      assert a[0] == b[0] && a[1] == b[1];
      assert Utf16(s[1..]) == a[2..] && Utf16(t[1..]) == b[2..];
      Utf16Injective(s[1..], t[1..]);
      assert s[0] as nat == s[0] as nat % 0x100 + 0x100 * (s[0] as nat / 0x100);
      assert t[0] as nat == t[0] as nat % 0x100 + 0x100 * (t[0] as nat / 0x100);
    }
  }

  /** A variable that can be measured. */
  ghost predicate Measurable(guid: Bytes, name: string, value: Bytes) {
    |guid| == GUID_SIZE && WideName(name) && |name| < UINT32_LIMIT * UINT32_LIMIT &&
        |value| < UINT32_LIMIT * UINT32_LIMIT
  }

  function VariableHeader(guid: Bytes, name: string, value: Bytes): (r: Bytes)
    ensures |r| == |guid| + 16
  {
    guid + Uint64Octets(|name|) + Uint64Octets(|value|)
  }

  lemma {:induction false} HeaderInjective(g1: Bytes, n1: string, v1: Bytes, g2: Bytes, n2: string, v2: Bytes)
    requires Measurable(g1, n1, v1) && Measurable(g2, n2, v2) &&
             VariableHeader(g1, n1, v1) == VariableHeader(g2, n2, v2)
    ensures g1 == g2 && |n1| == |n2| && |v1| == |v2|
  {
    var h1, h2 := VariableHeader(g1, n1, v1), VariableHeader(g2, n2, v2);
    assert g1 == h1[..16] && g2 == h2[..16];
    assert Uint64Octets(|n1|) == h1[16..24] && Uint64Octets(|n2|) == h2[16..24];
    assert Uint64Octets(|v1|) == h1[24..] && Uint64Octets(|v2|) == h2[24..];
    Uint64Injective(|n1|, |n2|);
    Uint64Injective(|v1|, |v2|);
  }

  lemma {:induction false} SplitAt(a: Bytes, b: Bytes, c: Bytes, d: Bytes)
    requires a + b == c + d && |a| == |c|
    ensures a == c && b == d
  {
    assert a == (a + b)[..|a|] && c == (c + d)[..|c|];
    assert b == (a + b)[|a|..] && d == (c + d)[|c|..];
  }

  /** What a variable event hashes: the GUID, two 64-bit lengths, the name in 16-bit units, and the contents. */
  ghost predicate IsVariableData(b: Bytes, guid: Bytes, name: string, value: Bytes) {
    && |b| == 32 + 2 * |name| + |value| && b[..16] == guid
    && Uint32(b[16..20]) + UINT32_LIMIT * Uint32(b[20..24]) == |name|
    && Uint32(b[24..28]) + UINT32_LIMIT * Uint32(b[28..32]) == |value|
    && (forall i | 0 <= i < |name| :: b[32 + 2 * i] as nat + 0x100 * b[33 + 2 * i] as nat == name[i] as nat)
    && b[32 + 2 * |name|..] == value
  }

  lemma {:induction false} Uint64At(n: nat)
    requires n < UINT32_LIMIT * UINT32_LIMIT
    ensures Uint32(Uint64Octets(n)[..4]) + UINT32_LIMIT * Uint32(Uint64Octets(n)[4..]) == n
  {
    assert Uint64Octets(n)[..4] == EncodeUint32(n % UINT32_LIMIT);
    assert Uint64Octets(n)[4..] == EncodeUint32(n / UINT32_LIMIT);
    EncodedUint32(n % UINT32_LIMIT);
    EncodedUint32(n / UINT32_LIMIT);
  }

  lemma {:induction false} Utf16At(s: string, i: nat)
    requires WideName(s) && i < |s|
    ensures Utf16(s)[2 * i] as nat + 0x100 * Utf16(s)[2 * i + 1] as nat == s[i] as nat
  {
    if i > 0 {
      assert Utf16(s)[2 * i] == Utf16(s[1..])[2 * (i - 1)] && Utf16(s)[2 * i + 1] == Utf16(s[1..])[2 * (i - 1) + 1];
      Utf16At(s[1..], i - 1);
    } else {
      assert s[0] as nat == s[0] as nat % 0x100 + 0x100 * (s[0] as nat / 0x100);
    }
  }

  lemma {:induction false} HeaderSlices(g: Bytes, a: Bytes, b: Bytes)
    requires |g| == 16 && |a| == 8 && |b| == 8
    ensures (g + a + b)[..16] == g
    ensures (g + a + b)[16..20] == a[..4] && (g + a + b)[20..24] == a[4..]
    ensures (g + a + b)[24..28] == b[..4] && (g + a + b)[28..32] == b[4..]
  {
  }

  lemma {:induction false} HeaderAt(guid: Bytes, name: string, value: Bytes)
    requires Measurable(guid, name, value)
    ensures
      var h := VariableHeader(guid, name, value);
      && h[..16] == guid && Uint32(h[16..20]) + UINT32_LIMIT * Uint32(h[20..24]) == |name|
      && Uint32(h[24..28]) + UINT32_LIMIT * Uint32(h[28..32]) == |value|
  {
    Uint64At(|name|);
    Uint64At(|value|);
    HeaderSlices(guid, Uint64Octets(|name|), Uint64Octets(|value|));
  }

  /** The data of a variable event, octet by octet. */
  lemma {:induction false} VariableLayout(alg: HashAlg, guid: Bytes, name: string, value: Bytes) returns (b: Bytes)
    requires Measurable(guid, name, value)
    ensures VariableDigest(alg, guid, name, value) == Hash(alg, Octets(b)) && IsVariableData(b, guid, name, value)
  {
    var h := VariableHeader(guid, name, value);
    b := h + Utf16(name) + value;
    HeaderAt(guid, name, value);
    assert b[..16] == h[..16] && b[16..20] == h[16..20] && b[20..24] == h[20..24];
    assert b[24..28] == h[24..28] && b[28..32] == h[28..32] && b[32 + 2 * |name|..] == value;
    forall i | 0 <= i < |name|
      ensures b[32 + 2 * i] as nat + 0x100 * b[33 + 2 * i] as nat == name[i] as nat
    {
      Utf16At(name, i);
      assert b[32 + 2 * i] == Utf16(name)[2 * i] && b[33 + 2 * i] == Utf16(name)[2 * i + 1];
    }
  }

  /** The digest of a variable event determines the variable. */
  lemma {:induction false} VariableDigestInjective(alg: HashAlg, g1: Bytes, n1: string, v1: Bytes, g2: Bytes,
                                                   n2: string, v2: Bytes)
    requires Measurable(g1, n1, v1) && Measurable(g2, n2, v2)
    requires VariableDigest(alg, g1, n1, v1) == VariableDigest(alg, g2, n2, v2)
    ensures g1 == g2 && n1 == n2 && v1 == v2
  {
    var h1, h2 := VariableHeader(g1, n1, v1), VariableHeader(g2, n2, v2);
    OctetsInjective(h1 + Utf16(n1) + v1, h2 + Utf16(n2) + v2);
    Regroup(h1, Utf16(n1), v1);
    Regroup(h2, Utf16(n2), v2);
    SplitAt(h1, Utf16(n1) + v1, h2, Utf16(n2) + v2);
    HeaderInjective(g1, n1, v1, g2, n2, v2);
    SplitAt(Utf16(n1), v1, Utf16(n2), v2);
    Utf16Injective(n1, n2);
  }

  ghost predicate MeasurableAuthority(a: Authority) {
    Measurable(a.guid, a.name, a.entry.owner + a.entry.data) && |a.entry.owner| == GUID_SIZE
  }

  /** What the measurement of an authority tells: its database and its certificate, and if firmware measured it also
      the owner that the database records. */
  lemma {:induction false} AuthorityDigestExactly(alg: HashAlg, a: Authority, b: Authority, source: Source)
    requires MeasurableAuthority(a) && MeasurableAuthority(b)
    ensures AuthorityDigest(alg, a, source) == AuthorityDigest(alg, b, source) <==>
            && a.guid == b.guid && a.name == b.name && a.entry.data == b.entry.data
            && (source == Firmware ==> a.entry.owner == b.entry.owner)
  {
    var va := if source == Firmware then a.entry.owner + a.entry.data else a.entry.data;
    var vb := if source == Firmware then b.entry.owner + b.entry.data else b.entry.data;
    if AuthorityDigest(alg, a, source) == AuthorityDigest(alg, b, source) {
      VariableDigestInjective(alg, a.guid, a.name, va, b.guid, b.name, vb);
      if source == Firmware {
        SplitAt(a.entry.owner, a.entry.data, b.entry.owner, b.entry.data);
      }
    }
  }

  function MeasuredBy(ctx: Context, source: Source): Path {
    if source == Firmware then ctx.firmwareEvents else ctx.shimEvents
  }

  function WithMeasured(ctx: Context, source: Source, d: Digest): Context {
    if source == Firmware then ctx.(firmwareEvents := ctx.firmwareEvents + [d])
        else ctx.(shimEvents := ctx.shimEvents + [d])
  }

  // -------------------------------------------------------------- one image

  datatype Verdict = NoShim | Unbootable | Boots(ctx: Context, measured: Path)

  /** An authority is measured once by each source. */
  function Measured(alg: HashAlg, ctx: Context, source: Source, a: Authority): Verdict {
    var d := AuthorityDigest(alg, a, source);
    if d in MeasuredBy(ctx, source) then Boots(ctx, []) else Boots(WithMeasured(ctx, source, d), [d])
  }

  function Verify(alg: HashAlg, ctx: Context, e: LoadEvent): Verdict
    requires e.image.signers.Some?
  {
    if e.source == Shim && ctx.shimDb.None? then NoShim
    else
      match FindAuthority(e.image.signers.value, Dbs(ctx, e.source))
      case None => Unbootable
      case Some(a) => Measured(alg, ctx, e.source, a)
  }

  predicate IsShim(image: Image) {
    image.decoded.Some? && exists i ::
        0 <= i < |image.decoded.value.sections| && image.decoded.value.sections[i].name == ".vendor_cert"
  }

  /** A new shim starts with its own certificate, and has not measured anything. */
  function Launched(ctx: Context, image: Image): Context {
    if !IsShim(image) || image.vendorCert.None? then ctx
    else
      var entries := if image.vendorCert.value.None? then []
          else [Entry(CERT_X509_GUID, NO_OWNER, image.vendorCert.value.value)];
      ctx.(shimDb := Some(Db(SHIM_GUID, "Shim", entries)), shimEvents := [])
  }

  /** Everything that is needed can be read from the image. */
  predicate Readable(image: Image) {
    && image.content.Some? && image.decoded.Some? && image.signers.Some? && image.signers.value != []
    && (IsShim(image) ==> image.vendorCert.Some?)
  }

  // ----------------------------------------------------------------- a route

  /** What booting along a route measures; None if an image on it cannot be authenticated. */
  function Walk(alg: HashAlg, ctx: Context, route: seq<LoadEvent>): Option<Path>
    decreases |route|
  {
    if route == [] then Some([])
    else if route[0].image.signers.None? then None
    else
      match Verify(alg, ctx, route[0])
      case NoShim => None
      case Unbootable => None
      case Boots(ctx', measured) =>
        match Walk(alg, Launched(ctx', route[0].image), route[1..])
        case None => None
        case Some(path) => Some(measured + path)
  }

  /** The measurements of all routes that boot. */
  function BootPaths(alg: HashAlg, ctx: Context, routes: seq<seq<LoadEvent>>): seq<Path> {
    if routes == [] then []
    else OptionalPath(Walk(alg, ctx, routes[0])) + BootPaths(alg, ctx, routes[1..])
  }

  /** The route boots up to an image that shim should load although there is no shim. */
  predicate LacksShim(alg: HashAlg, ctx: Context, route: seq<LoadEvent>)
    decreases |route|
  {
    && route != [] && route[0].image.signers.Some?
    && match Verify(alg, ctx, route[0])
       case NoShim => true
       case Unbootable => false
       case Boots(ctx', _) => LacksShim(alg, Launched(ctx', route[0].image), route[1..])
  }

  predicate SomeLacksShim(alg: HashAlg, ctx: Context, routes: seq<seq<LoadEvent>>) {
    routes != [] && (LacksShim(alg, ctx, routes[0]) || SomeLacksShim(alg, ctx, routes[1..]))
  }

  lemma {:induction false} BootPathsConcat(alg: HashAlg, ctx: Context, a: seq<seq<LoadEvent>>, b: seq<seq<LoadEvent>>)
    ensures BootPaths(alg, ctx, a + b) == BootPaths(alg, ctx, a) + BootPaths(alg, ctx, b)
    ensures SomeLacksShim(alg, ctx, a + b) <==> SomeLacksShim(alg, ctx, a) || SomeLacksShim(alg, ctx, b)
    decreases |a|
  {
    if a == [] {
      assert a + b == b;
    } else {
      assert (a + b)[1..] == a[1..] + b;
      BootPathsConcat(alg, ctx, a[1..], b);
      Regroup(OptionalPath(Walk(alg, ctx, a[0])), BootPaths(alg, ctx, a[1..]), BootPaths(alg, ctx, b));
    }
  }

  function OptionalPath(path: Option<Path>): seq<Path> {
    match path { case None => [] case Some(p) => [p] }
  }

  lemma {:induction false} WalkLed(alg: HashAlg, ctx: Context, e: LoadEvent, route: seq<LoadEvent>)
    requires e.image.signers.Some?
    ensures OptionalPath(Walk(alg, ctx, [e] + route)) ==
            match Verify(alg, ctx, e)
            case Boots(ctx', measured) => Prepend(measured, OptionalPath(Walk(alg, Launched(ctx', e.image), route)))
            case _ => []
    ensures LacksShim(alg, ctx, [e] + route) <==>
            match Verify(alg, ctx, e)
            case NoShim => true
            case Unbootable => false
            case Boots(ctx', _) => LacksShim(alg, Launched(ctx', e.image), route)
  {
    assert ([e] + route)[0] == e && ([e] + route)[1..] == route;
  }

  /** All routes that start with the same image. */
  lemma {:induction false} BootPathsLed(alg: HashAlg, ctx: Context, e: LoadEvent, routes: seq<seq<LoadEvent>>)
    requires e.image.signers.Some?
    ensures BootPaths(alg, ctx, Led(e, routes)) ==
            match Verify(alg, ctx, e)
            case Boots(ctx', measured) => Prepend(measured, BootPaths(alg, Launched(ctx', e.image), routes))
            case _ => []
    decreases |routes|
  {
    if routes != [] {
      assert Led(e, routes)[1..] == Led(e, routes[1..]) && Led(e, routes)[0] == [e] + routes[0];
      BootPathsLed(alg, ctx, e, routes[1..]);
      WalkLed(alg, ctx, e, routes[0]);
      match Verify(alg, ctx, e)
      case Boots(ctx', measured) =>
        var ctx'' := Launched(ctx', e.image);
        PrependConcat(measured, OptionalPath(Walk(alg, ctx'', routes[0])), BootPaths(alg, ctx'', routes[1..]));
      case _ =>
    }
  }

  lemma {:induction false} LacksShimLed(alg: HashAlg, ctx: Context, e: LoadEvent, routes: seq<seq<LoadEvent>>)
    requires e.image.signers.Some?
    ensures SomeLacksShim(alg, ctx, Led(e, routes)) <==>
            match Verify(alg, ctx, e)
            case NoShim => routes != []
            case Unbootable => false
            case Boots(ctx', _) => SomeLacksShim(alg, Launched(ctx', e.image), routes)
    decreases |routes|
  {
    if routes != [] {
      assert Led(e, routes)[1..] == Led(e, routes[1..]) && Led(e, routes)[0] == [e] + routes[0];
      LacksShimLed(alg, ctx, e, routes[1..]);
      WalkLed(alg, ctx, e, routes[0]);
    }
  }

  lemma {:induction false} PrependConcat(path: Path, a: seq<Path>, b: seq<Path>)
    ensures Prepend(path, a + b) == Prepend(path, a) + Prepend(path, b)
  {
  }

  /** Booting along one of the routes measures the path. */
  ghost predicate Walks(alg: HashAlg, ctx: Context, routes: seq<seq<LoadEvent>>, path: Path) {
    exists k :: 0 <= k < |routes| && Walk(alg, ctx, routes[k]) == Some(path)
  }

  lemma {:induction false} WalksFirst(alg: HashAlg, ctx: Context, routes: seq<seq<LoadEvent>>, path: Path)
    requires routes != []
    ensures Walks(alg, ctx, routes, path) <==>
            Walk(alg, ctx, routes[0]) == Some(path) || Walks(alg, ctx, routes[1..], path)
  {
    if k :| 0 <= k < |routes| && Walk(alg, ctx, routes[k]) == Some(path) {
      assert k > 0 ==> routes[1..][k - 1] == routes[k];
    }
    if k :| 0 <= k < |routes[1..]| && Walk(alg, ctx, routes[1..][k]) == Some(path) {
      assert routes[k + 1] == routes[1..][k];
    }
  }

  lemma {:induction false} BootPathsMembers(alg: HashAlg, ctx: Context, routes: seq<seq<LoadEvent>>, path: Path)
    ensures path in BootPaths(alg, ctx, routes) <==> Walks(alg, ctx, routes, path)
    decreases |routes|
  {
    if routes != [] {
      WalksFirst(alg, ctx, routes, path);
      BootPathsMembers(alg, ctx, routes[1..], path);
    }
  }

  // -------------------------------------------------------- measuring only once

  predicate LaunchesShim(image: Image) {
    IsShim(image) && image.vendorCert.Some?
  }

  /** The databases when an image on a route is verified. The events are those from before the route that still
      count: those of shim count until a new shim is launched. */
  function ContextAt(ctx: Context, route: seq<LoadEvent>, k: nat): Context
    requires k <= |route|
  {
    if k == 0 then ctx else Launched(ContextAt(ctx, route, k - 1), route[k - 1].image)
  }

  function AuthorityAt(ctx: Context, route: seq<LoadEvent>, k: nat): Option<Authority>
    requires k < |route|
  {
    var c, e := ContextAt(ctx, route, k), route[k];
    if e.image.signers.None? || (e.source == Shim && c.shimDb.None?) then None
    else FindAuthority(e.image.signers.value, Dbs(c, e.source))
  }

  ghost predicate Trusted(ctx: Context, route: seq<LoadEvent>, n: nat)
    requires n <= |route|
  {
    forall k | 0 <= k < n :: AuthorityAt(ctx, route, k).Some?
  }

  function DigestAt(alg: HashAlg, ctx: Context, route: seq<LoadEvent>, k: nat): Digest
    requires k < |route| && AuthorityAt(ctx, route, k).Some?
  {
    AuthorityDigest(alg, AuthorityAt(ctx, route, k).value, route[k].source)
  }

  /** No shim has been launched from image j up to image k. */
  ghost predicate SameShim(route: seq<LoadEvent>, j: nat, k: nat)
    requires k <= |route|
  {
    forall i | j <= i < k :: !LaunchesShim(route[i].image)
  }

  /** The digest was measured by a source for image j, and the source remembers it at image n. */
  ghost predicate RememberedFrom(alg: HashAlg, ctx: Context, route: seq<LoadEvent>, n: nat, source: Source, d: Digest,
                                 j: nat)
    requires n <= |route| && Trusted(ctx, route, n)
  {
    && j < n && route[j].source == source && (source == Shim ==> SameShim(route, j, n))
    && DigestAt(alg, ctx, route, j) == d
  }

  /** A source has measured a digest for one of the first n images, and remembers it. */
  ghost predicate Remembered(alg: HashAlg, ctx: Context, route: seq<LoadEvent>, n: nat, source: Source, d: Digest)
    requires n <= |route| && Trusted(ctx, route, n)
  {
    exists j: nat :: RememberedFrom(alg, ctx, route, n, source, d, j)
  }

  /** What a source has measured before the route, and remembers at image n: a new shim remembers nothing. */
  ghost function KnownBefore(ctx: Context, route: seq<LoadEvent>, n: nat, source: Source): Path
    requires n <= |route|
  {
    if source == Firmware then ctx.firmwareEvents else if SameShim(route, 0, n) then ctx.shimEvents else []
  }

  lemma {:induction false} EventsAt(ctx: Context, route: seq<LoadEvent>, n: nat, source: Source)
    requires n <= |route|
    ensures MeasuredBy(ContextAt(ctx, route, n), source) == KnownBefore(ctx, route, n, source)
  {
    if n > 0 {
      EventsAt(ctx, route, n - 1, source);
      assert SameShim(route, 0, n) <==> SameShim(route, 0, n - 1) && !LaunchesShim(route[n - 1].image);
    }
  }

  /** The authorities along a route, without those that their source has measured before. */
  ghost function OncePerSource(alg: HashAlg, ctx: Context, route: seq<LoadEvent>, n: nat): Path
    requires n <= |route| && Trusted(ctx, route, n)
  {
    if n == 0 then []
    else
      var d, source := DigestAt(alg, ctx, route, n - 1), route[n - 1].source;
      OncePerSource(alg, ctx, route, n - 1) +
      if d in KnownBefore(ctx, route, n - 1, source) || Remembered(alg, ctx, route, n - 1, source, d) then []
      else [d]
  }

  /** The context after the first n images of a route: the databases, and everything that the sources remember. */
  ghost predicate Knows(alg: HashAlg, ctx: Context, route: seq<LoadEvent>, n: nat, c: Context)
    requires n <= |route| && Trusted(ctx, route, n)
  {
    && c.uefiDb == ContextAt(ctx, route, n).uefiDb && c.shimDb == ContextAt(ctx, route, n).shimDb
    && forall source, d :: Remembers(alg, ctx, route, n, c, source, d)
  }

  ghost predicate Remembers(alg: HashAlg, ctx: Context, route: seq<LoadEvent>, n: nat, c: Context, source: Source,
                            d: Digest)
    requires n <= |route| && Trusted(ctx, route, n)
  {
    d in MeasuredBy(c, source) <==>
    d in MeasuredBy(ContextAt(ctx, route, n), source) || Remembered(alg, ctx, route, n, source, d)
  }

  /** A measurement for an image is remembered after one more image exactly if that does not launch a shim. */
  lemma {:induction false} RememberedLater(alg: HashAlg, ctx: Context, route: seq<LoadEvent>, n: nat, source: Source,
                                           d: Digest, j: nat)
    requires n < |route| && Trusted(ctx, route, n + 1) && j < n
    ensures RememberedFrom(alg, ctx, route, n + 1, source, d, j) <==>
            !(source == Shim && LaunchesShim(route[n].image)) && RememberedFrom(alg, ctx, route, n, source, d, j)
  {
  }

  lemma {:induction false} RememberedNew(alg: HashAlg, ctx: Context, route: seq<LoadEvent>, n: nat, source: Source,
                                         d: Digest)
    requires n < |route| && Trusted(ctx, route, n + 1)
    ensures RememberedFrom(alg, ctx, route, n + 1, source, d, n) <==>
            && !(source == Shim && LaunchesShim(route[n].image))
            && route[n].source == source && DigestAt(alg, ctx, route, n) == d
  {
  }

  lemma {:induction false} RememberedWas(alg: HashAlg, ctx: Context, route: seq<LoadEvent>, n: nat, next: nat,
                                         source: Source, d: Digest)
    requires n < |route| && next == n + 1 && Trusted(ctx, route, next) && Remembered(alg, ctx, route, next, source, d)
    ensures !(source == Shim && LaunchesShim(route[n].image))
    ensures Remembered(alg, ctx, route, n, source, d) ||
            (route[n].source == source && DigestAt(alg, ctx, route, n) == d)
  {
    var j: nat :| RememberedFrom(alg, ctx, route, next, source, d, j);
    if j < n {
      RememberedLater(alg, ctx, route, n, source, d, j);
    } else {
      RememberedNew(alg, ctx, route, n, source, d);
    }
  }

  lemma {:induction false} RememberedStays(alg: HashAlg, ctx: Context, route: seq<LoadEvent>, n: nat, next: nat,
                                           source: Source, d: Digest)
    requires n < |route| && next == n + 1 && Trusted(ctx, route, next) &&
             !(source == Shim && LaunchesShim(route[n].image))
    requires Remembered(alg, ctx, route, n, source, d)
    ensures Remembered(alg, ctx, route, next, source, d)
  {
    var j: nat :| RememberedFrom(alg, ctx, route, n, source, d, j);
    RememberedLater(alg, ctx, route, n, source, d, j);
    assert RememberedFrom(alg, ctx, route, next, source, d, j);
  }

  /** What a source remembers after one more image. */
  lemma {:induction false} RememberedNext(alg: HashAlg, ctx: Context, route: seq<LoadEvent>, n: nat, next: nat,
                                          source: Source, d: Digest)
    requires n < |route| && next == n + 1 && Trusted(ctx, route, next)
    ensures Remembered(alg, ctx, route, next, source, d) <==>
            && !(source == Shim && LaunchesShim(route[n].image))
            && (Remembered(alg, ctx, route, n, source, d) ||
                (route[n].source == source && DigestAt(alg, ctx, route, n) == d))
  {
    if Remembered(alg, ctx, route, next, source, d) {
      RememberedWas(alg, ctx, route, n, next, source, d);
    } else if !(source == Shim && LaunchesShim(route[n].image)) {
      RememberedNew(alg, ctx, route, n, source, d);
      if Remembered(alg, ctx, route, n, source, d) {
        RememberedStays(alg, ctx, route, n, next, source, d);
      }
    }
  }

  /** Verifying the next image, in terms of the context at that image. */
  lemma {:induction false} VerifyNext(alg: HashAlg, ctx: Context, route: seq<LoadEvent>, n: nat, c: Context)
    requires n < |route| && Trusted(ctx, route, n) && Knows(alg, ctx, route, n, c)
    ensures (route[n].image.signers.Some? && Verify(alg, c, route[n]).Boots?) <==> AuthorityAt(ctx, route, n).Some?
    ensures AuthorityAt(ctx, route, n).Some? ==>
              && Trusted(ctx, route, n + 1)
              && Verify(alg, c, route[n]) == Measured(alg, c, route[n].source, AuthorityAt(ctx, route, n).value)
              && OncePerSource(alg, ctx, route, n + 1) ==
                 OncePerSource(alg, ctx, route, n) + Verify(alg, c, route[n]).measured
  {
    assert Dbs(c, route[n].source) == Dbs(ContextAt(ctx, route, n), route[n].source);
    if AuthorityAt(ctx, route, n).Some? {
      assert Remembers(alg, ctx, route, n, c, route[n].source, DigestAt(alg, ctx, route, n));
      EventsAt(ctx, route, n, route[n].source);
    }
  }

  lemma {:induction false} MeasuredAdds(alg: HashAlg, c: Context, source: Source, a: Authority, image: Image, s: Source,
                                        d: Digest)
    ensures
      var c' := Launched(Measured(alg, c, source, a).ctx, image);
      d in MeasuredBy(c', s) <==>
      && !(s == Shim && LaunchesShim(image))
      && (d in MeasuredBy(c, s) || (s == source && d == AuthorityDigest(alg, a, source)))
  {
  }

  lemma {:induction false} KnowsNext(alg: HashAlg, ctx: Context, route: seq<LoadEvent>, n: nat, c: Context, next: nat,
                                     c': Context)
    requires n < |route| && next == n + 1 && Trusted(ctx, route, next) && Knows(alg, ctx, route, n, c)
    requires c' == Launched(Measured(alg, c, route[n].source, AuthorityAt(ctx, route, n).value).ctx, route[n].image)
    ensures Knows(alg, ctx, route, next, c')
  {
    var a := AuthorityAt(ctx, route, n).value;
    forall source, d
      ensures Remembers(alg, ctx, route, next, c', source, d)
    {
      assert Remembers(alg, ctx, route, n, c, source, d);
      MeasuredAdds(alg, c, route[n].source, a, route[n].image, source, d);
      RememberedNext(alg, ctx, route, n, next, source, d);
      LaunchedForgets(ContextAt(ctx, route, n), route[n].image, source, d);
    }
    MeasuredKeepsDbs(alg, c, route[n].source, a);
  }

  lemma {:induction false} LaunchedForgets(c: Context, image: Image, source: Source, d: Digest)
    ensures d in MeasuredBy(Launched(c, image), source) <==>
            !(source == Shim && LaunchesShim(image)) && d in MeasuredBy(c, source)
  {
  }

  /** The context after the first n images. */
  function StateAt(alg: HashAlg, ctx: Context, route: seq<LoadEvent>, n: nat): Context
    requires n <= |route|
  {
    if n == 0 then ctx
    else if AuthorityAt(ctx, route, n - 1).None? then StateAt(alg, ctx, route, n - 1)
    else
      Launched(Measured(alg, StateAt(alg, ctx, route, n - 1), route[n - 1].source,
                        AuthorityAt(ctx, route, n - 1).value).ctx,
               route[n - 1].image)
  }

  lemma {:induction false} StateKnows(alg: HashAlg, ctx: Context, route: seq<LoadEvent>, n: nat)
    requires n <= |route| && Trusted(ctx, route, n)
    ensures Knows(alg, ctx, route, n, StateAt(alg, ctx, route, n))
  {
    if n > 0 {
      var before := n - 1;
      StateKnows(alg, ctx, route, before);
      KnowsNext(alg, ctx, route, before, StateAt(alg, ctx, route, before), n, StateAt(alg, ctx, route, n));
    }
  }

  lemma {:induction false} WalkStep(alg: HashAlg, ctx: Context, route: seq<LoadEvent>, n: nat) returns (measured: Path)
    requires n < |route| && Trusted(ctx, route, n)
    ensures AuthorityAt(ctx, route, n).None? ==> Walk(alg, StateAt(alg, ctx, route, n), route[n..]) == None
    ensures AuthorityAt(ctx, route, n).Some? ==>
              && Trusted(ctx, route, n + 1)
              && OncePerSource(alg, ctx, route, n + 1) == OncePerSource(alg, ctx, route, n) + measured
              && Walk(alg, StateAt(alg, ctx, route, n), route[n..]) ==
                 match Walk(alg, StateAt(alg, ctx, route, n + 1), route[n + 1..])
                 case None => None
                 case Some(path) => Some(measured + path)
  {
    var c := StateAt(alg, ctx, route, n);
    StateKnows(alg, ctx, route, n);
    VerifyNext(alg, ctx, route, n, c);
    assert route[n..][0] == route[n] && route[n..][1..] == route[n + 1..];
    if AuthorityAt(ctx, route, n).Some? {
      measured := Verify(alg, c, route[n]).measured;
    } else {
      measured := [];
    }
  }

  lemma {:induction false} WalkFrom(alg: HashAlg, ctx: Context, route: seq<LoadEvent>, n: nat)
    requires n <= |route| && Trusted(ctx, route, n)
    ensures Walk(alg, StateAt(alg, ctx, route, n), route[n..]).Some? <==> Trusted(ctx, route, |route|)
    ensures Trusted(ctx, route, |route|) ==>
              OncePerSource(alg, ctx, route, |route|) ==
              OncePerSource(alg, ctx, route, n) + Walk(alg, StateAt(alg, ctx, route, n), route[n..]).value
    decreases |route| - n
  {
    if n < |route| {
      var measured := WalkStep(alg, ctx, route, n);
      if AuthorityAt(ctx, route, n).Some? {
        WalkFrom(alg, ctx, route, n + 1);
        if Trusted(ctx, route, |route|) {
          Regroup(OncePerSource(alg, ctx, route, n), measured,
                  Walk(alg, StateAt(alg, ctx, route, n + 1), route[n + 1..]).value);
        }
      }
    }
  }

  /** The measure-once rule along a whole route: it boots exactly if every image on it has an authority, and then it
      measures the authorities in order, leaving out those that the same source has measured already; a new shim
      forgets what the one before it has measured. */
  lemma {:induction false} MeasuredOnce(alg: HashAlg, ctx: Context, route: seq<LoadEvent>)
    ensures Walk(alg, ctx, route).Some? <==> Trusted(ctx, route, |route|)
    ensures Trusted(ctx, route, |route|) ==> Walk(alg, ctx, route) == Some(OncePerSource(alg, ctx, route, |route|))
  {
    assert route[0..] == route;
    WalkFrom(alg, ctx, route, 0);
    if Trusted(ctx, route, |route|) {
      assert [] + Walk(alg, ctx, route).value == Walk(alg, ctx, route).value;
    }
  }

  // ------------------------------------------------------ who is trusted on a route

  ghost predicate CertTrusts(cert: Bytes, signer: Signer) {
    cert == signer.raw || cert in signer.issuers
  }

  /** Entry n is the first certificate of a database that a signer is trusted by. */
  ghost predicate FirstTrusting(db: Option<Db>, signer: Signer, n: nat) {
    && db.Some? && n < |db.value.entries|
    && db.value.entries[n].sigType == CERT_X509_GUID && CertTrusts(db.value.entries[n].data, signer)
    && forall m | 0 <= m < n ::
         !(db.value.entries[m].sigType == CERT_X509_GUID && CertTrusts(db.value.entries[m].data, signer))
  }

  ghost predicate DbTrusts(db: Option<Db>, signer: Signer) {
    db.Some? && exists n :: 0 <= n < |db.value.entries| && db.value.entries[n].sigType == CERT_X509_GUID &&
                            CertTrusts(db.value.entries[n].data, signer)
  }

  /** The image is a shim with a section for its certificate. */
  ghost predicate StartsShim(image: Image) {
    && image.vendorCert.Some? && image.decoded.Some?
    && exists i :: 0 <= i < |image.decoded.value.sections| && image.decoded.value.sections[i].name == ".vendor_cert"
  }

  ghost predicate NoShimYet(route: seq<LoadEvent>, k: nat)
    requires k <= |route|
  {
    forall i | 0 <= i < k :: !StartsShim(route[i].image)
  }

  /** Image j is the shim that is active when image k is loaded. */
  ghost predicate ActiveShim(route: seq<LoadEvent>, k: nat, j: nat)
    requires k <= |route|
  {
    j < k && StartsShim(route[j].image) && forall i | j < i < k :: !StartsShim(route[i].image)
  }

  /** The certificate of the active shim trusts the signer. */
  ghost predicate VendorTrusts(route: seq<LoadEvent>, k: nat, signer: Signer)
    requires k <= |route|
  {
    exists j: nat :: ActiveShim(route, k, j) && route[j].image.vendorCert.value.Some? &&
                     CertTrusts(route[j].image.vendorCert.value.value, signer)
  }

  ghost predicate ShimTrusts(ctx: Context, route: seq<LoadEvent>, k: nat, signer: Signer)
    requires k <= |route|
  {
    VendorTrusts(route, k, signer) || (NoShimYet(route, k) && DbTrusts(ctx.shimDb, signer))
  }

  /** The signer of image k is trusted: by the authorized signatures, and for shim also by its own certificate. */
  ghost predicate SignerTrusted(ctx: Context, route: seq<LoadEvent>, k: nat, signer: Signer)
    requires k < |route|
  {
    DbTrusts(ctx.uefiDb, signer) || (route[k].source == Shim && ShimTrusts(ctx, route, k, signer))
  }

  ghost predicate ShimThere(ctx: Context, route: seq<LoadEvent>, k: nat)
    requires k <= |route|
  {
    ctx.shimDb.Some? || !NoShimYet(route, k)
  }

  /** Image k can be authenticated. */
  ghost predicate Authenticated(ctx: Context, route: seq<LoadEvent>, k: nat)
    requires k < |route|
  {
    && route[k].image.signers.Some? && (route[k].source == Shim ==> ShimThere(ctx, route, k))
    && exists i :: 0 <= i < |route[k].image.signers.value| &&
                   SignerTrusted(ctx, route, k, route[k].image.signers.value[i])
  }

  /** The database of a shim with this certificate. */
  ghost predicate HoldsVendorCert(db: Option<Db>, cert: Option<Bytes>) {
    && db.Some? && db.value.guid == SHIM_GUID && db.value.name == "Shim"
    && |db.value.entries| == (if cert.Some? then 1 else 0)
    && (cert.Some? ==> db.value.entries[0].sigType == CERT_X509_GUID && db.value.entries[0].data == cert.value)
  }

  lemma {:induction false} ContextOnRoute(ctx: Context, route: seq<LoadEvent>, k: nat) returns (j: nat)
    requires k <= |route|
    ensures ContextAt(ctx, route, k).uefiDb == ctx.uefiDb
    ensures NoShimYet(route, k) ==> ContextAt(ctx, route, k).shimDb == ctx.shimDb
    ensures !NoShimYet(route, k) ==>
              && ActiveShim(route, k, j)
              && HoldsVendorCert(ContextAt(ctx, route, k).shimDb, route[j].image.vendorCert.value)
  {
    j := 0;
    if k > 0 {
      j := ContextOnRoute(ctx, route, k - 1);
      if StartsShim(route[k - 1].image) {
        j := k - 1;
      } else {
        assert NoShimYet(route, k) <==> NoShimYet(route, k - 1);
      }
    }
  }

  lemma {:induction false} ActiveShimIsUnique(route: seq<LoadEvent>, k: nat, j: nat, j': nat)
    requires k <= |route| && ActiveShim(route, k, j) && ActiveShim(route, k, j')
    ensures j == j'
  {
  }

  lemma {:induction false} InDbExactly(db: Option<Db>, signer: Signer)
    ensures InDb(db, signer) <==> DbTrusts(db, signer)
  {
    if db.Some? {
      var k := FirstEntry(db.value.entries, signer);
    }
  }

  /** What the shim trusts at image k, in terms of its database. */
  lemma {:induction false} ShimDbTrusts(ctx: Context, route: seq<LoadEvent>, k: nat, signer: Signer)
    requires k <= |route|
    ensures DbTrusts(ContextAt(ctx, route, k).shimDb, signer) <==> ShimTrusts(ctx, route, k, signer)
    ensures ContextAt(ctx, route, k).shimDb.Some? <==> ShimThere(ctx, route, k)
  {
    var j := ContextOnRoute(ctx, route, k);
    if !NoShimYet(route, k) {
      forall j': nat | ActiveShim(route, k, j')
        ensures j' == j
      {
        ActiveShimIsUnique(route, k, j, j');
      }
    }
  }

  lemma {:induction false} DbsTrust(ctx: Context, route: seq<LoadEvent>, k: nat, signer: Signer)
    requires k < |route|
    ensures FindInDbs(Dbs(ContextAt(ctx, route, k), route[k].source), signer).Some? <==>
            SignerTrusted(ctx, route, k, signer)
  {
    var c := ContextAt(ctx, route, k);
    var j := ContextOnRoute(ctx, route, k);
    ShimDbTrusts(ctx, route, k, signer);
    InDbExactly(c.uefiDb, signer);
    InDbExactly(c.shimDb, signer);
    var n := FirstDb(Dbs(c, route[k].source), signer);
  }

  lemma {:induction false} AuthenticatedExactly(ctx: Context, route: seq<LoadEvent>, k: nat)
    requires k < |route|
    ensures AuthorityAt(ctx, route, k).Some? <==> Authenticated(ctx, route, k)
  {
    var e, c := route[k], ContextAt(ctx, route, k);
    if e.image.signers.Some? {
      var signers := e.image.signers.value;
      ShimDbTrusts(ctx, route, k, Signer([], {}));
      forall i | 0 <= i < |signers|
        ensures FindInDbs(Dbs(c, e.source), signers[i]).Some? <==> SignerTrusted(ctx, route, k, signers[i])
      {
        DbsTrust(ctx, route, k, signers[i]);
      }
      var i := FirstSigner(signers, Dbs(c, e.source));
    }
  }

  /** A route boots exactly if every image on it can be authenticated. */
  lemma {:induction false} RouteBootsExactly(alg: HashAlg, ctx: Context, route: seq<LoadEvent>)
    ensures Walk(alg, ctx, route).Some? <==> forall k | 0 <= k < |route| :: Authenticated(ctx, route, k)
  {
    MeasuredOnce(alg, ctx, route);
    forall k | 0 <= k < |route|
      ensures AuthorityAt(ctx, route, k).Some? <==> Authenticated(ctx, route, k)
    {
      AuthenticatedExactly(ctx, route, k);
    }
  }

  /** The authority that is measured for an image: for the first signer that is trusted, the first certificate of the
      authorized signatures that it is trusted by, or else the certificate of the active shim. */
  lemma {:induction false} AuthorityOnRoute(alg: HashAlg, ctx: Context, route: seq<LoadEvent>, k: nat)
      returns (i: nat, n: nat)
    requires k < |route| && AuthorityAt(ctx, route, k).Some?
    ensures
      var signers := route[k].image.signers.value;
      && route[k].image.signers.Some? && i < |signers| && SignerTrusted(ctx, route, k, signers[i])
      && (forall m | 0 <= m < i :: !SignerTrusted(ctx, route, k, signers[m]))
      && (DbTrusts(ctx.uefiDb, signers[i]) ==>
            && FirstTrusting(ctx.uefiDb, signers[i], n)
            && var db, entry := ctx.uefiDb.value, ctx.uefiDb.value.entries[n];
               DigestAt(alg, ctx, route, k) ==
               VariableDigest(alg, db.guid, db.name,
                              if route[k].source == Firmware then entry.owner + entry.data else entry.data))
      && (!DbTrusts(ctx.uefiDb, signers[i]) ==> forall j: nat | ActiveShim(route, k, j) ::
            && route[j].image.vendorCert.value.Some?
            && DigestAt(alg, ctx, route, k) ==
               VariableDigest(alg, SHIM_GUID, "Shim", route[j].image.vendorCert.value.value))
  {
    var e, c := route[k], ContextAt(ctx, route, k);
    var signers, dbs := e.image.signers.value, Dbs(c, e.source);
    var j0 := ContextOnRoute(ctx, route, k);
    i := FirstSigner(signers, dbs);
    forall m | 0 <= m <= i
      ensures FindInDbs(dbs, signers[m]).Some? <==> SignerTrusted(ctx, route, k, signers[m])
    {
      DbsTrust(ctx, route, k, signers[m]);
    }
    var d := FirstDb(dbs, signers[i]);
    InDbExactly(ctx.uefiDb, signers[i]);
    n := FirstEntry(dbs[d].value.entries, signers[i]);
    if !DbTrusts(ctx.uefiDb, signers[i]) {
      forall j: nat | ActiveShim(route, k, j)
        ensures j == j0
      {
        ActiveShimIsUnique(route, k, j, j0);
      }
    }
  }

  // ------------------------------------------------------------- a missing shim

  /** Image k should be loaded by shim although there is none. */
  ghost predicate ShimMissingAt(ctx: Context, route: seq<LoadEvent>, k: nat)
    requires k < |route|
  {
    route[k].source == Shim && route[k].image.signers.Some? && !ShimThere(ctx, route, k)
  }

  lemma {:induction false} LacksShimStep(alg: HashAlg, ctx: Context, route: seq<LoadEvent>, n: nat)
    requires n < |route| && Trusted(ctx, route, n)
    ensures LacksShim(alg, StateAt(alg, ctx, route, n), route[n..]) <==>
            || ShimMissingAt(ctx, route, n)
            || (AuthorityAt(ctx, route, n).Some? && LacksShim(alg, StateAt(alg, ctx, route, n + 1), route[n + 1..]))
  {
    StateKnows(alg, ctx, route, n);
    VerifyNext(alg, ctx, route, n, StateAt(alg, ctx, route, n));
    ShimDbTrusts(ctx, route, n, Signer([], {}));
    assert route[n..][0] == route[n] && route[n..][1..] == route[n + 1..];
  }

  /** Everything before image k has an authority, and shim is missing at image k. */
  ghost predicate StopsAt(ctx: Context, route: seq<LoadEvent>, k: nat) {
    k < |route| && Trusted(ctx, route, k) && ShimMissingAt(ctx, route, k)
  }

  ghost predicate StopsFrom(ctx: Context, route: seq<LoadEvent>, n: nat) {
    exists k: nat :: n <= k && StopsAt(ctx, route, k)
  }

  lemma {:induction false} StopsNext(ctx: Context, route: seq<LoadEvent>, n: nat, next: nat)
    requires next == n + 1 && n < |route| && Trusted(ctx, route, n)
    ensures StopsFrom(ctx, route, n) <==>
            ShimMissingAt(ctx, route, n) || (AuthorityAt(ctx, route, n).Some? && StopsFrom(ctx, route, next))
  {
    if k: nat :| n <= k && StopsAt(ctx, route, k) {
      if k > n {
        assert AuthorityAt(ctx, route, n).Some?;
        assert next <= k;
      }
    }
    if ShimMissingAt(ctx, route, n) {
      assert StopsAt(ctx, route, n);
    }
    if k: nat :| next <= k && StopsAt(ctx, route, k) {
      assert n <= k;
    }
  }

  lemma {:induction false} LacksShimFrom(alg: HashAlg, ctx: Context, route: seq<LoadEvent>, n: nat)
    requires n <= |route| && Trusted(ctx, route, n)
    ensures LacksShim(alg, StateAt(alg, ctx, route, n), route[n..]) <==> StopsFrom(ctx, route, n)
    decreases |route| - n
  {
    if n < |route| {
      var next := n + 1;
      LacksShimStep(alg, ctx, route, n);
      StopsNext(ctx, route, n, next);
      if AuthorityAt(ctx, route, n).Some? {
        assert Trusted(ctx, route, next);
        LacksShimFrom(alg, ctx, route, next);
      }
    }
  }

  /** All images up to one can be authenticated, and that one should be loaded by a shim that is not there. */
  ghost predicate NeedsMissingShim(ctx: Context, route: seq<LoadEvent>, k: nat) {
    k < |route| && ShimMissingAt(ctx, route, k) && forall i | 0 <= i < k :: Authenticated(ctx, route, i)
  }

  /** The generator fails for a route exactly if it needs a missing shim. */
  lemma {:induction false} LacksShimExactly(alg: HashAlg, ctx: Context, route: seq<LoadEvent>)
    ensures LacksShim(alg, ctx, route) <==> exists k: nat :: NeedsMissingShim(ctx, route, k)
  {
    assert route[0..] == route;
    LacksShimFrom(alg, ctx, route, 0);
    forall k: nat
      ensures StopsAt(ctx, route, k) <==> NeedsMissingShim(ctx, route, k)
    {
      forall i | 0 <= i < k && i < |route|
        ensures AuthorityAt(ctx, route, i).Some? <==> Authenticated(ctx, route, i)
      {
        AuthenticatedExactly(ctx, route, i);
      }
    }
  }

  // ------------------------------------------------- databases that only grow

  ghost predicate DbGrows(a: Option<Db>, b: Option<Db>) {
    (a.None? && b.None?) || (a.Some? && b.Some? && a.value.entries <= b.value.entries)
  }

  /** The authorized signature database of the second context extends that of the first. */
  ghost predicate Grows(a: Context, b: Context) {
    DbGrows(a.uefiDb, b.uefiDb) && a.shimDb == b.shimDb
  }

  lemma {:induction false} FindInMoreEntries(a: seq<Entry>, b: seq<Entry>, signer: Signer)
    requires a <= b && FindInEntries(a, signer).Some?
    ensures FindInEntries(b, signer).Some?
  {
    assert b[0] == a[0] && a[1..] <= b[1..];
    if !(a[0].sigType == CERT_X509_GUID && Trusts(a[0].data, signer)) {
      FindInMoreEntries(a[1..], b[1..], signer);
    }
  }

  lemma {:induction false} FindInMoreDbs(a: seq<Option<Db>>, b: seq<Option<Db>>, signer: Signer)
    requires |a| == |b| && forall i | 0 <= i < |a| :: DbGrows(a[i], b[i])
    requires FindInDbs(a, signer).Some?
    ensures FindInDbs(b, signer).Some?
  {
    assert DbGrows(a[0], b[0]);
    if a[0].Some? && FindInEntries(a[0].value.entries, signer).Some? {
      FindInMoreEntries(a[0].value.entries, b[0].value.entries, signer);
    } else {
      FindInMoreDbs(a[1..], b[1..], signer);
    }
  }

  lemma {:induction false} FindAuthorityInMore(signers: seq<Signer>, a: seq<Option<Db>>, b: seq<Option<Db>>)
    requires |a| == |b| && forall i | 0 <= i < |a| :: DbGrows(a[i], b[i])
    requires FindAuthority(signers, a).Some?
    ensures FindAuthority(signers, b).Some?
  {
    if FindInDbs(a, signers[0]).Some? {
      FindInMoreDbs(a, b, signers[0]);
    } else {
      FindAuthorityInMore(signers[1..], a, b);
    }
  }

  lemma {:induction false} MeasuredKeepsDbs(alg: HashAlg, ctx: Context, source: Source, a: Authority)
    ensures Measured(alg, ctx, source, a).Boots?
    ensures
      var ctx' := Measured(alg, ctx, source, a).ctx;
      ctx'.uefiDb == ctx.uefiDb && ctx'.shimDb == ctx.shimDb
  {
  }

  /** An image boots if it has an authority; the databases stay as they are. */
  lemma {:induction false} BootsExactly(alg: HashAlg, ctx: Context, e: LoadEvent)
    requires e.image.signers.Some?
    ensures Verify(alg, ctx, e).Boots? <==>
            !(e.source == Shim && ctx.shimDb.None?) && FindAuthority(e.image.signers.value, Dbs(ctx, e.source)).Some?
    ensures Verify(alg, ctx, e).Boots? ==>
              var ctx' := Verify(alg, ctx, e).ctx;
              ctx'.uefiDb == ctx.uefiDb && ctx'.shimDb == ctx.shimDb
  {
    var found := FindAuthority(e.image.signers.value, Dbs(ctx, e.source));
    if found.Some? {
      MeasuredKeepsDbs(alg, ctx, e.source, found.value);
    }
  }

  lemma {:induction false} LaunchedGrows(a: Context, b: Context, image: Image)
    requires Grows(a, b)
    ensures Grows(Launched(a, image), Launched(b, image))
  {
  }

  lemma {:induction false} VerifyInMore(alg: HashAlg, a: Context, b: Context, e: LoadEvent)
    requires Grows(a, b) && e.image.signers.Some? && Verify(alg, a, e).Boots?
    ensures Verify(alg, b, e).Boots? && Grows(Verify(alg, a, e).ctx, Verify(alg, b, e).ctx)
  {
    BootsExactly(alg, a, e);
    FindAuthorityInMore(e.image.signers.value, Dbs(a, e.source), Dbs(b, e.source));
    BootsExactly(alg, b, e);
  }

  /** A route that boots still boots when the database has grown, although another authority may be measured. */
  lemma {:induction false} WalkInMore(alg: HashAlg, a: Context, b: Context, route: seq<LoadEvent>)
    requires Grows(a, b) && Walk(alg, a, route).Some?
    ensures Walk(alg, b, route).Some?
    decreases |route|
  {
    if route != [] {
      VerifyInMore(alg, a, b, route[0]);
      LaunchedGrows(Verify(alg, a, route[0]).ctx, Verify(alg, b, route[0]).ctx, route[0].image);
      WalkInMore(alg, Launched(Verify(alg, a, route[0]).ctx, route[0].image),
                 Launched(Verify(alg, b, route[0]).ctx, route[0].image), route[1..]);
    }
  }

  /** Bootability is monotone in the signature database. */
  lemma {:induction false} BootPathsInMore(alg: HashAlg, a: Context, b: Context, routes: seq<seq<LoadEvent>>)
    requires Grows(a, b) && BootPaths(alg, a, routes) != []
    ensures BootPaths(alg, b, routes) != []
    decreases |routes|
  {
    if Walk(alg, a, routes[0]).Some? {
      WalkInMore(alg, a, b, routes[0]);
    } else {
      BootPathsInMore(alg, a, b, routes[1..]);
    }
  }
}
