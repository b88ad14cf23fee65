/** EFI signature databases: their encoding, and appending a signed update.

    A database is a list of signature lists. An update is a timestamp, a certificate, and more signature lists; the
    signatures that the database holds already are left out when it is appended.
  */
module SignatureDb {
  import opened Digests
  import opened Authenticode

  const GUID_SIZE := 16
  const LIST_HEADER_SIZE := 28

  // ------------------------------------------------------------------ reading

  datatype SignatureList = SignatureList(sigType: Bytes, header: Bytes, size: nat, sigs: seq<Bytes>)

  datatype Read<+T> = End | Malformed | Next(value: T, rest: Bytes)

  /** The first `n` signatures; there are none if `n` is not positive. */
  function TakeSigs(s: Bytes, size: nat, n: int): (r: Read<seq<Bytes>>)
    ensures !r.End?
    decreases if n > 0 then n else 0
  {
    if n <= 0 then Next([], s)
    else if |s| < size then Malformed
    else
      match TakeSigs(s[size..], size, n - 1)
      case Next(sigs, rest) => Next([s[..size]] + sigs, rest)
      case _ => Malformed
  }

  /** The next signature list; only the very end of the input is a proper end. */
  function NextList(s: Bytes): (r: Read<SignatureList>)
    ensures r.Next? ==> |r.rest| < |s|
  {
    if s == [] then End
    else if |s| < LIST_HEADER_SIZE then Malformed
    else
      var listSize := Uint32(s[16..20]);
      var headerSize := Uint32(s[20..24]);
      var size := Uint32(s[24..28]);
      if size < GUID_SIZE || |s| < LIST_HEADER_SIZE + headerSize then Malformed
      else
        var dataSize := listSize - LIST_HEADER_SIZE - headerSize;
        if dataSize % size != 0 then Malformed
        else
          var body := s[LIST_HEADER_SIZE + headerSize..];
          TakeSigsShrinks(body, size, dataSize / size);
          match TakeSigs(body, size, dataSize / size)
          case Next(sigs, rest) =>
            Next(SignatureList(s[..GUID_SIZE], s[LIST_HEADER_SIZE..LIST_HEADER_SIZE + headerSize], size, sigs), rest)
          case _ => Malformed
  }

  lemma {:induction false} TakeSigsShrinks(s: Bytes, size: nat, n: int)
    ensures TakeSigs(s, size, n).Next? ==> |TakeSigs(s, size, n).rest| <= |s|
    decreases if n > 0 then n else 0
  {
    if n > 0 && |s| >= size {
      TakeSigsShrinks(s[size..], size, n - 1);
    }
  }

  function DecodeLists(s: Bytes): Option<seq<SignatureList>>
    decreases |s|
  {
    match NextList(s)
    case End => Some([])
    case Malformed => None
    case Next(list, rest) =>
      match DecodeLists(rest)
      case None => None
      case Some(lists) => Some([list] + lists)
  }

  datatype Entry = Entry(sigType: Bytes, owner: Bytes, data: Bytes)

  /** Every signature is at least as long as its owner field. */
  function Owner(sig: Bytes): Bytes {
    if |sig| < GUID_SIZE then sig else sig[..GUID_SIZE]
  }

  function Data(sig: Bytes): Bytes {
    if |sig| < GUID_SIZE then [] else sig[GUID_SIZE..]
  }

  function EntriesOf(sigType: Bytes, sigs: seq<Bytes>): (r: seq<Entry>)
    ensures |r| == |sigs|
    ensures forall i | 0 <= i < |r| :: r[i] == Entry(sigType, Owner(sigs[i]), Data(sigs[i]))
  {
    seq(|sigs|, i requires 0 <= i < |sigs| => Entry(sigType, Owner(sigs[i]), Data(sigs[i])))
  }

  function Entries(lists: seq<SignatureList>): seq<Entry> {
    if lists == [] then [] else EntriesOf(lists[0].sigType, lists[0].sigs) + Entries(lists[1..])
  }

  // --- what was read is well-formed

  ghost predicate Uniform(sigs: seq<Bytes>, size: nat) {
    forall i | 0 <= i < |sigs| :: |sigs[i]| == size
  }

  function TotalLength(sigs: seq<Bytes>): nat {
    if sigs == [] then 0 else |sigs[0]| + TotalLength(sigs[1..])
  }

  function Joined(sigs: seq<Bytes>): (r: Bytes)
    ensures |r| == TotalLength(sigs)
  {
    if sigs == [] then [] else sigs[0] + Joined(sigs[1..])
  }

  /** A list as it can be encoded. */
  ghost predicate Encodable(list: SignatureList) {
    && |list.sigType| == GUID_SIZE && GUID_SIZE <= list.size < UINT32_LIMIT && Uniform(list.sigs, list.size)
    && (list.sigs != [] ==> LIST_HEADER_SIZE + |list.header| + TotalLength(list.sigs) < UINT32_LIMIT)
    && |list.header| < UINT32_LIMIT
  }

  lemma {:induction false} TakeSigsUniform(s: Bytes, size: nat, n: int)
    requires TakeSigs(s, size, n).Next?
    ensures Uniform(TakeSigs(s, size, n).value, size) && |TakeSigs(s, size, n).value| == if n > 0 then n else 0
    ensures TotalLength(TakeSigs(s, size, n).value) == (if n > 0 then n else 0) * size
    decreases if n > 0 then n else 0
  {
    if n > 0 {
      TakeSigsUniform(s[size..], size, n - 1);
      assert n * size == size + (n - 1) * size;
    }
  }

  lemma {:induction false} QuotientTimesDivisor(x: int, d: nat)
    requires d > 0 && x % d == 0
    ensures x / d * d == x
  {
  }

  lemma {:induction false} ReadIsEncodable(s: Bytes)
    requires NextList(s).Next?
    ensures Encodable(NextList(s).value)
  {
    var listSize := Uint32(s[16..20]);
    var headerSize := Uint32(s[20..24]);
    var size := Uint32(s[24..28]);
    var dataSize := listSize - LIST_HEADER_SIZE - headerSize;
    QuotientTimesDivisor(dataSize, size);
    TakeSigsUniform(s[LIST_HEADER_SIZE + headerSize..], size, dataSize / size);
  }

  // ------------------------------------------------------- appending an update

  datatype Quirk = Strict | IgnoreOwner

  function EncodeList(list: SignatureList): Bytes {
    list.sigType + EncodeUint32(LIST_HEADER_SIZE + |list.header| + TotalLength(list.sigs)) +
    EncodeUint32(|list.header|) + EncodeUint32(list.size) + list.header + Joined(list.sigs)
  }

  predicate SameSig(a: Bytes, b: Bytes, quirk: Quirk) {
    if quirk == Strict then a == b else Data(a) == Data(b)
  }

  predicate Holds(sigs: seq<Bytes>, sig: Bytes, quirk: Quirk) {
    exists i :: 0 <= i < |sigs| && SameSig(sigs[i], sig, quirk)
  }

  /** Whether the database holds a signature. The search stops at the first that does, and only then or at the end
      avoids an error in the rest of the database. */
  function Lookup(db: Bytes, sigType: Bytes, sig: Bytes, quirk: Quirk): Option<bool>
    decreases |db|
  {
    match NextList(db)
    case End => Some(false)
    case Malformed => None
    case Next(list, rest) =>
      if list.sigType == sigType && Holds(list.sigs, sig, quirk) then Some(true) else Lookup(rest, sigType, sig, quirk)
  }

  function NewSigs(db: Bytes, sigType: Bytes, sigs: seq<Bytes>, quirk: Quirk): Option<seq<Bytes>>
    decreases |sigs|
  {
    if sigs == [] then Some([])
    else
      match Lookup(db, sigType, sigs[0], quirk)
      case None => None
      case Some(held) =>
        match NewSigs(db, sigType, sigs[1..], quirk)
        case None => None
        case Some(more) => Some(if held then more else [sigs[0]] + more)
  }

  function EncodeNew(list: SignatureList, sigs: seq<Bytes>): Bytes {
    if sigs == [] then [] else EncodeList(list.(sigs := sigs))
  }

  /** The lists of an update, without the signatures that the database holds. */
  function FilterUpdate(db: Bytes, update: Bytes, quirk: Quirk): Option<Bytes>
    decreases |update|
  {
    match NextList(update)
    case End => Some([])
    case Malformed => None
    case Next(list, rest) =>
      match NewSigs(db, list.sigType, list.sigs, quirk)
      case None => None
      case Some(sigs) =>
        match FilterUpdate(db, rest, quirk)
        case None => None
        case Some(more) => Some(EncodeNew(list, sigs) + more)
  }

  const CERT_TYPE_PKCS7: Bytes :=
    [0x9d, 0xd2, 0xaf, 0x4a, 0xdf, 0x68, 0xee, 0x49, 0x8a, 0xa9, 0x34, 0x7d, 0x37, 0x56, 0x65, 0xa7]

  /** Skips the authentication header of an update: a timestamp and a WIN_CERTIFICATE_UEFI_GUID of type PKCS7. */
  function AfterAuthInfo(update: Bytes): Option<Bytes> {
    if |update| < 40 then None
    else
      var length := Uint32(update[16..20]);
      if Uint16(update[20..22]) != 0x200 || Uint16(update[22..24]) != 0x0ef1 then None
      else if length < 24 || |update| < 16 + length then None
      else if update[24..40] != CERT_TYPE_PKCS7 then None
      else Some(update[16 + length..])
  }

  function DbUpdate(db: Bytes, update: Bytes, quirk: Quirk): Option<Bytes> {
    match AfterAuthInfo(update)
    case None => None
    case Some(lists) =>
      match FilterUpdate(db, lists, quirk)
      case None => None
      case Some(more) => Some(db + more)
  }

  // ------------------------------------------------------------ what it means

  predicate SameEntry(a: Entry, b: Entry, quirk: Quirk) {
    a.sigType == b.sigType && a.data == b.data && (quirk == Strict ==> a.owner == b.owner)
  }

  predicate HoldsEntry(entries: seq<Entry>, e: Entry, quirk: Quirk) {
    exists i :: 0 <= i < |entries| && SameEntry(entries[i], e, quirk)
  }

  /** The entries that the database lacks. */
  function Lacking(entries: seq<Entry>, more: seq<Entry>, quirk: Quirk): seq<Entry> {
    if more == [] then []
    else (if HoldsEntry(entries, more[0], quirk) then [] else [more[0]]) + Lacking(entries, more[1..], quirk)
  }

  lemma {:induction false} SigIsParts(sig: Bytes)
    ensures Owner(sig) + Data(sig) == sig
  {
  }

  lemma {:induction false} SameSigSameEntry(sigType: Bytes, a: Bytes, b: Bytes, quirk: Quirk)
    requires |a| >= GUID_SIZE && |b| >= GUID_SIZE
    ensures SameSig(a, b, quirk) <==>
            SameEntry(Entry(sigType, Owner(a), Data(a)), Entry(sigType, Owner(b), Data(b)), quirk)
  {
    SigIsParts(a);
    SigIsParts(b);
  }

  lemma {:induction false} HoldsInList(list: SignatureList, sigType: Bytes, sig: Bytes, quirk: Quirk)
    requires Encodable(list) && |sig| >= GUID_SIZE
    ensures HoldsEntry(EntriesOf(list.sigType, list.sigs), Entry(sigType, Owner(sig), Data(sig)), quirk) <==>
            list.sigType == sigType && Holds(list.sigs, sig, quirk)
  {
    var entries := EntriesOf(list.sigType, list.sigs);
    var e := Entry(sigType, Owner(sig), Data(sig));
    forall i | 0 <= i < |list.sigs|
      ensures SameEntry(entries[i], e, quirk) <==> list.sigType == sigType && SameSig(list.sigs[i], sig, quirk)
    {
      SameSigSameEntry(sigType, list.sigs[i], sig, quirk);
    }
  }

  lemma {:induction false} HoldsConcat(a: seq<Entry>, b: seq<Entry>, e: Entry, quirk: Quirk)
    ensures HoldsEntry(a + b, e, quirk) <==> HoldsEntry(a, e, quirk) || HoldsEntry(b, e, quirk)
  {
    if i :| 0 <= i < |a| && SameEntry(a[i], e, quirk) {
      assert SameEntry((a + b)[i], e, quirk);
    }
    if i :| 0 <= i < |b| && SameEntry(b[i], e, quirk) {
      assert SameEntry((a + b)[|a| + i], e, quirk);
    }
  }

  /** In a database that decodes, the search is right. */
  lemma {:induction false} LookupIsRight(db: Bytes, sigType: Bytes, sig: Bytes, quirk: Quirk)
    requires DecodeLists(db).Some? && |sig| >= GUID_SIZE
    ensures Lookup(db, sigType, sig, quirk) ==
            Some(HoldsEntry(Entries(DecodeLists(db).value), Entry(sigType, Owner(sig), Data(sig)), quirk))
    decreases |db|
  {
    var e := Entry(sigType, Owner(sig), Data(sig));
    if NextList(db).Next? {
      var list, rest := NextList(db).value, NextList(db).rest;
      ReadIsEncodable(db);
      HoldsInList(list, sigType, sig, quirk);
      HoldsConcat(EntriesOf(list.sigType, list.sigs), Entries(DecodeLists(rest).value), e, quirk);
      LookupIsRight(rest, sigType, sig, quirk);
      assert DecodeLists(db).value[1..] == DecodeLists(rest).value;
    }
  }

  // --- appending to an encoding

  lemma {:induction false} TakeSigsAppend(s: Bytes, t: Bytes, size: nat, n: int)
    requires TakeSigs(s, size, n).Next?
    ensures TakeSigs(s + t, size, n) == Next(TakeSigs(s, size, n).value, TakeSigs(s, size, n).rest + t)
    decreases if n > 0 then n else 0
  {
    if n > 0 {
      assert (s + t)[size..] == s[size..] + t && (s + t)[..size] == s[..size];
      TakeSigsAppend(s[size..], t, size, n - 1);
    }
  }

  lemma {:induction false} NextListAppend(s: Bytes, t: Bytes)
    requires NextList(s).Next?
    ensures NextList(s + t) == Next(NextList(s).value, NextList(s).rest + t)
  {
    assert (s + t)[16..20] == s[16..20] && (s + t)[20..24] == s[20..24] && (s + t)[24..28] == s[24..28];
    var listSize := Uint32(s[16..20]);
    var headerSize := Uint32(s[20..24]);
    var size := Uint32(s[24..28]);
    var from := LIST_HEADER_SIZE + headerSize;
    assert (s + t)[from..] == s[from..] + t && (s + t)[LIST_HEADER_SIZE..from] == s[LIST_HEADER_SIZE..from];
    assert (s + t)[..GUID_SIZE] == s[..GUID_SIZE];
    TakeSigsAppend(s[from..], t, size, (listSize - from) / size);
  }

  lemma {:induction false} DecodeStep(s: Bytes, list: SignatureList, rest: Bytes)
    requires NextList(s) == Next(list, rest)
    ensures |rest| < |s|
    ensures DecodeLists(s) == match DecodeLists(rest) { case None => None case Some(lists) => Some([list] + lists) }
  {
  }

  lemma {:induction false} DecodeAppend(s: Bytes, t: Bytes)
    requires DecodeLists(s).Some?
    ensures DecodeLists(s + t) ==
            match DecodeLists(t) { case None => None case Some(more) => Some(DecodeLists(s).value + more) }
    decreases |s|
  {
    if s == [] {
      assert s + t == t;
      assert DecodeLists(t).Some? ==> [] + DecodeLists(t).value == DecodeLists(t).value;
    } else {
      var list, rest := NextList(s).value, NextList(s).rest;
      NextListAppend(s, t);
      DecodeStep(s, list, rest);
      DecodeStep(s + t, list, rest + t);
      DecodeAppend(rest, t);
      if DecodeLists(t).Some? {
        Regroup([list], DecodeLists(rest).value, DecodeLists(t).value);
      }
    }
  }

  lemma {:induction false} EntriesConcat(a: seq<SignatureList>, b: seq<SignatureList>)
    ensures Entries(a + b) == Entries(a) + Entries(b)
    decreases |a|
  {
    if a == [] {
      assert a + b == b;
    } else {
      assert (a + b)[1..] == a[1..] + b;
      EntriesConcat(a[1..], b);
    }
  }

  // --- decoding an encoded list

  lemma {:induction false} TakeSigsJoined(sigs: seq<Bytes>, size: nat)
    requires Uniform(sigs, size)
    ensures TakeSigs(Joined(sigs), size, |sigs|) == Next(sigs, [])
    decreases |sigs|
  {
    if sigs != [] {
      assert |sigs[0]| == size;
      assert Joined(sigs)[size..] == Joined(sigs[1..]) && Joined(sigs)[..size] == sigs[0];
      assert Uniform(sigs[1..], size);
      TakeSigsJoined(sigs[1..], size);
      assert [sigs[0]] + sigs[1..] == sigs;
    }
  }

  lemma {:induction false} OneMoreDivides(x: nat, d: nat)
    requires d > 0
    ensures (x + d) % d == x % d && (x + d) / d == x / d + 1
  {
    QuotientIsUnique(x + d, d, x / d + 1, x % d);
  }

  lemma {:induction false} QuotientIsUnique(x: nat, d: nat, q: nat, r: nat)
    requires d > 0 && x == q * d + r && r < d
    ensures x / d == q && x % d == r
  {
    var k := x / d - q;
    assert x / d * d + x % d == x;
    assert k * d == x / d * d - q * d;
    assert k >= 1 ==> k * d >= d;
    assert k <= -1 ==> k * d + d <= 0;
  }

  lemma {:induction false} UniformLength(sigs: seq<Bytes>, size: nat)
    requires Uniform(sigs, size) && size > 0
    ensures TotalLength(sigs) % size == 0 && TotalLength(sigs) / size == |sigs|
    decreases |sigs|
  {
    if sigs != [] {
      assert |sigs[0]| == size && Uniform(sigs[1..], size);
      UniformLength(sigs[1..], size);
      OneMoreDivides(TotalLength(sigs[1..]), size);
    }
  }

  lemma {:induction false} DecodeEncoded(list: SignatureList)
    requires Encodable(list) && list.sigs != []
    ensures NextList(EncodeList(list)) == Next(list, [])
  {
    var listSize := LIST_HEADER_SIZE + |list.header| + TotalLength(list.sigs);
    var s := EncodeList(list);
    assert s[..16] == list.sigType;
    assert s[16..20] == EncodeUint32(listSize) && s[20..24] == EncodeUint32(|list.header|) &&
           s[24..28] == EncodeUint32(list.size);
    EncodedUint32(listSize);
    EncodedUint32(|list.header|);
    EncodedUint32(list.size);
    var from := LIST_HEADER_SIZE + |list.header|;
    assert s[LIST_HEADER_SIZE..from] == list.header && s[from..] == Joined(list.sigs);
    UniformLength(list.sigs, list.size);
    TakeSigsJoined(list.sigs, list.size);
  }

  // --- filtering

  lemma {:induction false} LackingConcat(entries: seq<Entry>, a: seq<Entry>, b: seq<Entry>, quirk: Quirk)
    ensures Lacking(entries, a + b, quirk) == Lacking(entries, a, quirk) + Lacking(entries, b, quirk)
    decreases |a|
  {
    if a == [] {
      assert a + b == b;
    } else {
      assert (a + b)[1..] == a[1..] + b;
      LackingConcat(entries, a[1..], b, quirk);
    }
  }

  lemma {:induction false} EntriesOfCons(sigType: Bytes, sig: Bytes, sigs: seq<Bytes>, size: nat)
    requires |sig| == size && Uniform(sigs, size)
    ensures Uniform([sig] + sigs, size) && TotalLength([sig] + sigs) == size + TotalLength(sigs)
    ensures EntriesOf(sigType, [sig] + sigs) == [Entry(sigType, Owner(sig), Data(sig))] + EntriesOf(sigType, sigs)
  {
    assert ([sig] + sigs)[1..] == sigs;
  }

  lemma {:induction false} NewSigsAreLacking(db: Bytes, sigType: Bytes, sigs: seq<Bytes>, size: nat, quirk: Quirk)
    requires DecodeLists(db).Some? && Uniform(sigs, size) && size >= GUID_SIZE
    ensures NewSigs(db, sigType, sigs, quirk).Some?
    ensures
      var new_ := NewSigs(db, sigType, sigs, quirk).value;
      && Uniform(new_, size) && TotalLength(new_) <= TotalLength(sigs)
      && EntriesOf(sigType, new_) == Lacking(Entries(DecodeLists(db).value), EntriesOf(sigType, sigs), quirk)
    decreases |sigs|
  {
    if sigs == [] {
      assert EntriesOf(sigType, []) == [];
    } else {
      assert |sigs[0]| == size && Uniform(sigs[1..], size);
      LookupIsRight(db, sigType, sigs[0], quirk);
      NewSigsAreLacking(db, sigType, sigs[1..], size, quirk);
      var more := NewSigs(db, sigType, sigs[1..], quirk).value;
      assert EntriesOf(sigType, sigs)[1..] == EntriesOf(sigType, sigs[1..]);
      EntriesOfCons(sigType, sigs[0], more, size);
    }
  }

  /** The rewritten list is never larger than the list it comes from, so its size fits into 32 bits. */
  lemma {:induction false} RewrittenListFits(db: Bytes, update: Bytes, quirk: Quirk)
    requires DecodeLists(db).Some? && NextList(update).Next?
    ensures
      var list := NextList(update).value;
      var new_ := NewSigs(db, list.sigType, list.sigs, quirk);
      && new_.Some? && Encodable(list.(sigs := new_.value))
      && |EncodeNew(list, new_.value)| <= LIST_HEADER_SIZE + |list.header| + TotalLength(list.sigs)
  {
    ReadIsEncodable(update);
    var list := NextList(update).value;
    NewSigsAreLacking(db, list.sigType, list.sigs, list.size, quirk);
  }

  lemma {:induction false} EncodeNewDecodes(list: SignatureList, sigs: seq<Bytes>)
    requires Encodable(list.(sigs := sigs))
    ensures DecodeLists(EncodeNew(list, sigs)).Some?
    ensures Entries(DecodeLists(EncodeNew(list, sigs)).value) == EntriesOf(list.sigType, sigs)
  {
    if sigs == [] {
      assert EntriesOf(list.sigType, sigs) == [];
    } else {
      DecodeEncoded(list.(sigs := sigs));
      DecodeStep(EncodeNew(list, sigs), list.(sigs := sigs), []);
      var one := [list.(sigs := sigs)];
      assert one + [] == one && one[1..] == [];
    }
  }

  /** The filtered update decodes to the entries that the database lacks. */
  lemma {:induction false} FilterIsLacking(db: Bytes, update: Bytes, quirk: Quirk)
    requires DecodeLists(db).Some?
    ensures FilterUpdate(db, update, quirk).Some? <==> DecodeLists(update).Some?
    ensures DecodeLists(update).Some? ==>
              var filtered := FilterUpdate(db, update, quirk).value;
              && DecodeLists(filtered).Some?
              && Entries(DecodeLists(filtered).value) ==
                 Lacking(Entries(DecodeLists(db).value), Entries(DecodeLists(update).value), quirk)
    decreases |update|
  {
    if NextList(update).Next? {
      var list, rest := NextList(update).value, NextList(update).rest;
      RewrittenListFits(db, update, quirk);
      ReadIsEncodable(update);
      NewSigsAreLacking(db, list.sigType, list.sigs, list.size, quirk);
      FilterIsLacking(db, rest, quirk);
      if DecodeLists(update).Some? {
        FilterStep(db, list, rest, quirk);
      }
    }
  }

  lemma {:induction false} FilterStep(db: Bytes, list: SignatureList, rest: Bytes, quirk: Quirk)
    requires DecodeLists(db).Some? && DecodeLists(rest).Some? && FilterUpdate(db, rest, quirk).Some?
    requires NewSigs(db, list.sigType, list.sigs, quirk).Some?
    requires
      var new_ := NewSigs(db, list.sigType, list.sigs, quirk).value;
      var filtered := FilterUpdate(db, rest, quirk).value;
      var entries := Entries(DecodeLists(db).value);
      && Encodable(list.(sigs := new_)) && DecodeLists(filtered).Some?
      && EntriesOf(list.sigType, new_) == Lacking(entries, EntriesOf(list.sigType, list.sigs), quirk)
      && Entries(DecodeLists(filtered).value) == Lacking(entries, Entries(DecodeLists(rest).value), quirk)
    ensures
      var new_ := NewSigs(db, list.sigType, list.sigs, quirk).value;
      var whole := EncodeNew(list, new_) + FilterUpdate(db, rest, quirk).value;
      && DecodeLists(whole).Some?
      && Entries(DecodeLists(whole).value) ==
         Lacking(Entries(DecodeLists(db).value), Entries([list] + DecodeLists(rest).value), quirk)
  {
    var new_ := NewSigs(db, list.sigType, list.sigs, quirk).value;
    var filtered := FilterUpdate(db, rest, quirk).value;
    EncodeNewDecodes(list, new_);
    DecodeAppend(EncodeNew(list, new_), filtered);
    EntriesConcat(DecodeLists(EncodeNew(list, new_)).value, DecodeLists(filtered).value);
    LackingConcat(Entries(DecodeLists(db).value), EntriesOf(list.sigType, list.sigs), Entries(DecodeLists(rest).value),
                  quirk);
    assert ([list] + DecodeLists(rest).value)[1..] == DecodeLists(rest).value;
  }

  // ------------------------------------------------------------- the properties

  /** An update succeeds exactly when it is well-formed, and its result decodes to the old entries, followed by the
      entries of the update that the database lacked, in their order. */
  lemma {:induction false} UpdateAppends(db: Bytes, update: Bytes, quirk: Quirk)
    requires DecodeLists(db).Some?
    ensures DbUpdate(db, update, quirk).Some? <==>
            AfterAuthInfo(update).Some? && DecodeLists(AfterAuthInfo(update).value).Some?
    ensures DbUpdate(db, update, quirk).Some? ==>
              var result := DecodeLists(DbUpdate(db, update, quirk).value);
              var old_ := Entries(DecodeLists(db).value);
              && db <= DbUpdate(db, update, quirk).value && result.Some?
              && Entries(result.value) ==
                 old_ + Lacking(old_, Entries(DecodeLists(AfterAuthInfo(update).value).value), quirk)
  {
    if AfterAuthInfo(update).Some? {
      var lists := AfterAuthInfo(update).value;
      FilterIsLacking(db, lists, quirk);
      if DecodeLists(lists).Some? {
        var filtered := FilterUpdate(db, lists, quirk).value;
        DecodeAppend(db, filtered);
        EntriesConcat(DecodeLists(db).value, DecodeLists(filtered).value);
      }
    }
  }

  /** An update as it is signed: a timestamp, the length of the certificate with its header, the revision and the type
      of the certificate, the certificate itself, and the signature lists. */
  ghost function SignedUpdate(time: Bytes, cert: Bytes, lists: Bytes): Bytes {
    time + EncodeUint32(24 + |cert|) + [0x00, 0x02, 0xf1, 0x0e] + CERT_TYPE_PKCS7 + cert + lists
  }

  lemma {:induction false} SignedParts(time: Bytes, cert: Bytes, lists: Bytes)
    requires |time| == 16
    ensures
      var u := SignedUpdate(time, cert, lists);
      && |u| == 40 + |cert| + |lists| && u[16..20] == EncodeUint32(24 + |cert|)
      && u[20..22] == [0x00, 0x02] && u[22..24] == [0xf1, 0x0e] && u[24..40] == CERT_TYPE_PKCS7
      && u[40 + |cert|..] == lists
  {
  }

  lemma {:induction false} AuthInfoSkipped(time: Bytes, cert: Bytes, lists: Bytes)
    requires |time| == 16 && 24 + |cert| < UINT32_LIMIT
    ensures AfterAuthInfo(SignedUpdate(time, cert, lists)) == Some(lists)
  {
    SignedParts(time, cert, lists);
    EncodedUint32(24 + |cert|);
  }

  /** An update is accepted exactly if it is of this form, and then its signature lists are what is appended. */
  lemma {:induction false} AuthInfoFound(update: Bytes) returns (time: Bytes, cert: Bytes)
    requires AfterAuthInfo(update).Some?
    ensures |time| == 16 && 24 + |cert| < UINT32_LIMIT
    ensures update == SignedUpdate(time, cert, AfterAuthInfo(update).value)
  {
    var length := Uint32(update[16..20]);
    time, cert := update[..16], update[40..16 + length];
    Uint32Encoded(update[16..20]);
    var kind := update[20..24];
    assert kind == [0x00, 0x02, 0xf1, 0x0e] by {
      assert update[20..22] == kind[..2] && update[22..24] == kind[2..];
      Uint16Octets(kind[..2], 0x00, 0x02);
      Uint16Octets(kind[2..], 0xf1, 0x0e);
    }
    Pieces(update, 16 + length);
  }

  lemma {:induction false} Uint16Octets(b: Bytes, lo: byte, hi: byte)
    requires |b| == 2 && Uint16(b) == lo as nat + 0x100 * hi as nat
    ensures b == [lo, hi]
  {
  }

  lemma {:induction false} Pieces(u: Bytes, end: nat)
    requires 40 <= end <= |u|
    ensures u == u[..16] + u[16..20] + u[20..24] + u[24..40] + u[40..end] + u[end..]
  {
  }

  lemma {:induction false} TakenSigs(s: Bytes, size: nat, n: int)
    requires TakeSigs(s, size, n).Next?
    ensures s == Joined(TakeSigs(s, size, n).value) + TakeSigs(s, size, n).rest
    decreases if n > 0 then n else 0
  {
    if n > 0 {
      var more := TakeSigs(s[size..], size, n - 1);
      TakenSigs(s[size..], size, n - 1);
      assert TakeSigs(s, size, n).value[1..] == more.value;
      Regroup(s[..size], Joined(more.value), more.rest);
      assert s == s[..size] + s[size..];
    } else {
      assert [] + s == s;
    }
  }

  /** A list that holds signatures is read from exactly its own encoding. */
  lemma {:induction false} ReadIsWritten(s: Bytes)
    requires NextList(s).Next? && NextList(s).value.sigs != []
    ensures s == EncodeList(NextList(s).value) + NextList(s).rest
  {
    var list, rest := NextList(s).value, NextList(s).rest;
    var listSize, headerSize, size := Uint32(s[16..20]), Uint32(s[20..24]), Uint32(s[24..28]);
    var from, dataSize := LIST_HEADER_SIZE + headerSize, listSize - LIST_HEADER_SIZE - headerSize;
    QuotientTimesDivisor(dataSize, size);
    TakeSigsUniform(s[from..], size, dataSize / size);
    TakenSigs(s[from..], size, dataSize / size);
    Uint32Encoded(s[16..20]);
    Uint32Encoded(s[20..24]);
    Uint32Encoded(s[24..28]);
    ListPieces(s, from, Joined(list.sigs), rest);
  }

  lemma {:induction false} ListPieces(s: Bytes, from: nat, sigs: Bytes, rest: Bytes)
    requires 28 <= from <= |s| && s[from..] == sigs + rest
    ensures s == s[..16] + s[16..20] + s[20..24] + s[24..28] + s[28..from] + sigs + rest
  {
    var head := s[..16] + s[16..20] + s[20..24] + s[24..28] + s[28..from];
    assert head == s[..from];
    Regroup(head, sigs, rest);
  }

  lemma {:induction false} LackingIsFrom(entries: seq<Entry>, more: seq<Entry>, e: Entry, quirk: Quirk)
    requires HoldsEntry(Lacking(entries, more, quirk), e, quirk)
    ensures HoldsEntry(more, e, quirk)
    decreases |more|
  {
    var first := if HoldsEntry(entries, more[0], quirk) then [] else [more[0]];
    HoldsConcat(first, Lacking(entries, more[1..], quirk), e, quirk);
    HoldsConcat([more[0]], more[1..], e, quirk);
    assert more == [more[0]] + more[1..];
    if HoldsEntry(first, e, quirk) {
      assert SameEntry([more[0]][0], e, quirk);
    } else {
      LackingIsFrom(entries, more[1..], e, quirk);
    }
  }

  /** What a database holds after an update: what it held, and what the update brings. */
  lemma {:induction false} HoldsAfter(entries: seq<Entry>, more: seq<Entry>, e: Entry, quirk: Quirk)
    ensures HoldsEntry(entries + Lacking(entries, more, quirk), e, quirk) <==>
            HoldsEntry(entries, e, quirk) || HoldsEntry(more, e, quirk)
  {
    HoldsConcat(entries, Lacking(entries, more, quirk), e, quirk);
    if HoldsEntry(Lacking(entries, more, quirk), e, quirk) {
      LackingIsFrom(entries, more, e, quirk);
    }
    if i :| 0 <= i < |more| && SameEntry(more[i], e, quirk) {
      LackingIsHeld(entries, more, i, quirk);
      var all := entries + Lacking(entries, more, quirk);
      var j :| 0 <= j < |all| && SameEntry(all[j], more[i], quirk);
      assert SameEntry(all[j], e, quirk);
    }
  }

  lemma {:induction false} LackingIsHeld(entries: seq<Entry>, more: seq<Entry>, i: nat, quirk: Quirk)
    requires i < |more|
    ensures HoldsEntry(entries + Lacking(entries, more, quirk), more[i], quirk)
    decreases |more|
  {
    HoldsConcat(entries, Lacking(entries, more, quirk), more[i], quirk);
    var first := if HoldsEntry(entries, more[0], quirk) then [] else [more[0]];
    HoldsConcat(first, Lacking(entries, more[1..], quirk), more[i], quirk);
    if i == 0 {
      assert !HoldsEntry(entries, more[0], quirk) ==> SameEntry(first[0], more[0], quirk);
    } else {
      LackingIsHeld(entries, more[1..], i - 1, quirk);
      HoldsConcat(entries, Lacking(entries, more[1..], quirk), more[i], quirk);
    }
  }

  lemma {:induction false} NothingLacks(entries: seq<Entry>, more: seq<Entry>, quirk: Quirk)
    requires forall i | 0 <= i < |more| :: HoldsEntry(entries, more[i], quirk)
    ensures Lacking(entries, more, quirk) == []
    decreases |more|
  {
    if more != [] {
      forall i | 0 <= i < |more[1..]|
        ensures HoldsEntry(entries, more[1..][i], quirk)
      {
        assert more[1..][i] == more[i + 1];
      }
      NothingLacks(entries, more[1..], quirk);
    }
  }

  /** A filtered update without new entries is empty. */
  lemma {:induction false} NothingToAppend(db: Bytes, update: Bytes, quirk: Quirk)
    requires DecodeLists(db).Some? && DecodeLists(update).Some?
    requires Lacking(Entries(DecodeLists(db).value), Entries(DecodeLists(update).value), quirk) == []
    ensures FilterUpdate(db, update, quirk) == Some([])
    decreases |update|
  {
    if NextList(update).Next? {
      var list, rest := NextList(update).value, NextList(update).rest;
      ReadIsEncodable(update);
      NewSigsAreLacking(db, list.sigType, list.sigs, list.size, quirk);
      assert DecodeLists(update).value[1..] == DecodeLists(rest).value;
      LackingConcat(Entries(DecodeLists(db).value), EntriesOf(list.sigType, list.sigs),
                    Entries(DecodeLists(rest).value), quirk);
      NothingToAppend(db, rest, quirk);
    }
  }

  /** Applying the same update again changes nothing. */
  lemma {:induction false} UpdateIsIdempotent(db: Bytes, update: Bytes, quirk: Quirk)
    requires DecodeLists(db).Some? && DbUpdate(db, update, quirk).Some?
    ensures DbUpdate(DbUpdate(db, update, quirk).value, update, quirk) == DbUpdate(db, update, quirk)
  {
    var result := DbUpdate(db, update, quirk).value;
    UpdateAppends(db, update, quirk);
    var entries := Entries(DecodeLists(db).value);
    var more := Entries(DecodeLists(AfterAuthInfo(update).value).value);
    forall i | 0 <= i < |more|
      ensures HoldsEntry(Entries(DecodeLists(result).value), more[i], quirk)
    {
      LackingIsHeld(entries, more, i, quirk);
    }
    NothingLacks(Entries(DecodeLists(result).value), more, quirk);
    NothingToAppend(result, AfterAuthInfo(update).value, quirk);
    assert result + [] == result;
  }

  predicate Subsequence(a: seq<Entry>, b: seq<Entry>) {
    if a == [] then true
    else if b == [] then false
    else if a[0] == b[0] then Subsequence(a[1..], b[1..])
    else Subsequence(a, b[1..])
  }

  lemma {:induction false} SubsequenceSkip(a: seq<Entry>, b: seq<Entry>, e: Entry)
    requires Subsequence(a, b)
    ensures Subsequence(a, [e] + b)
    decreases |b|, 1
  {
    assert ([e] + b)[1..] == b;
    if a != [] && a[0] == e {
      SubsequenceTail(a, b);
    }
  }

  lemma {:induction false} SubsequenceTail(a: seq<Entry>, b: seq<Entry>)
    requires Subsequence(a, b) && a != []
    ensures Subsequence(a[1..], b)
    decreases |b|, 0
  {
    assert b != [];
    assert b == [b[0]] + b[1..];
    if a[0] == b[0] {
      SubsequenceSkip(a[1..], b[1..], b[0]);
    } else {
      SubsequenceTail(a, b[1..]);
      SubsequenceSkip(a[1..], b[1..], b[0]);
    }
  }

  /** Ignoring owners never adds an entry that the strict comparison does not add. */
  lemma {:induction false} IgnoringOwnersAddsLess(entries: seq<Entry>, more: seq<Entry>)
    ensures Subsequence(Lacking(entries, more, IgnoreOwner), Lacking(entries, more, Strict))
    decreases |more|
  {
    if more != [] {
      IgnoringOwnersAddsLess(entries, more[1..]);
      var a := Lacking(entries, more[1..], IgnoreOwner);
      var b := Lacking(entries, more[1..], Strict);
      assert [] + a == a && [] + b == b;
      if HoldsEntry(entries, more[0], Strict) {
        var i :| 0 <= i < |entries| && SameEntry(entries[i], more[0], Strict);
        assert SameEntry(entries[i], more[0], IgnoreOwner);
      } else if HoldsEntry(entries, more[0], IgnoreOwner) {
        SubsequenceSkip(a, b, more[0]);
      } else {
        assert ([more[0]] + a)[1..] == a && ([more[0]] + b)[1..] == b;
      }
    }
  }

  // --------------------------------------------------------------- the programs

  datatype ListRead = EndOfDb | BadList | List(list: SignatureList)

  /** What reading a list must return, and leave to be read. */
  ghost predicate ReadsNext(before: Bytes, r: ListRead, after: Bytes) {
    match NextList(before)
    case End => r == EndOfDb
    case Malformed => r == BadList
    case Next(list, rest) => r == List(list) && after == rest
  }

  class Reader {
    const data: Bytes
    var pos: nat

    constructor (data: Bytes)
      ensures this.data == data && pos == 0
    {
      this.data := data;
      pos := 0;
    }

    ghost function Rest(): Bytes
      reads this
    {
      if pos <= |data| then data[pos..] else []
    }

    method ReadFull(n: nat) returns (r: Option<Bytes>)
      modifies this
      ensures |old(Rest())| < n ==> r == None
      ensures |old(Rest())| >= n ==> r == Some(old(Rest())[..n]) && Rest() == old(Rest())[n..]
    {
      if n == 0 {
        assert Rest()[0..] == Rest();
        return Some([]);
      }
      if pos + n > |data| {
        return None;
      }
      ghost var rest := Rest();
      r := Some(data[pos..pos + n]);
      pos := pos + n;
      assert rest[..n] == r.value && Rest() == rest[n..];
    }

    /** Reads `n` signatures. */
    method ReadSigs(size: nat, n: int) returns (r: Option<seq<Bytes>>)
      modifies this
      ensures match TakeSigs(old(Rest()), size, n)
              case Next(sigs, rest) => r == Some(sigs) && Rest() == rest
              case _ => r == None
    {
      var sigs := [];
      ghost var start := Rest();
      var i := 0;
      assert TakeSigs(start, size, n).Next? ==> [] + TakeSigs(start, size, n).value == TakeSigs(start, size, n).value;
      while i < n
        invariant 0 <= i && (i <= n || i == 0)
        invariant match TakeSigs(Rest(), size, n - i)
                  case Next(more, rest) => TakeSigs(start, size, n) == Next(sigs + more, rest)
                  case _ => TakeSigs(start, size, n) == Malformed
      {
        ghost var before := Rest();
        var sig := ReadFull(size);
        if sig.None? {
          return None;
        }
        ghost var more := TakeSigs(Rest(), size, n - i - 1);
        if more.Next? {
          Regroup(sigs, [sig.value], more.value);
        }
        sigs := sigs + [sig.value];
        i := i + 1;
      }
      assert sigs + [] == sigs;
      return Some(sigs);
    }

    method NextSignatureList() returns (r: ListRead)
      modifies this
      ensures ReadsNext(old(Rest()), r, Rest())
    {
      ghost var s := Rest();
      if pos >= |data| {
        return EndOfDb;
      }
      var sigType := ReadFull(GUID_SIZE);
      if sigType.None? {
        return BadList;
      }
      var listSize := ReadFull(4);
      if listSize.None? {
        return BadList;
      }
      var headerSize := ReadFull(4);
      if headerSize.None? {
        return BadList;
      }
      var size := ReadFull(4);
      if size.None? {
        return BadList;
      }
      HeaderFields(s);
      r := ReadBody(sigType.value, Uint32(listSize.value), Uint32(headerSize.value), Uint32(size.value), s);
    }

    /** Reads what follows the fixed fields of a list. */
    method ReadBody(sigType: Bytes, listSize: nat, headerSize: nat, size: nat, ghost s: Bytes) returns (r: ListRead)
      requires |s| >= LIST_HEADER_SIZE && Rest() == s[LIST_HEADER_SIZE..] && sigType == s[..GUID_SIZE]
      requires listSize == Uint32(s[16..20]) && headerSize == Uint32(s[20..24]) && size == Uint32(s[24..28])
      modifies this
      ensures ReadsNext(s, r, Rest())
    {
      if size < GUID_SIZE {
        return BadList;
      }
      var header := ReadFull(headerSize);
      if header.None? {
        return BadList;
      }
      ghost var from := LIST_HEADER_SIZE + headerSize;
      assert Rest() == s[from..] && header.value == s[LIST_HEADER_SIZE..from];
      var dataSize := listSize - LIST_HEADER_SIZE - headerSize;
      if dataSize % size != 0 {
        return BadList;
      }
      var sigs := ReadSigs(size, dataSize / size);
      if sigs.None? {
        return BadList;
      }
      return List(SignatureList(sigType, header.value, size, sigs.value));
    }
  }

  lemma {:induction false} HeaderFields(s: Bytes)
    requires |s| >= LIST_HEADER_SIZE
    ensures s[16..][..4] == s[16..20] && s[16..][4..][..4] == s[20..24] && s[16..][4..][4..][..4] == s[24..28]
    ensures s[16..][4..][4..][4..] == s[28..]
  {
  }

  /** The lists that were read, and those still to be read. */
  ghost function ListsFrom(done: seq<SignatureList>, s: Bytes): Option<seq<SignatureList>> {
    match DecodeLists(s) { case None => None case Some(more) => Some(done + more) }
  }

  lemma {:induction false} ListsStep(done: seq<SignatureList>, s: Bytes, list: SignatureList, rest: Bytes)
    requires NextList(s) == Next(list, rest)
    ensures ListsFrom(done, s) == ListsFrom(done + [list], rest)
  {
    DecodeStep(s, list, rest);
    if DecodeLists(rest).Some? {
      Regroup(done, [list], DecodeLists(rest).value);
    }
  }

  lemma {:induction false} EntriesStep(done: seq<SignatureList>, list: SignatureList)
    ensures Entries(done + [list]) == Entries(done) + EntriesOf(list.sigType, list.sigs)
  {
    EntriesConcat(done, [list]);
    assert [list][1..] == [];
  }

  method DecodeSecureBootDb(db: Bytes) returns (r: Option<seq<Entry>>)
    ensures r == match DecodeLists(db) { case None => None case Some(lists) => Some(Entries(lists)) }
  {
    var reader := new Reader(db);
    var out := [];
    ghost var lists: seq<SignatureList> := [];
    assert DecodeLists(db).Some? ==> [] + DecodeLists(db).value == DecodeLists(db).value;
    while true
      invariant DecodeLists(db) == ListsFrom(lists, reader.Rest())
      invariant out == Entries(lists)
      decreases |reader.Rest()|
    {
      ghost var before := reader.Rest();
      var read := reader.NextSignatureList();
      if read.EndOfDb? {
        assert lists + [] == lists;
        return Some(out);
      }
      if read.BadList? {
        return None;
      }
      ListsStep(lists, before, read.list, reader.Rest());
      EntriesStep(lists, read.list);
      var entries := DecodeEntries(read.list);
      out := out + entries;
      lists := lists + [read.list];
    }
  }

  method DecodeEntries(list: SignatureList) returns (r: seq<Entry>)
    ensures r == EntriesOf(list.sigType, list.sigs)
  {
    r := [];
    for j := 0 to |list.sigs|
      invariant r == EntriesOf(list.sigType, list.sigs)[..j]
    {
      r := r + [Entry(list.sigType, Owner(list.sigs[j]), Data(list.sigs[j]))];
    }
  }

  /** Searches the database for a signature. */
  method IsHeld(db: Bytes, sigType: Bytes, sig: Bytes, quirk: Quirk) returns (r: Option<bool>)
    ensures r == Lookup(db, sigType, sig, quirk)
  {
    var reader := new Reader(db);
    assert reader.Rest() == db;
    while true
      invariant Lookup(db, sigType, sig, quirk) == Lookup(reader.Rest(), sigType, sig, quirk)
      decreases |reader.Rest()|
    {
      ghost var before := reader.Rest();
      var read := reader.NextSignatureList();
      if read.EndOfDb? {
        return Some(false);
      }
      if read.BadList? {
        return None;
      }
      if read.list.sigType == sigType {
        var held := HeldIn(read.list.sigs, sig, quirk);
        if held {
          return Some(true);
        }
      }
    }
  }

  method HeldIn(sigs: seq<Bytes>, sig: Bytes, quirk: Quirk) returns (r: bool)
    ensures r == Holds(sigs, sig, quirk)
  {
    for i := 0 to |sigs|
      invariant forall j | 0 <= j < i :: !SameSig(sigs[j], sig, quirk)
    {
      if SameSig(sigs[i], sig, quirk) {
        return true;
      }
    }
    return false;
  }

  method FilterList(db: Bytes, list: SignatureList, quirk: Quirk) returns (r: Option<seq<Bytes>>)
    ensures r == NewSigs(db, list.sigType, list.sigs, quirk)
  {
    var new_ := [];
    var todo := list.sigs;
    ghost var all := NewSigs(db, list.sigType, todo, quirk);
    assert all.Some? ==> [] + all.value == all.value;
    while todo != []
      invariant NewSigs(db, list.sigType, list.sigs, quirk) ==
                match NewSigs(db, list.sigType, todo, quirk) { case None => None case Some(more) => Some(new_ + more) }
    {
      var held := IsHeld(db, list.sigType, todo[0], quirk);
      if held.None? {
        return None;
      }
      if !held.value {
        ghost var more := NewSigs(db, list.sigType, todo[1..], quirk);
        if more.Some? {
          Regroup(new_, [todo[0]], more.value);
        }
        new_ := new_ + [todo[0]];
      }
      todo := todo[1..];
    }
    assert new_ + [] == new_;
    return Some(new_);
  }

  ghost function FilteredFrom(done: Bytes, db: Bytes, s: Bytes, quirk: Quirk): Option<Bytes> {
    match FilterUpdate(db, s, quirk) { case None => None case Some(more) => Some(done + more) }
  }

  lemma {:induction false} FilteredStep(done: Bytes, db: Bytes, s: Bytes, list: SignatureList, rest: Bytes,
                                        quirk: Quirk)
    requires NextList(s) == Next(list, rest)
    ensures FilteredFrom(done, db, s, quirk) ==
            match NewSigs(db, list.sigType, list.sigs, quirk)
            case None => None
            case Some(sigs) => FilteredFrom(done + EncodeNew(list, sigs), db, rest, quirk)
  {
    var sigs := NewSigs(db, list.sigType, list.sigs, quirk);
    if sigs.Some? && FilterUpdate(db, rest, quirk).Some? {
      Regroup(done, EncodeNew(list, sigs.value), FilterUpdate(db, rest, quirk).value);
    }
  }

  /** Appends an update to a database, without the signatures that the database holds already. */
  method ComputeDbUpdate(db: Bytes, update: Bytes, quirk: Quirk) returns (r: Option<Bytes>)
    ensures r == DbUpdate(db, update, quirk)
  {
    var lists := AfterAuthInfo(update);
    if lists.None? {
      return None;
    }
    var more := ComputeFilteredUpdate(db, lists.value, quirk);
    return if more.None? then None else Some(db + more.value);
  }

  method ComputeFilteredUpdate(db: Bytes, update: Bytes, quirk: Quirk) returns (r: Option<Bytes>)
    ensures r == FilterUpdate(db, update, quirk)
  {
    var filtered: Bytes := [];
    var reader := new Reader(update);
    ghost var whole := FilterUpdate(db, update, quirk);
    assert whole.Some? ==> [] + whole.value == whole.value;
    while true
      invariant whole == FilteredFrom(filtered, db, reader.Rest(), quirk)
      decreases |reader.Rest()|
    {
      ghost var before := reader.Rest();
      var read := reader.NextSignatureList();
      if read.EndOfDb? {
        assert filtered + [] == filtered;
        return Some(filtered);
      }
      if read.BadList? {
        return None;
      }
      FilteredStep(filtered, db, before, read.list, reader.Rest(), quirk);
      var sigs := FilterList(db, read.list, quirk);
      if sigs.None? {
        return None;
      }
      if |sigs.value| != 0 {
        filtered := filtered + EncodeList(read.list.(sigs := sigs.value));
      } else {
        assert filtered + [] == filtered;
      }
    }
  }
}
