/** The Authenticode digest of a PE image: which bytes of the file it covers. */
module Authenticode {
  import opened Digests

  datatype Section = Section(name: string, offset: nat, size: nat)

  datatype Directory = Directory(address: nat, size: nat)

  datatype OptionalHeader = OptionalHeader(plus: bool, sizeOfHeaders: nat, directories: seq<Directory>)

  /** What the PE decoder reports about a file. */
  datatype PeFile = PeFile(optional: Option<OptionalHeader>, sections: seq<Section>)

  datatype ImageError =
    | CannotOpen
    | NoDosHeader
    | BadPeSignature
    | NotPe
    | NoOptionalHeader
    | ShortHeaders
    | ImageTooShort

  const FILE_HEADER_SIZE := 20
  const BEFORE_CHECKSUM := 64          // the part of the optional header before the checksum
  const CHECKSUM_SIZE := 4
  const DIRECTORY_SIZE := 8
  const CERT_TABLE_INDEX := 4

  // ----------------------------------------------------------------- reading

  function ByteAt(file: Bytes, i: nat): byte {
    if i < |file| then file[i] else 0
  }

  function Min(a: nat, b: nat): nat {
    if a < b then a else b
  }

  /** The bytes from `lo` up to `hi` or the end of the file. */
  function Range(file: Bytes, lo: nat, hi: nat): Bytes {
    var end := Min(hi, |file|);
    if lo < end then file[lo..end] else []
  }

  function Zeroes(n: nat): (r: Bytes)
    ensures |r| == n
  {
    seq(n, _ => 0)
  }

  /** One read from a section reader that ends at `limit`: it fails at the end of the section or of the file, and a
      buffer that the section cannot fill keeps its zeroes. */
  function ReadOnce(file: Bytes, off: nat, limit: nat, n: nat): Option<Bytes> {
    if off >= limit || off + Min(n, limit - off) > |file| then None
    else
      var got := Min(n, limit - off);
      Some(file[off..off + got] + Zeroes(n - got))
  }

  const CHUNK_SIZE := 4096

  /** Where the next chunk ends. */
  function ChunkEnd(file: Bytes, off: nat, hi: nat): (next: nat)
    requires off < hi && off < |file|
    ensures off < next <= hi && next <= |file|
  {
    Min(Min(off + CHUNK_SIZE, hi), |file|)
  }

  lemma {:induction false} RangeGrows(file: Bytes, lo: nat, off: nat, next: nat, hashed: Bytes)
    requires lo <= off <= next <= |file|
    ensures hashed + Range(file, lo, off) + file[off..next] == hashed + Range(file, lo, next)
  {
    Regroup(hashed, Range(file, lo, off), file[off..next]);
    assert Range(file, lo, off) == file[lo..off] && Range(file, lo, next) == file[lo..next];
  }

  /** Reads in chunks up to the end of the section or of the file. */
  method ChunkedHashAll(file: Bytes, lo: nat, hi: nat, hashed: Bytes) returns (r: Bytes)
    ensures r == hashed + Range(file, lo, hi)
  {
    r := hashed;
    var off := lo;
    while off < hi && off < |file|
      invariant lo <= off
      invariant (off <= hi && off <= |file|) || off == lo
      invariant r == hashed + Range(file, lo, off)
    {
      var next := ChunkEnd(file, off, hi);
      RangeGrows(file, lo, off, next, hashed);
      r := r + file[off..next];
      off := next;
    }
    assert Range(file, lo, off) == Range(file, lo, hi);
  }

  // ---------------------------------------------------------------- sections

  function NonEmpty(sections: seq<Section>): seq<Section> {
    if sections == [] then []
    else (if sections[0].size == 0 then [] else [sections[0]]) + NonEmpty(sections[1..])
  }

  function Insert(s: Section, sorted: seq<Section>): seq<Section> {
    if sorted == [] || s.offset <= sorted[0].offset then [s] + sorted else [sorted[0]] + Insert(s, sorted[1..])
  }

  function SortByOffset(sections: seq<Section>): seq<Section> {
    if sections == [] then [] else Insert(sections[0], SortByOffset(sections[1..]))
  }

  predicate Ascending(ss: seq<Section>) {
    forall i, j | 0 <= i < j < |ss| :: ss[i].offset <= ss[j].offset
  }

  predicate StrictlyAscending(ss: seq<Section>) {
    forall i, j | 0 <= i < j < |ss| :: ss[i].offset < ss[j].offset
  }

  lemma {:induction false} InsertAdds(s: Section, sorted: seq<Section>)
    ensures multiset(Insert(s, sorted)) == multiset(sorted) + multiset{s}
  {
    if sorted != [] && s.offset > sorted[0].offset {
      InsertAdds(s, sorted[1..]);
      assert sorted == [sorted[0]] + sorted[1..];
    }
  }

  predicate AtLeast(ss: seq<Section>, offset: nat) {
    forall i | 0 <= i < |ss| :: offset <= ss[i].offset
  }

  lemma {:induction false} InsertAtLeast(s: Section, sorted: seq<Section>, offset: nat)
    requires AtLeast(sorted, offset) && offset <= s.offset
    ensures AtLeast(Insert(s, sorted), offset)
  {
    if sorted != [] && s.offset > sorted[0].offset {
      InsertAtLeast(s, sorted[1..], offset);
    }
  }

  lemma {:induction false} AscendingStep(first: Section, rest: seq<Section>)
    requires Ascending(rest) && AtLeast(rest, first.offset)
    ensures Ascending([first] + rest)
  {
  }

  lemma {:induction false} InsertSorted(s: Section, sorted: seq<Section>)
    requires Ascending(sorted)
    ensures Ascending(Insert(s, sorted))
  {
    if sorted == [] || s.offset <= sorted[0].offset {
      AscendingStep(s, sorted);
    } else {
      InsertSorted(s, sorted[1..]);
      InsertAtLeast(s, sorted[1..], sorted[0].offset);
      AscendingStep(sorted[0], Insert(s, sorted[1..]));
    }
  }

  lemma {:induction false} SortSorts(sections: seq<Section>)
    ensures Ascending(SortByOffset(sections)) && multiset(SortByOffset(sections)) == multiset(sections)
  {
    if sections != [] {
      SortSorts(sections[1..]);
      InsertSorted(sections[0], SortByOffset(sections[1..]));
      InsertAdds(sections[0], SortByOffset(sections[1..]));
      assert sections == [sections[0]] + sections[1..];
    }
  }

  lemma {:induction false} WithoutFirst(a: seq<Section>)
    requires a != []
    ensures multiset(a[1..]) == multiset(a) - multiset{a[0]}
  {
    assert a == [a[0]] + a[1..];
  }

  lemma {:induction false} FirstIsLeast(a: seq<Section>, s: Section)
    requires Ascending(a) && a != [] && s in multiset(a)
    ensures a[0].offset <= s.offset
  {
    assert s in a;
  }

  lemma {:induction false} LeastIsFirst(a: seq<Section>, s: Section)
    requires StrictlyAscending(a) && a != [] && s in multiset(a) && s.offset <= a[0].offset
    ensures s == a[0]
  {
    var i :| 0 <= i < |a| && a[i] == s;
  }

  lemma {:induction false} SameFirst(a: seq<Section>, b: seq<Section>)
    requires StrictlyAscending(a) && Ascending(b) && multiset(a) == multiset(b) && a != [] && b != []
    ensures a[0] == b[0] && multiset(a[1..]) == multiset(b[1..])
  {
    WithoutFirst(a);
    WithoutFirst(b);
    FirstIsLeast(b, a[0]);
    LeastIsFirst(a, b[0]);
  }

  /** Sections at different offsets can be sorted in one way only. */
  lemma {:induction false} SortedIsUnique(a: seq<Section>, b: seq<Section>)
    requires StrictlyAscending(a) && Ascending(b) && multiset(a) == multiset(b)
    ensures a == b
  {
    assert |a| == |multiset(a)| && |b| == |multiset(b)|;
    if a != [] {
      SameFirst(a, b);
      SortedIsUnique(a[1..], b[1..]);
    }
  }

  /** What is hashed after the sections, if `hashed` was hashed before. */
  function WithSections(hashed: Bytes, file: Bytes, sections: seq<Section>): Bytes
    decreases |sections|
  {
    if sections == [] then hashed
    else
      WithSections(hashed + Range(file, sections[0].offset, sections[0].offset + sections[0].size), file, sections[1..])
  }

  function TotalSize(sections: seq<Section>): nat {
    if sections == [] then 0 else sections[0].size + TotalSize(sections[1..])
  }

  // -------------------------------------------------------------- the digest

  function CoffHeaderOffset(file: Bytes): Result<nat, ImageError> {
    if |file| < 96 then Failure(NoDosHeader)
    else if file[0] == 0x4D && file[1] == 0x5A then
      var signature := Uint32(file[0x3c..0x40]);
      if ByteAt(file, signature) == 0x50 && ByteAt(file, signature + 1) == 0x45 &&
         ByteAt(file, signature + 2) == 0 && ByteAt(file, signature + 3) == 0
      then Success(signature + 4)
      else Failure(BadPeSignature)
    else Success(0)
  }

  function ToCertTable(plus: bool): nat {
    if plus then 76 else 60
  }

  /** The headers, without the checksum and the certificate table entry. */
  function HeaderBytes(file: Bytes, checksum: nat, h: OptionalHeader): Result<Bytes, ImageError> {
    match ReadOnce(file, 0, h.sizeOfHeaders, checksum)
    case None => Failure(ShortHeaders)
    case Some(a) =>
      var off := Min(checksum, h.sizeOfHeaders) + CHECKSUM_SIZE;
      if |h.directories| <= CERT_TABLE_INDEX then Success(a + Range(file, off, h.sizeOfHeaders))
      else
        match ReadOnce(file, off, h.sizeOfHeaders, ToCertTable(h.plus))
        case None => Failure(ShortHeaders)
        case Some(b) =>
          Success(a + b + Range(file, Min(off + ToCertTable(h.plus), h.sizeOfHeaders) + DIRECTORY_SIZE,
                                h.sizeOfHeaders))
  }

  function CertSize(h: OptionalHeader): nat {
    if |h.directories| > CERT_TABLE_INDEX then h.directories[CERT_TABLE_INDEX].size else 0
  }

  /** What follows the sections, without the certificate table. */
  function ExtraBytes(file: Bytes, sum: nat, certSize: nat): Result<Bytes, ImageError> {
    if |file| <= sum then Success([])
    else if |file| < sum + certSize then Failure(ImageTooShort)
    else Success(Range(file, sum, |file| - certSize))
  }

  function HashedParts(file: Bytes, checksum: nat, h: OptionalHeader,
                       sections: seq<Section>): Result<Bytes, ImageError> {
    match HeaderBytes(file, checksum, h)
    case Failure(e) => Failure(e)
    case Success(headers) =>
      match ExtraBytes(file, h.sizeOfHeaders + TotalSize(sections), CertSize(h))
      case Failure(e) => Failure(e)
      case Success(extra) => Success(WithSections(headers, file, sections) + extra)
  }

  /** The bytes that are hashed. */
  function HashedBytes(content: Option<Bytes>, decoded: Option<PeFile>): Result<Bytes, ImageError> {
    if content.None? then Failure(CannotOpen)
    else
      var file := content.value;
      match CoffHeaderOffset(file)
      case Failure(e) => Failure(e)
      case Success(coff) =>
        if decoded.None? then Failure(NotPe)
        else if decoded.value.optional.None? then Failure(NoOptionalHeader)
        else
          HashedParts(file, coff + FILE_HEADER_SIZE + BEFORE_CHECKSUM, decoded.value.optional.value,
                      SortByOffset(NonEmpty(decoded.value.sections)))
  }

  function ImageDigest(alg: HashAlg, content: Option<Bytes>, decoded: Option<PeFile>): Result<Digest, ImageError> {
    match HashedBytes(content, decoded)
    case Failure(e) => Failure(e)
    case Success(bytes) => Success(Hash(alg, Octets(bytes)))
  }

  method HashHeaders(file: Bytes, checksum: nat, h: OptionalHeader) returns (r: Result<Bytes, ImageError>)
    ensures r == HeaderBytes(file, checksum, h)
  {
    var first := ReadOnce(file, 0, h.sizeOfHeaders, checksum);
    if first.None? {
      return Failure(ShortHeaders);
    }
    var hashed := first.value;
    var off := Min(checksum, h.sizeOfHeaders) + CHECKSUM_SIZE;
    if |h.directories| > CERT_TABLE_INDEX {
      var second := ReadOnce(file, off, h.sizeOfHeaders, ToCertTable(h.plus));
      if second.None? {
        return Failure(ShortHeaders);
      }
      hashed := hashed + second.value;
      off := Min(off + ToCertTable(h.plus), h.sizeOfHeaders) + DIRECTORY_SIZE;
    }
    hashed := ChunkedHashAll(file, off, h.sizeOfHeaders, hashed);
    return Success(hashed);
  }

  /** The table of the section headers whose size is not zero. */
  method SectionTable(table: seq<Section>) returns (sections: seq<Section>)
    ensures sections == NonEmpty(table)
  {
    sections := [];
    assert table[0..] == table;
    for i := 0 to |table|
      invariant sections + NonEmpty(table[i..]) == NonEmpty(table)
    {
      ghost var rest := table[i..];
      assert rest[1..] == table[i + 1..] && rest[0] == table[i];
      if table[i].size != 0 {
        assert sections + ([table[i]] + NonEmpty(rest[1..])) == sections + [table[i]] + NonEmpty(rest[1..]);
        sections := sections + [table[i]];
      }
    }
  }

  method HashSections(file: Bytes, sorted: seq<Section>, hashed: Bytes, start: nat) returns (r: Bytes, sum: nat)
    ensures r == WithSections(hashed, file, sorted)
    ensures sum == start + TotalSize(sorted)
  {
    r, sum := hashed, start;
    var todo := sorted;
    while todo != []
      invariant WithSections(r, file, todo) == WithSections(hashed, file, sorted)
      invariant sum + TotalSize(todo) == start + TotalSize(sorted)
    {
      r := ChunkedHashAll(file, todo[0].offset, todo[0].offset + todo[0].size, r);
      sum := sum + todo[0].size;
      todo := todo[1..];
    }
  }

  method HashParts(file: Bytes, checksum: nat, h: OptionalHeader, sorted: seq<Section>)
      returns (r: Result<Bytes, ImageError>)
    ensures r == HashedParts(file, checksum, h, sorted)
  {
    var headers := HashHeaders(file, checksum, h);
    if headers.Failure? {
      return Failure(headers.error);
    }
    var hashed, sum := HashSections(file, sorted, headers.value, h.sizeOfHeaders);
    if |file| > sum {
      if |file| < sum + CertSize(h) {
        return Failure(ImageTooShort);
      }
      hashed := ChunkedHashAll(file, sum, |file| - CertSize(h), hashed);
    } else {
      assert hashed + [] == hashed;
    }
    return Success(hashed);
  }

  method ComputePeImageDigest(alg: HashAlg, content: Option<Bytes>, decoded: Option<PeFile>)
      returns (r: Result<Digest, ImageError>)
    ensures r == ImageDigest(alg, content, decoded)
  {
    if content.None? {
      return Failure(CannotOpen);
    }
    var file := content.value;
    var coff := CoffHeaderOffset(file);
    if coff.Failure? {
      return Failure(coff.error);
    }
    if decoded.None? {
      return Failure(NotPe);
    }
    if decoded.value.optional.None? {
      return Failure(NoOptionalHeader);
    }
    var sections := SectionTable(decoded.value.sections);
    var hashed := HashParts(file, coff.value + FILE_HEADER_SIZE + BEFORE_CHECKSUM, decoded.value.optional.value,
                            SortByOffset(sections));
    if hashed.Failure? {
      return Failure(hashed.error);
    }
    return Success(Hash(alg, Octets(hashed.value)));
  }

  // ---------------------------------------------------------------- coverage

  /** The sections follow one another without gaps. */
  predicate Tile(ss: seq<Section>, start: nat) {
    ss != [] ==> ss[0].size > 0 && ss[0].offset == start && Tile(ss[1..], start + ss[0].size)
  }

  /** From the checksum to the end of the certificate table entry, if there is one. */
  function ToEntryEnd(h: OptionalHeader): nat {
    if |h.directories| > CERT_TABLE_INDEX then ToCertTable(h.plus) + DIRECTORY_SIZE else 0
  }

  /** An image as the format intends: the headers are complete, the non-empty sections tile the file in some order, and
      after them there is room for the certificate table. `c` is where the checksum is. */
  ghost predicate WellFormed(file: Bytes, pe: PeFile, tiling: seq<Section>, c: nat) {
    && c > 0 && pe.optional.Some?
    && var h := pe.optional.value;
       && c + CHECKSUM_SIZE + ToEntryEnd(h) <= h.sizeOfHeaders
       && multiset(tiling) == multiset(NonEmpty(pe.sections)) && Tile(tiling, h.sizeOfHeaders)
       && h.sizeOfHeaders + TotalSize(tiling) + CertSize(h) <= |file|
  }

  /** Where the checksum is: 64 octets into the optional header, which follows a file header of 20 octets and, after a
      DOS header, the signature that the octets from 0x3c on point at. */
  ghost predicate ChecksumAt(file: Bytes, c: nat) {
    && |file| >= 96
    && if file[..2] == [0x4D, 0x5A] then
         c >= 88 && c - 88 == Uint32(file[0x3c..0x40]) && c - 84 <= |file| && file[c - 88..c - 84] == [0x50, 0x45, 0, 0]
       else c == 84
  }

  lemma {:induction false} ChecksumFound(file: Bytes, c: nat)
    requires ChecksumAt(file, c)
    ensures c >= 84 && CoffHeaderOffset(file) == Success(c - 84)
  {
    assert file[..2] == [file[0], file[1]];
    if file[..2] == [0x4D, 0x5A] {
      var p := c - 88;
      assert file[p..p + 4] == [file[p], file[p + 1], file[p + 2], file[p + 3]];
    }
  }

  lemma {:induction false} TileSorted(ss: seq<Section>, start: nat)
    requires Tile(ss, start)
    ensures StrictlyAscending(ss) && forall i | 0 <= i < |ss| :: start <= ss[i].offset
  {
    if ss != [] {
      TileSorted(ss[1..], start + ss[0].size);
      forall i, j | 0 <= i < j < |ss|
        ensures ss[i].offset < ss[j].offset
      {
        assert ss[j] == ss[1..][j - 1];
        assert i > 0 ==> ss[i] == ss[1..][i - 1];
      }
      forall i | 0 < i < |ss|
        ensures start <= ss[i].offset
      {
        assert ss[i] == ss[1..][i - 1];
      }
    }
  }

  lemma {:induction false} TileBytes(hashed: Bytes, file: Bytes, ss: seq<Section>, start: nat, end: nat)
    requires Tile(ss, start) && end == start + TotalSize(ss) <= |file|
    ensures WithSections(hashed, file, ss) == hashed + file[start..end]
    decreases |ss|
  {
    if ss == [] {
      assert hashed + file[start..end] == hashed;
    } else {
      var mid := start + ss[0].size;
      RangeInside(file, start, mid);
      TileBytes(hashed + file[start..mid], file, ss[1..], mid, end);
      JoinTwo(hashed, file, start, mid, end);
    }
  }

  lemma {:induction false} JoinTwo(hashed: Bytes, file: Bytes, lo: nat, mid: nat, hi: nat)
    requires lo <= mid <= hi <= |file|
    ensures hashed + file[lo..mid] + file[mid..hi] == hashed + file[lo..hi]
  {
    assert file[lo..mid] + file[mid..hi] == file[lo..hi];
  }

  lemma {:induction false} RangeInside(file: Bytes, lo: nat, hi: nat)
    requires lo <= hi <= |file|
    ensures Range(file, lo, hi) == file[lo..hi]
  {
  }

  lemma {:induction false} SortTiling(tiling: seq<Section>, table: seq<Section>, start: nat)
    requires multiset(tiling) == multiset(NonEmpty(table)) && Tile(tiling, start)
    ensures SortByOffset(NonEmpty(table)) == tiling
  {
    TileSorted(tiling, start);
    SortSorts(NonEmpty(table));
    SortedIsUnique(tiling, SortByOffset(NonEmpty(table)));
  }

  lemma {:induction false} ReadInside(file: Bytes, off: nat, limit: nat, n: nat)
    requires off < limit <= |file| && off + n <= limit
    ensures ReadOnce(file, off, limit, n) == Some(file[off..off + n])
  {
    assert file[off..off + n] + Zeroes(0) == file[off..off + n];
  }

  /** What is hashed before the rest of the headers, and where that rest starts. */
  ghost function HeadPart(file: Bytes, c: nat, h: OptionalHeader): Bytes
    requires c + CHECKSUM_SIZE + ToEntryEnd(h) <= |file|
  {
    var rest := c + CHECKSUM_SIZE;
    if |h.directories| <= CERT_TABLE_INDEX then file[..c] else file[..c] + file[rest..rest + ToCertTable(h.plus)]
  }

  /** The file without the checksum, which starts at `c`, the certificate table entry, and as many octets at its end
      as the certificate table has. These are the table if it comes last; the address of the table is never looked
      at. */
  ghost function Covered(file: Bytes, c: nat, h: OptionalHeader): Bytes
    requires c + CHECKSUM_SIZE + ToEntryEnd(h) + CertSize(h) <= |file|
  {
    HeadPart(file, c, h) + file[c + CHECKSUM_SIZE + ToEntryEnd(h)..|file| - CertSize(h)]
  }

  lemma {:induction false} HeaderCovers(file: Bytes, c: nat, h: OptionalHeader, from: nat)
    requires 0 < c && from == c + CHECKSUM_SIZE + ToEntryEnd(h) && from <= h.sizeOfHeaders <= |file|
    ensures HeaderBytes(file, c, h) == Success(HeadPart(file, c, h) + file[from..h.sizeOfHeaders])
  {
    ReadInside(file, 0, h.sizeOfHeaders, c);
    RangeInside(file, from, h.sizeOfHeaders);
    if |h.directories| > CERT_TABLE_INDEX {
      ReadInside(file, c + CHECKSUM_SIZE, h.sizeOfHeaders, ToCertTable(h.plus));
    }
  }

  /** The parts that are hashed make up the covered bytes. */
  lemma {:induction false} PartsCover(file: Bytes, c: nat, h: OptionalHeader, tiling: seq<Section>, from: nat, end: nat,
                                      last: nat)
    requires 0 < c && from == c + CHECKSUM_SIZE + ToEntryEnd(h) <= h.sizeOfHeaders && Tile(tiling, h.sizeOfHeaders)
    requires end == h.sizeOfHeaders + TotalSize(tiling) <= last <= |file| && last == |file| - CertSize(h)
    ensures HashedParts(file, c, h, tiling) == Success(HeadPart(file, c, h) + file[from..last])
  {
    var head := HeadPart(file, c, h);
    HeaderCovers(file, c, h, from);
    TileBytes(head + file[from..h.sizeOfHeaders], file, tiling, h.sizeOfHeaders, end);
    JoinTwo(head, file, from, h.sizeOfHeaders, end);
    ExtraCovers(file, end, CertSize(h), last);
    JoinTwo(head, file, from, end, last);
  }

  lemma {:induction false} ExtraCovers(file: Bytes, sum: nat, certSize: nat, last: nat)
    requires sum <= last <= |file| && last == |file| - certSize
    ensures ExtraBytes(file, sum, certSize) == Success(file[sum..last])
  {
    RangeInside(file, sum, last);
    assert |file| <= sum ==> file[sum..last] == [];
  }

  lemma {:induction false} DigestOfParts(alg: HashAlg, file: Bytes, pe: PeFile, sections: seq<Section>, c: nat,
                                         bytes: Bytes)
    requires ChecksumAt(file, c) && pe.optional.Some? && sections == SortByOffset(NonEmpty(pe.sections))
    requires HashedParts(file, c, pe.optional.value, sections) == Success(bytes)
    ensures ImageDigest(alg, Some(file), Some(pe)) == Success(Hash(alg, Octets(bytes)))
  {
    ChecksumFound(file, c);
  }

  lemma {:induction false} TilingCovers(file: Bytes, h: OptionalHeader, tiling: seq<Section>, c: nat)
    requires c > 0 && c + CHECKSUM_SIZE + ToEntryEnd(h) <= h.sizeOfHeaders
    requires Tile(tiling, h.sizeOfHeaders) && h.sizeOfHeaders + TotalSize(tiling) + CertSize(h) <= |file|
    ensures HashedParts(file, c, h, tiling) == Success(Covered(file, c, h))
  {
    PartsCover(file, c, h, tiling, c + CHECKSUM_SIZE + ToEntryEnd(h), h.sizeOfHeaders + TotalSize(tiling),
               |file| - CertSize(h));
  }

  /** In any order of the section table, the digest covers the whole file except for the three excluded parts. */
  lemma {:induction false} DigestCovers(alg: HashAlg, file: Bytes, pe: PeFile, tiling: seq<Section>, c: nat)
    requires WellFormed(file, pe, tiling, c) && ChecksumAt(file, c)
    ensures ImageDigest(alg, Some(file), Some(pe)) == Success(Hash(alg, Octets(Covered(file, c, pe.optional.value))))
  {
    ChecksumFound(file, c);
    SortTiling(tiling, pe.sections, pe.optional.value.sizeOfHeaders);
    TilingCovers(file, pe.optional.value, tiling, c);
    DigestOfParts(alg, file, pe, tiling, c, Covered(file, c, pe.optional.value));
  }

  /** Two images have the same digest exactly when they agree on everything but the three excluded parts. */
  lemma {:induction false} SameDigestExactly(alg: HashAlg, file1: Bytes, pe1: PeFile, tiling1: seq<Section>, c1: nat,
                                             file2: Bytes, pe2: PeFile, tiling2: seq<Section>, c2: nat)
    requires WellFormed(file1, pe1, tiling1, c1) && ChecksumAt(file1, c1)
    requires WellFormed(file2, pe2, tiling2, c2) && ChecksumAt(file2, c2)
    ensures ImageDigest(alg, Some(file1), Some(pe1)) == ImageDigest(alg, Some(file2), Some(pe2)) <==>
            Covered(file1, c1, pe1.optional.value) == Covered(file2, c2, pe2.optional.value)
  {
    DigestCovers(alg, file1, pe1, tiling1, c1);
    DigestCovers(alg, file2, pe2, tiling2, c2);
    var bytes1 := Covered(file1, c1, pe1.optional.value);
    var bytes2 := Covered(file2, c2, pe2.optional.value);
    if Octets(bytes1) == Octets(bytes2) {
      OctetsInjective(bytes1, bytes2);
    }
  }

  /** Even for other images, the order of the section table does not matter if the non-empty sections start at
      different offsets. */
  lemma {:induction false} SectionOrderIsIrrelevant(alg: HashAlg, content: Option<Bytes>,
                                                    optional: Option<OptionalHeader>, table1: seq<Section>,
                                                    table2: seq<Section>, sorted: seq<Section>)
    requires StrictlyAscending(sorted)
    requires multiset(sorted) == multiset(NonEmpty(table1)) == multiset(NonEmpty(table2))
    ensures ImageDigest(alg, content, Some(PeFile(optional, table1))) ==
            ImageDigest(alg, content, Some(PeFile(optional, table2)))
  {
    SortSorts(NonEmpty(table1));
    SortSorts(NonEmpty(table2));
    SortedIsUnique(sorted, SortByOffset(NonEmpty(table1)));
    SortedIsUnique(sorted, SortByOffset(NonEmpty(table2)));
  }

  /** Where the certificate table entry is: the fifth data directory, which PE32 has 60 octets after the checksum and
      PE32+ 76. */
  ghost function EntryAt(h: OptionalHeader, c: nat): nat {
    if h.plus then c + 80 else c + 64
  }

  /** An octet that the digest does not cover. */
  ghost predicate Excluded(file: Bytes, c: nat, h: OptionalHeader, j: nat) {
    || c <= j < c + 4
    || (|h.directories| > 4 && EntryAt(h, c) <= j < EntryAt(h, c) + 8)
    || (|h.directories| > 4 && |file| - h.directories[4].size <= j)
  }

  /** The octets from position j on that are covered. */
  ghost function CoveredFrom(file: Bytes, c: nat, h: OptionalHeader, j: nat): Bytes
    requires j <= |file|
    decreases |file| - j
  {
    if j == |file| then []
    else (if Excluded(file, c, h, j) then [] else [file[j]]) + CoveredFrom(file, c, h, j + 1)
  }

  lemma {:induction false} CoveredRun(file: Bytes, c: nat, h: OptionalHeader, j: nat, end: nat)
    requires j <= end <= |file| && forall i | j <= i < end :: !Excluded(file, c, h, i)
    ensures CoveredFrom(file, c, h, j) == file[j..end] + CoveredFrom(file, c, h, end)
    decreases end - j
  {
    if j < end {
      CoveredRun(file, c, h, j + 1, end);
      assert !Excluded(file, c, h, j);
      assert [file[j]] + file[j + 1..end] == file[j..end];
      Regroup([file[j]], file[j + 1..end], CoveredFrom(file, c, h, end));
    } else {
      assert file[j..end] == [];
    }
  }

  lemma {:induction false} ExcludedRun(file: Bytes, c: nat, h: OptionalHeader, j: nat, end: nat)
    requires j <= end <= |file| && forall i | j <= i < end :: Excluded(file, c, h, i)
    ensures CoveredFrom(file, c, h, j) == CoveredFrom(file, c, h, end)
    decreases end - j
  {
    if j < end {
      ExcludedRun(file, c, h, j + 1, end);
      assert Excluded(file, c, h, j);
    }
  }

  /** The end of the file, where the certificate table is expected. */
  lemma {:induction false} CoveredEnd(file: Bytes, c: nat, h: OptionalHeader, end: nat)
    requires end == |file| - CertSize(h) && c + 4 <= end
    ensures CoveredFrom(file, c, h, end) == []
  {
    ExcludedRun(file, c, h, end, |file|);
  }

  lemma {:induction false} CoveredWithEntry(file: Bytes, c: nat, h: OptionalHeader, entry: nat, end: nat)
    requires |h.directories| > 4 && entry == EntryAt(h, c) && end == |file| - CertSize(h) && entry + 8 <= end
    ensures CoveredFrom(file, c, h, 0) == file[..c] + file[c + 4..entry] + file[entry + 8..end]
  {
    CoveredRun(file, c, h, 0, c);
    ExcludedRun(file, c, h, c, c + 4);
    CoveredRun(file, c, h, c + 4, entry);
    ExcludedRun(file, c, h, entry, entry + 8);
    CoveredRun(file, c, h, entry + 8, end);
    CoveredEnd(file, c, h, end);
    Ends(file[..c], file[c + 4..entry], file[entry + 8..end]);
    assert file[0..c] == file[..c];
  }

  lemma {:induction false} CoveredWithoutEntry(file: Bytes, c: nat, h: OptionalHeader)
    requires |h.directories| <= 4 && c + 4 <= |file|
    ensures CoveredFrom(file, c, h, 0) == file[..c] + file[c + 4..]
  {
    CoveredRun(file, c, h, 0, c);
    ExcludedRun(file, c, h, c, c + 4);
    CoveredRun(file, c, h, c + 4, |file|);
    assert file[0..c] == file[..c] && file[c + 4..|file|] + [] == file[c + 4..];
  }

  lemma {:induction false} Ends(a: Bytes, b: Bytes, d: Bytes)
    ensures a + (b + (d + [])) == a + b + d
  {
    Regroup(a, b, d);
    assert d + [] == d;
  }

  /** The covered octets, one by one. */
  lemma {:induction false} CoveredExactly(file: Bytes, c: nat, h: OptionalHeader)
    requires c + CHECKSUM_SIZE + ToEntryEnd(h) + CertSize(h) <= |file|
    ensures Covered(file, c, h) == CoveredFrom(file, c, h, 0)
  {
    if |h.directories| > 4 {
      CoveredWithEntry(file, c, h, EntryAt(h, c), |file| - CertSize(h));
    } else {
      CoveredWithoutEntry(file, c, h);
    }
  }

  // ------------------------------------------------------------- the failures

  lemma {:induction false} InsertSize(s: Section, sorted: seq<Section>)
    ensures TotalSize(Insert(s, sorted)) == s.size + TotalSize(sorted)
  {
    if sorted != [] && s.offset > sorted[0].offset {
      InsertSize(s, sorted[1..]);
    }
  }

  /** Neither leaving out empty sections nor sorting changes the sum of the sizes. */
  lemma {:induction false} SizesStay(sections: seq<Section>)
    ensures TotalSize(SortByOffset(NonEmpty(sections))) == TotalSize(sections)
  {
    if sections != [] {
      var rest := NonEmpty(sections[1..]);
      SizesStay(sections[1..]);
      if sections[0].size == 0 {
        assert [] + rest == rest;
      } else {
        assert ([sections[0]] + rest)[1..] == rest;
        InsertSize(sections[0], SortByOffset(rest));
      }
    }
  }

  /** The file or its headers end before the fields that have to be skipped. */
  ghost predicate HeadersCut(file: Bytes, h: OptionalHeader, c: nat) {
    || h.sizeOfHeaders == 0 || |file| < Min(c, h.sizeOfHeaders)
    || (|h.directories| > 4 && (h.sizeOfHeaders <= c + 4 || |file| < Min(EntryAt(h, c), h.sizeOfHeaders)))
  }

  /** The file has something after its sections, but not enough for the certificate table. */
  ghost predicate TableCut(file: Bytes, pe: PeFile, h: OptionalHeader) {
    var end := h.sizeOfHeaders + TotalSize(pe.sections);
    end < |file| && |h.directories| > 4 && |file| < end + h.directories[4].size
  }

  /** An image whose headers could be decoded fails to be hashed exactly if it is too short. */
  lemma {:induction false} FailsExactly(file: Bytes, pe: PeFile, c: nat)
    requires ChecksumAt(file, c) && pe.optional.Some?
    ensures
      var r, h := HashedBytes(Some(file), Some(pe)), pe.optional.value;
      && (r == Failure(ShortHeaders) <==> HeadersCut(file, h, c))
      && (r == Failure(ImageTooShort) <==> !HeadersCut(file, h, c) && TableCut(file, pe, h))
      && (r.Success? <==> !HeadersCut(file, h, c) && !TableCut(file, pe, h))
  {
    ChecksumFound(file, c);
    SizesStay(pe.sections);
    HeadersFail(file, pe.optional.value, c);
  }

  lemma {:induction false} HeadersFail(file: Bytes, h: OptionalHeader, c: nat)
    requires c > 0
    ensures if HeadersCut(file, h, c) then HeaderBytes(file, c, h) == Failure(ShortHeaders)
            else HeaderBytes(file, c, h).Success?
  {
  }
}
