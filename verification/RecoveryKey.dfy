/** Recovery keys as text: eight groups of five digits. */
module RecoveryKey {
  import opened Digests

  const GROUPS := 8
  const KEY_SIZE := 16
  const LIMIT := 0x10000

  // ------------------------------------------------------------------ digits

  function Digit(n: nat): char
    requires n < 10
  {
    '0' + n as char
  }

  predicate IsDigit(c: char) {
    '0' <= c <= '9'
  }

  function DigitValue(c: char): (n: nat)
    requires IsDigit(c)
    ensures n < 10
  {
    (c - '0') as nat
  }

  /** A number in decimal, with `w` digits. */
  function Decimal(n: nat, w: nat): (s: string)
    ensures |s| == w
    decreases w
  {
    if w == 0 then "" else Decimal(n / 10, w - 1) + [Digit(n % 10)]
  }

  predicate AllDigits(s: string) {
    s == "" || (AllDigits(s[..|s| - 1]) && IsDigit(s[|s| - 1]))
  }

  function Value(s: string): nat
    requires AllDigits(s)
  {
    if s == "" then 0 else 10 * Value(s[..|s| - 1]) + DigitValue(s[|s| - 1])
  }

  function Pow10(w: nat): nat {
    if w == 0 then 1 else 10 * Pow10(w - 1)
  }

  lemma {:induction false} ValueOfDecimal(n: nat, w: nat)
    requires n < Pow10(w)
    ensures AllDigits(Decimal(n, w)) && Value(Decimal(n, w)) == n
    decreases w
  {
    if w > 0 {
      ValueOfDecimal(n / 10, w - 1);
      var s := Decimal(n, w);
      assert s[..w - 1] == Decimal(n / 10, w - 1);
      DigitRoundTrip(n % 10);
    }
  }

  lemma {:induction false} DecimalOfValue(s: string)
    requires AllDigits(s)
    ensures Decimal(Value(s), |s|) == s
    decreases |s|
  {
    if s != "" {
      var init := s[..|s| - 1];
      DecimalOfValue(init);
      LastDigit(Value(init), DigitValue(s[|s| - 1]));
      CharRoundTrip(s[|s| - 1]);
      assert s == init + [s[|s| - 1]];
    }
  }

  lemma {:induction false} FirstDigit(s: string)
    requires AllDigits(s) && s != ""
    ensures IsDigit(s[0])
    decreases |s|
  {
    if |s| > 1 {
      FirstDigit(s[..|s| - 1]);
    }
  }

  lemma {:induction false} LastDigit(m: nat, d: nat)
    requires d < 10
    ensures (10 * m + d) / 10 == m && (10 * m + d) % 10 == d
  {
  }

  lemma {:induction false} DigitRoundTrip(n: nat)
    requires n < 10
    ensures IsDigit(Digit(n)) && DigitValue(Digit(n)) == n
  {
  }

  lemma {:induction false} CharRoundTrip(c: char)
    requires IsDigit(c)
    ensures Digit(DigitValue(c)) == c
  {
  }

  const GROUP_SIZE := 5

  lemma {:induction false} GroupsAreWideEnough()
    ensures LIMIT <= Pow10(GROUP_SIZE)
  {
    assert Pow10(1) == 10;
    assert Pow10(2) == 100;
    assert Pow10(3) == 1000;
    assert Pow10(4) == 10000;
  }

  function FiveDigits(n: nat): (s: string)
    ensures |s| == GROUP_SIZE
  {
    Decimal(n, GROUP_SIZE)
  }

  /** A decimal number that fits into 16 bits. */
  function ParseGroup(s: string): (r: Option<nat>)
    ensures r.Some? ==> r.value < LIMIT
  {
    if AllDigits(s) && Value(s) < LIMIT then Some(Value(s)) else None
  }

  lemma {:induction false} ParseWritten(n: nat)
    requires n < LIMIT
    ensures ParseGroup(FiveDigits(n)) == Some(n)
  {
    GroupsAreWideEnough();
    ValueOfDecimal(n, GROUP_SIZE);
  }

  lemma {:induction false} WrittenParsed(s: string)
    requires |s| == GROUP_SIZE && ParseGroup(s).Some?
    ensures FiveDigits(ParseGroup(s).value) == s
  {
    DecimalOfValue(s);
  }

  // ------------------------------------------------------------------ groups

  /** Groups of digits, with a dash between two of them where `dashes` says so. */
  function Spelled(groups: seq<nat>, dashes: seq<bool>): string
    requires groups != [] && |dashes| == |groups| - 1 && AllFit(groups)
  {
    if |groups| == 1 then FiveDigits(groups[0])
    else FiveDigits(groups[0]) + (if dashes[0] then "-" else "") + Spelled(groups[1..], dashes[1..])
  }

  function AfterDash(s: string): string {
    if |s| > 1 && s[0] == '-' then s[1..] else s
  }

  /** The parser: `n` groups, and nothing after them. */
  function ParseGroups(s: string, n: nat): (r: Option<seq<nat>>)
    ensures r.Some? ==> |r.value| == n && AllFit(r.value)
  {
    if n == 0 then if s == "" then Some([]) else None
    else if |s| < GROUP_SIZE then None
    else
      match ParseGroup(s[..GROUP_SIZE])
      case None => None
      case Some(x) =>
        match ParseGroups(AfterDash(s[GROUP_SIZE..]), n - 1)
        case None => None
        case Some(xs) => Some([x] + xs)
  }

  predicate AllFit(groups: seq<nat>) {
    forall i | 0 <= i < |groups| :: groups[i] < LIMIT
  }

  lemma {:induction false} StartsWithDigit(n: nat, rest: string)
    requires n < LIMIT
    ensures
      var s := FiveDigits(n) + rest;
      s[..GROUP_SIZE] == FiveDigits(n) && s[GROUP_SIZE..] == rest && IsDigit(s[0])
  {
    GroupsAreWideEnough();
    ValueOfDecimal(n, GROUP_SIZE);
    FirstDigit(FiveDigits(n));
  }

  lemma {:induction false} SkipDash(dash: bool, rest: string)
    requires rest != "" && rest[0] != '-'
    ensures AfterDash((if dash then "-" else "") + rest) == rest
  {
    assert !dash ==> "" + rest == rest;
    assert dash ==> ("-" + rest)[1..] == rest;
  }

  lemma {:induction false} NoDash(s: string)
    ensures AfterDash(s) == "" <==> s == ""
    ensures s == (if |s| > 1 && s[0] == '-' then "-" else "") + AfterDash(s)
  {
  }

  lemma {:induction false} ParseStep(x: nat, rest: string, n: nat, xs: seq<nat>)
    requires x < LIMIT && ParseGroups(AfterDash(rest), n) == Some(xs)
    ensures ParseGroups(FiveDigits(x) + rest, n + 1) == Some([x] + xs)
  {
    StartsWithDigit(x, rest);
    ParseWritten(x);
  }

  lemma {:induction false} SpelledParts(groups: seq<nat>, dashes: seq<bool>)
    requires |groups| > 1 && |dashes| == |groups| - 1 && AllFit(groups)
    ensures Spelled(groups, dashes) ==
            FiveDigits(groups[0]) + ((if dashes[0] then "-" else "") + Spelled(groups[1..], dashes[1..]))
  {
    Regroup(FiveDigits(groups[0]), if dashes[0] then "-" else "", Spelled(groups[1..], dashes[1..]));
  }

  lemma {:induction false} SpelledStart(groups: seq<nat>, dashes: seq<bool>)
    requires groups != [] && |dashes| == |groups| - 1 && AllFit(groups)
    ensures Spelled(groups, dashes) != "" && IsDigit(Spelled(groups, dashes)[0])
  {
    if |groups| == 1 {
      StartsWithDigit(groups[0], "");
    } else {
      SpelledParts(groups, dashes);
      StartsWithDigit(groups[0], (if dashes[0] then "-" else "") + Spelled(groups[1..], dashes[1..]));
    }
  }

  lemma {:induction false} ParseOne(x: nat)
    requires x < LIMIT
    ensures ParseGroups(FiveDigits(x), 1) == Some([x])
  {
    assert ParseGroups(AfterDash(""), 0) == Some([]);
    ParseStep(x, "", 0, []);
    assert FiveDigits(x) + "" == FiveDigits(x) && [x] + [] == [x];
  }

  lemma {:induction false} ParseSpelled(groups: seq<nat>, dashes: seq<bool>)
    requires groups != [] && |dashes| == |groups| - 1 && AllFit(groups)
    ensures ParseGroups(Spelled(groups, dashes), |groups|) == Some(groups)
    decreases |groups|
  {
    if |groups| == 1 {
      ParseOne(groups[0]);
      assert groups == [groups[0]];
    } else {
      ParseSpelled(groups[1..], dashes[1..]);
      ParseSpelledFirst(groups, dashes, groups[1..], dashes[1..]);
    }
  }

  lemma {:induction false} ParseSpelledFirst(groups: seq<nat>, dashes: seq<bool>, others: seq<nat>,
                                             otherDashes: seq<bool>)
    requires |groups| > 1 && |dashes| == |groups| - 1 && AllFit(groups) && others == groups[1..] &&
             otherDashes == dashes[1..]
    requires ParseGroups(Spelled(others, otherDashes), |others|) == Some(others)
    ensures ParseGroups(Spelled(groups, dashes), |groups|) == Some(groups)
  {
    var rest := Spelled(others, otherDashes);
    SpelledStart(others, otherDashes);
    SpelledParts(groups, dashes);
    ParseMore(groups[0], dashes[0], rest, |others|, others);
    assert [groups[0]] + others == groups;
  }

  lemma {:induction false} ParseMore(x: nat, dash: bool, rest: string, n: nat, xs: seq<nat>)
    requires x < LIMIT && rest != "" && rest[0] != '-' && ParseGroups(rest, n) == Some(xs)
    ensures ParseGroups(FiveDigits(x) + ((if dash then "-" else "") + rest), n + 1) == Some([x] + xs)
  {
    SkipDash(dash, rest);
    ParseStep(x, (if dash then "-" else "") + rest, n, xs);
  }

  lemma {:induction false} ParsedIsSpelled(s: string, n: nat) returns (dashes: seq<bool>)
    requires n > 0 && ParseGroups(s, n).Some?
    ensures |dashes| == n - 1 && s == Spelled(ParseGroups(s, n).value, dashes)
    decreases n
  {
    var groups := ParseGroups(s, n).value;
    var rest := s[GROUP_SIZE..];
    WrittenParsed(s[..GROUP_SIZE]);
    assert s == s[..GROUP_SIZE] + rest;
    NoDash(rest);
    if n == 1 {
      assert rest == "";
      dashes := [];
    } else {
      var more := ParsedIsSpelled(AfterDash(rest), n - 1);
      var dash := |rest| > 1 && rest[0] == '-';
      dashes := [dash] + more;
      assert dashes[1..] == more && groups[1..] == ParseGroups(AfterDash(rest), n - 1).value;
      SpelledParts(groups, dashes);
    }
  }

  // ------------------------------------------------------------------- keys

  type Key = seq<byte>

  function Uint16At(k: Key, i: nat): (n: nat)
    requires 2 * i + 1 < |k|
    ensures n < LIMIT
  {
    k[2 * i] as nat + 0x100 * k[2 * i + 1] as nat
  }

  function GroupsOf(k: Key): (r: seq<nat>)
    requires |k| == KEY_SIZE
    ensures |r| == GROUPS && forall i | 0 <= i < GROUPS :: r[i] == Uint16At(k, i)
  {
    seq(GROUPS, i requires 0 <= i < GROUPS => Uint16At(k, i))
  }

  function Low(n: nat): byte {
    (n % 0x100) as byte
  }

  function High(n: nat): byte
    requires n < LIMIT
  {
    (n / 0x100) as byte
  }

  function KeyOf(groups: seq<nat>): (k: Key)
    requires AllFit(groups)
    ensures |k| == 2 * |groups|
  {
    if groups == [] then []
    else KeyOf(groups[..|groups| - 1]) + [Low(groups[|groups| - 1]), High(groups[|groups| - 1])]
  }

  lemma {:induction false} KeyOfAt(groups: seq<nat>, i: nat)
    requires AllFit(groups) && i < |groups|
    ensures KeyOf(groups)[2 * i] == Low(groups[i]) && KeyOf(groups)[2 * i + 1] == High(groups[i])
    decreases |groups|
  {
    if i < |groups| - 1 {
      KeyOfAt(groups[..|groups| - 1], i);
    }
  }

  const DASHES: seq<bool> := [true, true, true, true, true, true, true]

  /** The text of a key. */
  function KeyText(k: Key): string
    requires |k| == KEY_SIZE
  {
    Spelled(GroupsOf(k), DASHES)
  }

  function ParseKey(s: string): (r: Option<Key>)
    ensures r.Some? ==> |r.value| == KEY_SIZE
  {
    match ParseGroups(s, GROUPS)
    case None => None
    case Some(groups) => Some(KeyOf(groups))
  }

  lemma {:induction false} OctetsOfGroup(lo: byte, hi: byte)
    ensures Low(lo as nat + 0x100 * hi as nat) == lo && High(lo as nat + 0x100 * hi as nat) == hi
  {
  }

  lemma {:induction false} KeyOfGroups(k: Key)
    requires |k| == KEY_SIZE
    ensures KeyOf(GroupsOf(k)) == k
  {
    var r := KeyOf(GroupsOf(k));
    forall j | 0 <= j < KEY_SIZE
      ensures r[j] == k[j]
    {
      var i := j / 2;
      KeyOfAt(GroupsOf(k), i);
      OctetsOfGroup(k[2 * i], k[2 * i + 1]);
      assert j == 2 * i || j == 2 * i + 1;
    }
  }

  lemma {:induction false} GroupsOfKey(groups: seq<nat>)
    requires |groups| == GROUPS && AllFit(groups)
    ensures GroupsOf(KeyOf(groups)) == groups
  {
    forall i | 0 <= i < GROUPS
      ensures GroupsOf(KeyOf(groups))[i] == groups[i]
    {
      KeyOfAt(groups, i);
      assert groups[i] == groups[i] % 0x100 + 0x100 * (groups[i] / 0x100);
    }
  }

  /** Parsing the text of a key gives the key. */
  lemma {:induction false} ParseText(k: Key)
    requires |k| == KEY_SIZE
    ensures ParseKey(KeyText(k)) == Some(k)
  {
    ParseSpelled(GroupsOf(k), DASHES);
    KeyOfGroups(k);
  }

  /** The parser accepts exactly eight groups of five digits that fit into 16 bits, with at most one dash between two
      groups and none before or after them. */
  lemma {:induction false} AcceptsExactly(s: string, k: Key)
    requires |k| == KEY_SIZE
    ensures ParseKey(s) == Some(k) <==>
            exists dashes: seq<bool> :: |dashes| == GROUPS - 1 && s == Spelled(GroupsOf(k), dashes)
  {
    if ParseKey(s) == Some(k) {
      var dashes := ParsedIsSpelled(s, GROUPS);
      GroupsOfKey(ParseGroups(s, GROUPS).value);
      assert s == Spelled(GroupsOf(k), dashes);
    }
    if dashes: seq<bool> :| |dashes| == GROUPS - 1 && s == Spelled(GroupsOf(k), dashes) {
      ParseSpelled(GroupsOf(k), dashes);
      KeyOfGroups(k);
    }
  }

  function Undashed(s: string): string {
    if s == "" then "" else (if s[0] == '-' then "" else [s[0]]) + Undashed(s[1..])
  }

  lemma {:induction false} UndashedConcat(a: string, b: string)
    ensures Undashed(a + b) == Undashed(a) + Undashed(b)
    decreases |a|
  {
    if a == "" {
      assert a + b == b;
    } else {
      assert (a + b)[1..] == a[1..] + b;
      UndashedConcat(a[1..], b);
    }
  }

  lemma {:induction false} UndashedSpelled(groups: seq<nat>, dashes: seq<bool>, dashes': seq<bool>)
    requires groups != [] && |dashes| == |dashes'| == |groups| - 1 && forall i | 0 <= i < |groups| :: groups[i] < LIMIT
    ensures Undashed(Spelled(groups, dashes)) == Undashed(Spelled(groups, dashes'))
    decreases |groups|
  {
    if |groups| > 1 {
      var first := FiveDigits(groups[0]);
      UndashedSpelled(groups[1..], dashes[1..], dashes'[1..]);
      DashVanishes(first, dashes[0], Spelled(groups[1..], dashes[1..]));
      DashVanishes(first, dashes'[0], Spelled(groups[1..], dashes'[1..]));
    }
  }

  lemma {:induction false} DashVanishes(first: string, dash: bool, rest: string)
    ensures Undashed(first + (if dash then "-" else "") + rest) == Undashed(first) + Undashed(rest)
  {
    UndashedConcat(first + (if dash then "-" else ""), rest);
    UndashedConcat(first, if dash then "-" else "");
    assert Undashed("-") == "" && Undashed("") == "";
  }

  /** Apart from dashes, a text that is accepted is the text of the key it stands for. */
  lemma {:induction false} AcceptedIsText(s: string)
    requires ParseKey(s).Some?
    ensures Undashed(s) == Undashed(KeyText(ParseKey(s).value))
  {
    var k := ParseKey(s).value;
    AcceptsExactly(s, k);
    var dashes: seq<bool> :| |dashes| == GROUPS - 1 && s == Spelled(GroupsOf(k), dashes);
    UndashedSpelled(GroupsOf(k), dashes, DASHES);
  }

  // ------------------------------------------------------- the text, by position

  ghost predicate AllDashed(dashes: seq<bool>) {
    forall i | 0 <= i < |dashes| :: dashes[i]
  }

  /** With all dashes, group i is written at position 6 * i, and a dash follows every group but the last. */
  lemma {:induction false} SpelledAt(groups: seq<nat>, dashes: seq<bool>, i: nat)
    requires groups != [] && |dashes| == |groups| - 1 && AllFit(groups) && AllDashed(dashes) && i < |groups|
    ensures |Spelled(groups, dashes)| == 6 * |groups| - 1
    ensures Spelled(groups, dashes)[6 * i..6 * i + 5] == FiveDigits(groups[i])
    ensures i < |groups| - 1 ==> Spelled(groups, dashes)[6 * i + 5] == '-'
    decreases |groups|
  {
    if |groups| > 1 {
      var rest := Spelled(groups[1..], dashes[1..]);
      assert Spelled(groups, dashes) == FiveDigits(groups[0]) + "-" + rest;
      SpelledAt(groups[1..], dashes[1..], if i == 0 then 0 else i - 1);
      FirstGroup(FiveDigits(groups[0]), rest);
      if i > 0 {
        LaterGroup(FiveDigits(groups[0]), rest, 6 * (i - 1));
      }
    }
  }

  lemma {:induction false} FirstGroup(first: string, rest: string)
    requires |first| == 5
    ensures |first + "-" + rest| == 6 + |rest|
    ensures (first + "-" + rest)[0..5] == first && (first + "-" + rest)[5] == '-'
  {
  }

  lemma {:induction false} LaterGroup(first: string, rest: string, j: nat)
    requires |first| == 5 && j + 5 <= |rest|
    ensures (first + "-" + rest)[6 + j..6 + j + 5] == rest[j..j + 5]
    ensures j + 5 < |rest| ==> (first + "-" + rest)[6 + j + 5] == rest[j + 5]
  {
  }

  /** The text of a key: eight groups of five digits for the little-endian 16-bit numbers, and seven dashes. */
  lemma {:induction false} TextAt(k: Key, i: nat)
    requires |k| == 16 && i < 8
    ensures |KeyText(k)| == 47
    ensures AllDigits(KeyText(k)[6 * i..6 * i + 5])
    ensures Value(KeyText(k)[6 * i..6 * i + 5]) == k[2 * i] as nat + 256 * k[2 * i + 1] as nat
    ensures i < 7 ==> KeyText(k)[6 * i + 5] == '-'
  {
    SpelledAt(GroupsOf(k), DASHES, i);
    ParseWritten(GroupsOf(k)[i]);
  }

  // ------------------------------------------------------------ the programs

  method ToString(k: array<byte>) returns (s: string)
    requires k.Length == KEY_SIZE
    ensures s == KeyText(k[..])
  {
    var groups := new nat[GROUPS];
    for i := 0 to GROUPS
      invariant forall j | 0 <= j < i :: groups[j] == Uint16At(k[..], j)
    {
      groups[i] := k[2 * i] as nat + 0x100 * k[2 * i + 1] as nat;
    }
    assert groups[..] == GroupsOf(k[..]);
    s := Spelled(groups[..], DASHES);
  }

  /** The groups that were read, and those still to be read. */
  ghost function ParsedFrom(read: seq<nat>, s: string, n: nat): Option<seq<nat>> {
    match ParseGroups(s, n) { case None => None case Some(more) => Some(read + more) }
  }

  lemma {:induction false} ParsedStep(read: seq<nat>, s: string, n: nat, x: nat)
    requires n > 0 && |s| >= GROUP_SIZE && ParseGroup(s[..GROUP_SIZE]) == Some(x)
    ensures ParsedFrom(read, s, n) == ParsedFrom(read + [x], AfterDash(s[GROUP_SIZE..]), n - 1)
  {
    var more := ParseGroups(AfterDash(s[GROUP_SIZE..]), n - 1);
    if more.Some? {
      Regroup(read, [x], more.value);
    }
  }

  /** Stores a 16-bit number, least significant octet first. */
  method PutUint16(out: array<byte>, i: nat, x: nat, ghost read: seq<nat>)
    requires 2 * i + 1 < out.Length && x < LIMIT && AllFit(read) && |read| == i && out[..2 * i] == KeyOf(read)
    modifies out
    ensures AllFit(read + [x]) && out[..2 * i + 2] == KeyOf(read + [x])
  {
    out[2 * i] := Low(x);
    out[2 * i + 1] := High(x);
    assert (read + [x])[..i] == read;
    assert out[..2 * i + 2] == out[..2 * i] + [Low(x), High(x)];
  }

  /** Reads one group, and skips a dash after it. */
  method ParseNext(out: array<byte>, i: nat, s: string, ghost read: seq<nat>, ghost n: nat)
      returns (s': string, ok: bool, x: nat)
    requires 2 * i + 1 < out.Length && AllFit(read) && |read| == i && out[..2 * i] == KeyOf(read) && n > 0
    modifies out
    ensures !ok ==> ParsedFrom(read, s, n) == None
    ensures ok ==> AllFit(read + [x]) && out[..2 * (i + 1)] == KeyOf(read + [x])
    ensures ok ==> ParsedFrom(read, s, n) == ParsedFrom(read + [x], s', n - 1)
  {
    if |s| < GROUP_SIZE {
      return "", false, 0;
    }
    var group := ParseGroup(s[..GROUP_SIZE]);
    if group.None? {
      return "", false, 0;
    }
    x := group.value;
    ParsedStep(read, s, n, x);
    PutUint16(out, i, x, read);
    s' := s[GROUP_SIZE..];
    if |s'| > 1 && s'[0] == '-' {
      s' := s'[1..];
    }
    ok := true;
  }

  /** Reads groups from the front of the text, and fills the key. */
  method ParseInto(out: array<byte>, text: string, n: nat) returns (ok: bool)
    requires out.Length == 2 * n
    modifies out
    ensures ok <==> ParseGroups(text, n).Some?
    ensures ok ==> out[..] == KeyOf(ParseGroups(text, n).value)
  {
    var s := text;
    ghost var read: seq<nat> := [];
    ghost var whole := ParseGroups(text, n);
    StartParsing(text, n);
    assert out[..0] == KeyOf([]);
    for i := 0 to n
      invariant |read| == i && AllFit(read)
      invariant whole == ParsedFrom(read, s, n - i)
      invariant out[..2 * i] == KeyOf(read)
    {
      var x;
      s, ok, x := ParseNext(out, i, s, read, n - i);
      if !ok {
        return;
      }
      read := read + [x];
    }
    DoneParsing(read, s);
    assert out[..2 * n] == out[..];
    return |s| == 0;
  }

  lemma {:induction false} StartParsing(text: string, n: nat)
    ensures ParseGroups(text, n) == ParsedFrom([], text, n)
  {
    var whole := ParseGroups(text, n);
    assert whole.Some? ==> [] + whole.value == whole.value;
  }

  lemma {:induction false} DoneParsing(read: seq<nat>, s: string)
    ensures ParsedFrom(read, s, 0) == if s == "" then Some(read) else None
  {
    assert read + [] == read;
  }

  /** Parses a key; text that is not accepted leads to a key of zeroes. */
  method ParseRecoveryKey(text: string) returns (out: array<byte>, ok: bool)
    ensures out.Length == KEY_SIZE
    ensures ok <==> ParseKey(text).Some?
    ensures ok ==> out[..] == ParseKey(text).value
    ensures !ok ==> forall i | 0 <= i < KEY_SIZE :: out[i] == 0
  {
    out := new byte[KEY_SIZE](_ => 0);
    ok := ParseInto(out, text, GROUPS);
    if !ok {
      out := new byte[KEY_SIZE](_ => 0);
    }
  }
}
