/** The fingerprint of a set of files: the text that is hashed, and what it tells apart. */
module Fingerprint {
  import opened Octets
  import opened Wrappers

  datatype File = File(infoHash: Bytes, size: int, deleted: bool, byteRange: Option<(int, int)>,
                       addedOn: int, path: Bytes)

  type Files = map<Bytes, File>

  // ----- decimal numbers, as FormatInt writes them -----

  const MINUS: byte := 0x2D
  const COLON: byte := 0x3A
  const ZERO: byte := 0x30

  function Digits(n: nat): (d: Bytes)
    ensures d != [] && forall i :: 0 <= i < |d| ==> ZERO <= d[i] < COLON
  {
    (if n < 10 then [] else Digits(n / 10)) + [(0x30 + n % 10) as byte]
  }

  function Decimal(n: int): (d: Bytes)
    ensures d != [] && forall i :: 0 <= i < |d| ==> MINUS <= d[i] < COLON
  {
    if n < 0 then [MINUS] + Digits(-n) else Digits(n)
  }

  lemma {:induction false} DigitsInjective(m: nat, n: nat)
    requires Digits(m) == Digits(n)
    ensures m == n
    decreases m
  {
    DigitsParts(m);
    DigitsParts(n);
    if m >= 10 {
      DigitsInjective(m / 10, n / 10);
    }
  }

  lemma DigitsParts(n: nat)
    ensures Digits(n)[|Digits(n)| - 1] as int == 0x30 + n % 10
    ensures Digits(n)[..|Digits(n)| - 1] == if n < 10 then [] else Digits(n / 10)
  {
  }

  lemma DecimalInjective(m: int, n: int)
    requires Decimal(m) == Decimal(n)
    ensures m == n
  {
    assert m < 0 <==> Decimal(m)[0] == MINUS;
    assert n < 0 <==> Decimal(n)[0] == MINUS;
    if m < 0 {
      assert Decimal(m)[1..] == Digits(-m) && Decimal(n)[1..] == Digits(-n);
      DigitsInjective(-m, -n);
    } else {
      DigitsInjective(m, n);
    }
  }

  // ----- the hashed text -----

  const NUL: byte := 0
  const END: byte := 0xFF
  const DELETED: Bytes := [0x64, 0x65, 0x6C, 0x65, 0x74, 0x65, 0x64]

  function RangeText(r: Option<(int, int)>): Bytes {
    if r.None? then [] else Decimal(r.value.0) + ([COLON] + Decimal(r.value.1))
  }

  function Flags(f: File): Bytes {
    (if f.deleted then DELETED else []) + RangeText(f.byteRange)
  }

  function Sized(f: File, rest: Bytes): Bytes {
    Decimal(f.size) + ([NUL] + (Flags(f) + ([END] + rest)))
  }

  /** The record of one file, followed by rest. */
  function Record(name: Bytes, f: File, rest: Bytes): Bytes {
    name + ([NUL] + (f.infoHash + ([NUL] + Sized(f, rest))))
  }

  /** The records of the named files, one after the other. */
  function Text(files: Files, names: seq<Bytes>): Bytes
    requires forall i :: 0 <= i < |names| ==> names[i] in files
  {
    if names == [] then [] else Record(names[0], files[names[0]], Text(files, names[1..]))
  }

  // ----- telling texts apart -----

  /** What stands before and after the first separator is determined by the whole. */
  lemma Split(sep: byte, a: Bytes, x: Bytes, b: Bytes, y: Bytes)
    requires sep !in a && sep !in b
    requires a + ([sep] + x) == b + ([sep] + y)
    ensures a == b && x == y
  {
    var s, t := a + ([sep] + x), b + ([sep] + y);
    assert s[|a|] == sep && t[|b|] == sep;
    assert s[..|a|] == a && t[..|b|] == b;
    assert s[|a| + 1..] == x && t[|b| + 1..] == y;
  }

  /** Whether two files agree in all that the fingerprint covers. */
  predicate SameFile(f: File, g: File) {
    f.infoHash == g.infoHash && f.size == g.size && f.deleted == g.deleted && f.byteRange == g.byteRange
  }

  predicate SameFiles(a: Files, b: Files) {
    a.Keys == b.Keys && forall k :: k in a ==> SameFile(a[k], b[k])
  }

  predicate NulFree(files: Files) {
    forall k :: k in files ==> NUL !in k && NUL !in files[k].infoHash
  }

  lemma RangeInjective(r: Option<(int, int)>, q: Option<(int, int)>)
    requires RangeText(r) == RangeText(q)
    ensures r == q
  {
    if r.Some? && q.Some? {
      Split(COLON, Decimal(r.value.0), Decimal(r.value.1), Decimal(q.value.0), Decimal(q.value.1));
      DecimalInjective(r.value.0, q.value.0);
      DecimalInjective(r.value.1, q.value.1);
    }
  }

  lemma FlagsInjective(f: File, g: File)
    requires Flags(f) == Flags(g)
    ensures f.deleted == g.deleted && f.byteRange == g.byteRange
  {
    assert f.deleted ==> Flags(f)[0] == 0x64;
    assert g.deleted ==> Flags(g)[0] == 0x64;
    assert !f.deleted ==> Flags(f) == RangeText(f.byteRange);
    assert !g.deleted ==> Flags(g) == RangeText(g.byteRange);
    if f.deleted && g.deleted {
      assert Flags(f)[7..] == RangeText(f.byteRange) && Flags(g)[7..] == RangeText(g.byteRange);
    }
    RangeInjective(f.byteRange, g.byteRange);
  }

  lemma FlagsHaveNoEnd(f: File)
    ensures END !in Flags(f)
  {
    forall i | 0 <= i < |Flags(f)|
      ensures Flags(f)[i] != END
    {
    }
  }

  lemma SizedInjective(f: File, x: Bytes, g: File, y: Bytes)
    requires Sized(f, x) == Sized(g, y)
    ensures f.size == g.size && f.deleted == g.deleted && f.byteRange == g.byteRange && x == y
  {
    Split(NUL, Decimal(f.size), Flags(f) + ([END] + x), Decimal(g.size), Flags(g) + ([END] + y));
    FlagsHaveNoEnd(f);
    FlagsHaveNoEnd(g);
    Split(END, Flags(f), x, Flags(g), y);
    DecimalInjective(f.size, g.size);
    FlagsInjective(f, g);
  }

  /** A record can be read off the front of a text. */
  lemma RecordInjective(n: Bytes, f: File, x: Bytes, m: Bytes, g: File, y: Bytes)
    requires NUL !in n && NUL !in m && NUL !in f.infoHash && NUL !in g.infoHash
    requires Record(n, f, x) == Record(m, g, y)
    ensures n == m && SameFile(f, g) && x == y
  {
    Split(NUL, n, f.infoHash + ([NUL] + Sized(f, x)), m, g.infoHash + ([NUL] + Sized(g, y)));
    Split(NUL, f.infoHash, Sized(f, x), g.infoHash, Sized(g, y));
    SizedInjective(f, x, g, y);
  }

  lemma {:induction false} TextInjective(a: Files, names: seq<Bytes>, b: Files, others: seq<Bytes>)
    requires NulFree(a) && NulFree(b)
    requires forall i :: 0 <= i < |names| ==> names[i] in a
    requires forall i :: 0 <= i < |others| ==> others[i] in b
    requires Text(a, names) == Text(b, others)
    ensures names == others && forall i :: 0 <= i < |names| ==> SameFile(a[names[i]], b[names[i]])
    decreases |names|
  {
    if names == [] || others == [] {
      NotEmpty(a, names);
      NotEmpty(b, others);
    } else {
      var x, y := Text(a, names[1..]), Text(b, others[1..]);
      RecordInjective(names[0], a[names[0]], x, others[0], b[others[0]], y);
      TextInjective(a, names[1..], b, others[1..]);
      assert names == [names[0]] + names[1..] && others == [others[0]] + others[1..];
    }
  }

  lemma NotEmpty(files: Files, names: seq<Bytes>)
    requires forall i :: 0 <= i < |names| ==> names[i] in files
    ensures Text(files, names) == [] <==> names == []
  {
  }

  // ----- the order of the names -----

  /** The byte-wise order of strings. */
  predicate Less(a: Bytes, b: Bytes) {
    b != [] && (a == [] || a[0] < b[0] || (a[0] == b[0] && Less(a[1..], b[1..])))
  }

  predicate Sorted(names: seq<Bytes>) {
    forall i, j :: 0 <= i < j < |names| ==> Less(names[i], names[j])
  }

  lemma {:induction false} LessIsTotal(a: Bytes, b: Bytes)
    ensures a == b || Less(a, b) || Less(b, a)
    ensures !(Less(a, b) && Less(b, a)) && !Less(a, a)
  {
    if a != [] && b != [] {
      LessIsTotal(a[1..], b[1..]);
      LessIsTotal(a[1..], a[1..]);
      assert a == [a[0]] + a[1..] && b == [b[0]] + b[1..];
    }
    if a != [] {
      LessIsTotal(a[1..], a[1..]);
    }
  }

  lemma {:induction false} LessIsTransitive(a: Bytes, b: Bytes, c: Bytes)
    requires Less(a, b) && Less(b, c)
    ensures Less(a, c)
  {
    if a != [] && a[0] == b[0] == c[0] {
      LessIsTransitive(a[1..], b[1..], c[1..]);
    }
  }

  /** Sorting leaves no choice: that is why the order in which a map is walked does not show. */
  lemma {:induction false} SortedIsUnique(s: seq<Bytes>, t: seq<Bytes>)
    requires Sorted(s) && Sorted(t) && forall x :: x in s <==> x in t
    ensures s == t
  {
    assert |s| == 0 || s[0] in s;
    assert |t| == 0 || t[0] in t;
    if s != [] && t != [] {
      assert s[0] in t && t[0] in s;
      LessIsTotal(s[0], t[0]);
      assert s[0] == t[0];
      forall x
        ensures x in s[1..] <==> x in t[1..]
      {
        LessIsTotal(s[0], s[0]);
        assert x in s <==> x == s[0] || x in s[1..];
        assert x in t <==> x == t[0] || x in t[1..];
        assert x in s[1..] ==> Less(s[0], x);
        assert x in t[1..] ==> Less(t[0], x);
      }
      SortedIsUnique(s[1..], t[1..]);
      assert s == [s[0]] + s[1..] && t == [t[0]] + t[1..];
    }
  }

  function Insert(x: Bytes, s: seq<Bytes>): (r: seq<Bytes>)
    requires Sorted(s) && x !in s
    ensures Sorted(r) && forall y :: y in r <==> y == x || y in s
  {
    if s == [] then [x]
    else if Less(x, s[0]) then
      assert forall i :: 0 <= i < |s| ==> Less(x, s[i]) by {
        forall i | 0 < i < |s|
          ensures Less(x, s[i])
        {
          LessIsTransitive(x, s[0], s[i]);
        }
      }
      [x] + s
    else
      LessIsTotal(x, s[0]);
      assert s == [s[0]] + s[1..];
      var r := Insert(x, s[1..]);
      assert forall j :: 0 <= j < |r| ==> Less(s[0], r[j]) by {
        forall j | 0 <= j < |r|
          ensures Less(s[0], r[j])
        {
          assert r[j] in r;
        }
      }
      [s[0]] + r
  }

  ghost function SortedNames(keys: set<Bytes>): (names: seq<Bytes>)
    ensures Sorted(names) && forall x :: x in names <==> x in keys
  {
    if keys == {} then [] else var k :| k in keys; Insert(k, SortedNames(keys - {k}))
  }

  ghost function FilesText(files: Files): Bytes {
    Text(files, SortedNames(files.Keys))
  }

  ghost predicate Injective(hash: Bytes -> Bytes) {
    forall a, b :: hash(a) == hash(b) ==> a == b
  }

  /** The fingerprint; none for no files. */
  ghost function Print(hash: Bytes -> Bytes, files: Files): Option<Bytes> {
    if files == map[] then None else Some(hash(FilesText(files)))
  }

  lemma TextSame(a: Files, b: Files, names: seq<Bytes>)
    requires SameFiles(a, b) && forall i :: 0 <= i < |names| ==> names[i] in a
    ensures Text(a, names) == Text(b, names)
  {
  }

  lemma TextTellsApart(a: Files, b: Files)
    requires NulFree(a) && NulFree(b)
    ensures FilesText(a) == FilesText(b) <==> SameFiles(a, b)
  {
    var names, others := SortedNames(a.Keys), SortedNames(b.Keys);
    if SameFiles(a, b) {
      TextSame(a, b, names);
    } else if FilesText(a) == FilesText(b) {
      TextInjective(a, names, b, others);
      SameListing(a, b, names);
    }
  }

  lemma SameListing(a: Files, b: Files, names: seq<Bytes>)
    requires forall x :: (x in names <==> x in a) && (x in names <==> x in b)
    requires forall i :: 0 <= i < |names| ==> SameFile(a[names[i]], b[names[i]])
    ensures SameFiles(a, b)
  {
    forall k | k in a
      ensures k in b && SameFile(a[k], b[k])
    {
      var i :| 0 <= i < |names| && names[i] == k;
    }
  }

  /** The fingerprint changes exactly when a name, a hash, a size, a deletion mark or a byte
      range does. */
  lemma PrintTellsApart(hash: Bytes -> Bytes, a: Files, b: Files)
    requires Injective(hash) && NulFree(a) && NulFree(b)
    ensures Print(hash, a) == Print(hash, b) <==> SameFiles(a, b)
  {
    TextTellsApart(a, b);
    assert a == map[] || b == map[] ==> (SameFiles(a, b) <==> a.Keys == b.Keys);
    assert Print(hash, a).Some? && Print(hash, b).Some? && Print(hash, a) == Print(hash, b) ==>
      hash(FilesText(a)) == hash(FilesText(b));
  }

  lemma AppendRecord(h: Bytes, name: Bytes, infoHash: Bytes, size: Bytes, flags: Bytes, rest: Bytes)
    ensures h + name + [NUL] + infoHash + [NUL] + size + [NUL] + flags + [END] + rest
         == h + (name + ([NUL] + (infoHash + ([NUL] + (size + ([NUL] + (flags + ([END] + rest))))))))
  {
    var h1 := h + name + [NUL];
    var h2 := h1 + infoHash + [NUL];
    var h3 := h2 + size + [NUL];
    var r3 := flags + ([END] + rest);
    var r2 := size + ([NUL] + r3);
  }

  method CollectNames(files: Files) returns (names: seq<Bytes>)
    ensures names == SortedNames(files.Keys)
  {
    names := [];
    var left := files.Keys;
    while left != {}
      invariant left <= files.Keys && Sorted(names)
      invariant forall x :: x in names <==> x in files && x !in left
    {
      var k :| k in left;
      names := Insert(k, names);
      left := left - {k};
    }
    SortedIsUnique(names, SortedNames(files.Keys));
  }

  /** Write the record of file i of the listing. */
  method WriteRecord(h: Bytes, files: Files, names: seq<Bytes>, i: nat) returns (h': Bytes)
    requires i < |names| && forall j :: 0 <= j < |names| ==> names[j] in files
    ensures h' + Text(files, names[i + 1..]) == h + Text(files, names[i..])
  {
    var name := names[i];
    var file := files[name];
    assert names[i..][1..] == names[i + 1..];
    var size, flags := Decimal(file.size), Flags(file);
    AppendRecord(h, name, file.infoHash, size, flags, Text(files, names[i + 1..]));
    h' := h + name + [NUL] + file.infoHash + [NUL] + size + [NUL] + flags + [END];
  }

  method WriteRecords(files: Files, names: seq<Bytes>) returns (h: Bytes)
    requires forall j :: 0 <= j < |names| ==> names[j] in files
    ensures h == Text(files, names)
  {
    h := [];
    for i := 0 to |names|
      invariant h + Text(files, names[i..]) == Text(files, names)
    {
      h := WriteRecord(h, files, names, i);
    }
    assert h + [] == h;
  }

  /** The names are collected in the map's own order, sorted, and written file by file. */
  method RepairFingerprint(hash: Bytes -> Bytes, files: Files) returns (p: Option<Bytes>)
    ensures p == Print(hash, files)
  {
    if files == map[] {
      return None;
    }
    var names := CollectNames(files);
    assert forall j :: 0 <= j < |names| ==> names[j] in names;
    var h := WriteRecords(files, names);
    return Some(hash(h));
  }
}
