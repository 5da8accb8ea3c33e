/**
 The file-backed store: one file per key, named by the hex of the key's bytes, written to a
 temporary file and renamed into place; and what a crash between any two file operations leaves.
 UTF-8 validity of a key's bytes is a parameter.
 */
module FileStore {
  import opened Arith
  import opened Digits
  import opened Orders

  type Utf8 = seq<Byte> -> bool

  /** A directory per column family, a file per name. */
  type Disk = map<string, map<string, seq<Byte>>>

  /** A column family and a key's bytes. */
  datatype Place = Place(family: string, key: seq<Byte>)

  type Contents = map<Place, seq<Byte>>

  // ---------------------------------------------------------------------------
  // Hex names
  // ---------------------------------------------------------------------------

  const DIGITS := "0123456789abcdef"

  /** `char::to_digit(16)`: either case. */
  function HexValue(c: char): (d: Option<nat>)
    ensures d.Some? ==> d.value < 16
  {
    if '0' <= c <= '9' then Some(c as int - '0' as int)
    else if 'a' <= c <= 'f' then Some(c as int - 'a' as int + 10)
    else if 'A' <= c <= 'F' then Some(c as int - 'A' as int + 10)
    else None
  }

  function HexEncode(bytes: seq<Byte>): (s: string)
    ensures |s| == 2 * |bytes|
  {
    if bytes == [] then ""
    else
      HalvesAreDigits(bytes[0]);
      [DIGITS[bytes[0] / 16], DIGITS[bytes[0] % 16]] + HexEncode(bytes[1..])
  }

  lemma HalvesAreDigits(b: Byte)
    ensures b / 16 < 16 && b % 16 < 16 && (b / 16) * 16 + b % 16 == b
    ensures HexValue(DIGITS[b / 16]) == Some(b / 16) && HexValue(DIGITS[b % 16]) == Some(b % 16)
  {
  }

  /** The bytes a character takes in UTF-8. */
  function Width(c: char): nat {
    if c as int < 0x80 then 1 else if c as int < 0x800 then 2 else if c as int < 0x1_0000 then 3 else 4
  }

  /** `str::len` */
  function ByteLen(s: string): nat {
    if s == "" then 0 else Width(s[0]) + ByteLen(s[1..])
  }

  predicate AllHex(s: string) {
    forall c | c in s :: HexValue(c).Some?
  }

  lemma {:induction false} HexByteLen(s: string)
    requires AllHex(s)
    ensures ByteLen(s) == |s|
  {
    if s != "" {
      assert s[0] in s;
      HexByteLen(s[1..]);
    }
  }

  /** The bytes spelled by pairs of hex digits. */
  function HexPairs(s: string): Option<seq<Byte>> {
    if s == "" then Some([])
    else if |s| < 2 || HexValue(s[0]).None? || HexValue(s[1]).None? then None
    else
      match HexPairs(s[2..])
      case None => None
      case Some(rest) => Some([HexValue(s[0]).value * 16 + HexValue(s[1]).value] + rest)
  }

  function HexDecode(utf8: Utf8, s: string): Option<seq<Byte>> {
    if ByteLen(s) % 2 != 0 then None
    else
      match HexPairs(s)
      case Some(bytes) => if utf8(bytes) then Some(bytes) else None
      case None => None
  }

  lemma PairsStep(s: string, i: nat, bytes: seq<Byte>, b: Byte)
    requires i + 2 <= |s| && HexPairs(s[..i]) == Some(bytes) && i % 2 == 0
    requires HexValue(s[i]).Some? && HexValue(s[i + 1]).Some?
    requires b == HexValue(s[i]).value * 16 + HexValue(s[i + 1]).value
    ensures HexPairs(s[..i + 2]) == Some(bytes + [b])
  {
    assert s[..i + 2] == s[..i] + [s[i], s[i + 1]];
    PairsSnoc(s[..i], bytes, s[i], s[i + 1]);
  }

  lemma {:induction false} PairsSnoc(s: string, bytes: seq<Byte>, hi: char, lo: char)
    requires HexPairs(s) == Some(bytes) && HexValue(hi).Some? && HexValue(lo).Some?
    ensures HexPairs(s + [hi, lo]) == Some(bytes + [HexValue(hi).value * 16 + HexValue(lo).value])
  {
    var t := s + [hi, lo];
    if s == "" {
      assert t == [hi, lo] && t[2..] == "" && HexPairs(t[2..]) == Some([]);
      assert bytes == [] && [] + [HexValue(hi).value * 16 + HexValue(lo).value] == [HexValue(hi).value * 16 + HexValue(lo).value] + [];
    } else {
      assert t[2..] == s[2..] + [hi, lo];
      PairsSnoc(s[2..], bytes[1..], hi, lo);
      var x := HexValue(hi).value * 16 + HexValue(lo).value;
      assert bytes + [x] == [bytes[0]] + (bytes[1..] + [x]);
    }
  }

  lemma {:induction false} PairsFail(s: string, i: nat)
    requires i < |s| && i % 2 == 0 && HexPairs(s[..i]).Some?
    requires i + 1 < |s| ==> HexValue(s[i]).None? || HexValue(s[i + 1]).None?
    ensures HexPairs(s) == None
    decreases i
  {
    if i > 0 {
      assert s[..i][2..] == s[2..][..i - 2];
      PairsFail(s[2..], i - 2);
    }
  }

  /**
   hex_decode. The second half of a pair is always there: if every character so far is a hex digit,
   the number of characters is the number of bytes, which is even.
   */
  method HexDecodeName(utf8: Utf8, s: string) returns (r: Option<seq<Byte>>)
    ensures r == HexDecode(utf8, s)
  {
    if ByteLen(s) % 2 != 0 {
      return None;
    }
    var bytes: seq<Byte> := [];
    var i := 0;
    while i < |s|
      invariant 0 <= i <= |s| && i % 2 == 0
      invariant HexPairs(s[..i]) == Some(bytes)
      invariant AllHex(s[..i])
    {
      var hi := HexValue(s[i]);
      if hi.None? {
        PairsFail(s, i);
        return None;
      }
      LastPairIsWhole(s, i);
      var lo := HexValue(s[i + 1]);
      if lo.None? {
        PairsFail(s, i);
        return None;
      }
      PairsStep(s, i, bytes, hi.value * 16 + lo.value);
      assert s[..i + 2] == s[..i] + [s[i], s[i + 1]];
      bytes := bytes + [hi.value * 16 + lo.value];
      i := i + 2;
    }
    assert s[..i] == s;
    r := if utf8(bytes) then Some(bytes) else None;
  }

  lemma LastPairIsWhole(s: string, i: nat)
    requires i < |s| && i % 2 == 0 && AllHex(s[..i]) && HexValue(s[i]).Some? && ByteLen(s) % 2 == 0
    ensures i + 1 < |s|
  {
    assert s[..i + 1] == s[..i] + [s[i]];
    HexByteLen(s[..i + 1]);
    assert s[..|s|] == s;
  }

  lemma {:induction false} HexReadsBack(bytes: seq<Byte>)
    ensures HexPairs(HexEncode(bytes)) == Some(bytes) && AllHex(HexEncode(bytes))
  {
    hide HexValue;
    if bytes != [] {
      HalvesAreDigits(bytes[0]);
      HexReadsBack(bytes[1..]);
      var s := HexEncode(bytes);
      assert s[2..] == HexEncode(bytes[1..]);
      assert bytes == [bytes[0]] + bytes[1..];
      assert s == [s[0], s[1]] + s[2..];
    }
  }

  lemma NameReadsBack(utf8: Utf8, key: seq<Byte>)
    ensures HexDecode(utf8, HexEncode(key)) == if utf8(key) then Some(key) else None
  {
    HexReadsBack(key);
    HexByteLen(HexEncode(key));
  }

  function TempName(name: string): string {
    "." + name + ".tmp"
  }

  lemma TempIsSkipped(utf8: Utf8, name: string)
    ensures HexDecode(utf8, TempName(name)) == None
  {
    assert TempName(name)[0] == '.';
  }

  // ---------------------------------------------------------------------------
  // Opening
  // ---------------------------------------------------------------------------

  /** Names that decode are the ones the store writes. */
  ghost predicate Canonical(utf8: Utf8, disk: Disk) {
    forall f, name | f in disk && name in disk[f] && HexDecode(utf8, name).Some? ::
      name == HexEncode(HexDecode(utf8, name).value)
  }

  function Stored(disk: Disk, p: Place): Option<seq<Byte>> {
    if p.family in disk && HexEncode(p.key) in disk[p.family] then Some(disk[p.family][HexEncode(p.key)]) else None
  }

  /** The mirror an open store holds: every readable file under its key. */
  ghost predicate Mirrors(utf8: Utf8, mem: Contents, disk: Disk) {
    forall p: Place ::
      (p in mem <==> utf8(p.key) && Stored(disk, p).Some?) && (p in mem ==> mem[p] == Stored(disk, p).value)
  }

  /** What loading the files `names` of directory `f` adds to a mirror. */
  ghost predicate Adds(utf8: Utf8, mem: Contents, before: Contents, f: string, dir: map<string, seq<Byte>>, names: set<string>) {
    && names <= dir.Keys
    && forall p: Place ::
      if p.family == f && utf8(p.key) && HexEncode(p.key) in names then p in mem && mem[p] == dir[HexEncode(p.key)]
      else (p in mem <==> p in before) && (p in mem ==> mem[p] == before[p])
  }

  ghost predicate CanonicalNames(utf8: Utf8, dir: map<string, seq<Byte>>) {
    forall name | name in dir && HexDecode(utf8, name).Some? :: name == HexEncode(HexDecode(utf8, name).value)
  }

  /** One more file: under its key if its name decodes, skipped otherwise. */
  lemma AddsFile(utf8: Utf8, mem: Contents, before: Contents, f: string, dir: map<string, seq<Byte>>, names: set<string>, name: string)
    requires Adds(utf8, mem, before, f, dir, names) && CanonicalNames(utf8, dir) && name in dir
    ensures var key := HexDecode(utf8, name);
      Adds(utf8, if key.Some? then mem[Place(f, key.value) := dir[name]] else mem, before, f, dir, names + {name})
  {
    hide HexEncode, HexDecode;
    var key := HexDecode(utf8, name);
    var mem' := if key.Some? then mem[Place(f, key.value) := dir[name]] else mem;
    forall p: Place | p.family == f && utf8(p.key) && HexEncode(p.key) in names + {name}
      ensures p in mem' && mem'[p] == dir[HexEncode(p.key)]
    {
      NameReadsBack(utf8, p.key);
    }
    if key.Some? {
      DecodedIsUtf8(utf8, name);
    }
  }

  lemma DecodedIsUtf8(utf8: Utf8, name: string)
    requires HexDecode(utf8, name).Some?
    ensures utf8(HexDecode(utf8, name).value)
  {
  }

  /** The inner loop of open: the files of one directory, in whatever order the directory lists them. */
  method LoadDirectory(utf8: Utf8, before: Contents, f: string, dir: map<string, seq<Byte>>) returns (mem: Contents)
    requires CanonicalNames(utf8, dir)
    ensures Adds(utf8, mem, before, f, dir, dir.Keys)
  {
    hide HexEncode, HexDecode;
    mem := before;
    var left := dir.Keys;
    while left != {}
      invariant left <= dir.Keys
      invariant Adds(utf8, mem, before, f, dir, dir.Keys - left)
      decreases |left|
    {
      var name :| name in left;
      var key := HexDecodeName(utf8, name);
      AddsFile(utf8, mem, before, f, dir, dir.Keys - left, name);
      assert dir.Keys - (left - {name}) == (dir.Keys - left) + {name};
      if key.Some? {
        mem := mem[Place(f, key.value) := dir[name]];
      }
      left := left - {name};
    }
    assert dir.Keys - {} == dir.Keys;
  }

  /** The mirror of the directories in `families`. */
  ghost predicate MirrorsSome(utf8: Utf8, mem: Contents, disk: Disk, families: set<string>) {
    forall p: Place ::
      (p in mem <==> p.family in families && utf8(p.key) && Stored(disk, p).Some?) &&
      (p in mem ==> mem[p] == Stored(disk, p).value)
  }

  lemma MirrorsOneMore(utf8: Utf8, mem: Contents, before: Contents, disk: Disk, done: set<string>, f: string)
    requires MirrorsSome(utf8, before, disk, done) && f in disk && f !in done
    requires Adds(utf8, mem, before, f, disk[f], disk[f].Keys)
    ensures MirrorsSome(utf8, mem, disk, done + {f})
  {
    hide HexEncode;
  }

  /** open: the mirror of the whole disk, whatever order the directories list. */
  method Open(utf8: Utf8, disk: Disk) returns (mem: Contents)
    requires Canonical(utf8, disk)
    ensures Mirrors(utf8, mem, disk)
  {
    hide HexEncode, HexDecode;
    mem := map[];
    var left := disk.Keys;
    while left != {}
      invariant left <= disk.Keys
      invariant MirrorsSome(utf8, mem, disk, disk.Keys - left)
      decreases |left|
    {
      var f :| f in left;
      ghost var before := mem;
      mem := LoadDirectory(utf8, mem, f, disk[f]);
      MirrorsOneMore(utf8, mem, before, disk, disk.Keys - left, f);
      assert disk.Keys - (left - {f}) == (disk.Keys - left) + {f};
      left := left - {f};
    }
    assert disk.Keys - {} == disk.Keys;
  }

  /** A disk has one mirror. */
  lemma MirrorIsUnique(utf8: Utf8, a: Contents, b: Contents, disk: Disk)
    requires Mirrors(utf8, a, disk) && Mirrors(utf8, b, disk)
    ensures a == b
  {
    hide Stored;
    forall p: Place ensures p in a <==> p in b {}
    forall p | p in a ensures p in b && a[p] == b[p] {}
  }

  // ---------------------------------------------------------------------------
  // Writing, and crashing while writing
  // ---------------------------------------------------------------------------

  function WithDirectory(disk: Disk, f: string): Disk {
    if f in disk then disk else disk[f := map[]]
  }

  function WithFile(disk: Disk, f: string, name: string, data: seq<Byte>): Disk
    requires f in disk
  {
    disk[f := disk[f][name := data]]
  }

  function Renamed(disk: Disk, f: string, from: string, to: string): Disk
    requires f in disk && from in disk[f]
  {
    disk[f := (disk[f] - {from})[to := disk[f][from]]]
  }

  function WithoutFile(disk: Disk, f: string, name: string): Disk {
    if f in disk then disk[f := disk[f] - {name}] else disk
  }

  /** Where a put is interrupted; a torn write leaves any data in the temporary file. */
  datatype Crash = BeforeAll | BeforeWrite | DuringWrite(data: seq<Byte>) | BeforeRename | AfterAll

  function CrashedPut(disk: Disk, p: Place, data: seq<Byte>, at: Crash): Disk {
    var name := HexEncode(p.key);
    var withDir := WithDirectory(disk, p.family);
    match at
    case BeforeAll => disk
    case BeforeWrite => withDir
    case DuringWrite(torn) => WithFile(withDir, p.family, TempName(name), torn)
    case BeforeRename => WithFile(withDir, p.family, TempName(name), data)
    case AfterAll => Renamed(WithFile(withDir, p.family, TempName(name), data), p.family, TempName(name), name)
  }

  lemma NamesDiffer(a: seq<Byte>, b: seq<Byte>)
    ensures HexEncode(a) == HexEncode(b) ==> a == b
    ensures TempName(HexEncode(a)) != HexEncode(b)
  {
    HexReadsBack(a);
    HexReadsBack(b);
    assert TempName(HexEncode(a))[0] == '.';
  }

  /** What each place holds after an interrupted put: nothing changes until the rename. */
  lemma CrashedPutValue(disk: Disk, p: Place, data: seq<Byte>, at: Crash, q: Place)
    ensures Stored(CrashedPut(disk, p, data, at), q) == if at.AfterAll? && q == p then Some(data) else Stored(disk, q)
  {
    hide HexEncode, TempName;
    NamesDiffer(p.key, q.key);
  }

  lemma CrashedPutCanonical(utf8: Utf8, disk: Disk, p: Place, data: seq<Byte>, at: Crash)
    requires Canonical(utf8, disk)
    ensures Canonical(utf8, CrashedPut(disk, p, data, at))
  {
    hide HexEncode, HexDecode, TempName;
    var name := HexEncode(p.key);
    TempIsSkipped(utf8, name);
    NameReadsBack(utf8, p.key);
    forall f, n | f in CrashedPut(disk, p, data, at) && n in CrashedPut(disk, p, data, at)[f] && HexDecode(utf8, n).Some?
      ensures n == HexEncode(HexDecode(utf8, n).value)
    {
    }
  }

  /** Reopening after a put interrupted anywhere finds the contents before it or after it. */
  lemma CrashIsAtomic(utf8: Utf8, disk: Disk, mem: Contents, p: Place, data: seq<Byte>, at: Crash, reopened: Contents)
    requires Canonical(utf8, disk) && Mirrors(utf8, mem, disk) && utf8(p.key) && p.key != []
    requires Mirrors(utf8, reopened, CrashedPut(disk, p, data, at))
    ensures reopened == if at.AfterAll? then mem[p := data] else mem
  {
    hide Stored, CrashedPut;
    var expected := if at.AfterAll? then mem[p := data] else mem;
    forall q ensures Stored(CrashedPut(disk, p, data, at), q) == if at.AfterAll? && q == p then Some(data) else Stored(disk, q) {
      CrashedPutValue(disk, p, data, at, q);
    }
    MirrorIsUnique(utf8, reopened, expected, CrashedPut(disk, p, data, at));
  }

  lemma DeleteValue(disk: Disk, p: Place, q: Place)
    ensures Stored(WithoutFile(disk, p.family, HexEncode(p.key)), q) == if q == p then None else Stored(disk, q)
  {
    hide HexEncode;
    NamesDiffer(p.key, q.key);
  }

  // ---------------------------------------------------------------------------
  // The store object, and whole runs
  // ---------------------------------------------------------------------------

  datatype Write = Put(place: Place, data: seq<Byte>) | Delete(place: Place)

  function Applied(mem: Contents, w: Write): Contents {
    match w
    case Put(p, data) => mem[p := data]
    case Delete(p) => mem - {p}
  }

  function OnDisk(disk: Disk, w: Write): Disk {
    match w
    case Put(p, data) => CrashedPut(disk, p, data, AfterAll)
    case Delete(p) => WithoutFile(disk, p.family, HexEncode(p.key))
  }

  function AllApplied(mem: Contents, ws: seq<Write>): Contents {
    if ws == [] then mem else Applied(AllApplied(mem, ws[..|ws| - 1]), ws[|ws| - 1])
  }

  function AllOnDisk(disk: Disk, ws: seq<Write>): Disk {
    if ws == [] then disk else OnDisk(AllOnDisk(disk, ws[..|ws| - 1]), ws[|ws| - 1])
  }

  lemma WriteKeepsMirror(utf8: Utf8, disk: Disk, mem: Contents, w: Write)
    requires Canonical(utf8, disk) && Mirrors(utf8, mem, disk) && utf8(w.place.key)
    ensures Canonical(utf8, OnDisk(disk, w)) && Mirrors(utf8, Applied(mem, w), OnDisk(disk, w))
  {
    hide Stored, CrashedPut, HexEncode, HexDecode;
    match w
    case Put(p, data) =>
      CrashedPutCanonical(utf8, disk, p, data, AfterAll);
      forall q ensures Stored(OnDisk(disk, w), q) == if q == p then Some(data) else Stored(disk, q) {
        CrashedPutValue(disk, p, data, AfterAll, q);
      }
    case Delete(p) =>
      forall q ensures Stored(OnDisk(disk, w), q) == if q == p then None else Stored(disk, q) {
        DeleteValue(disk, p, q);
      }
  }

  /** After any writes, one of them interrupted at the end, reopening finds all but it, or all of them. */
  lemma {:induction false} CrashedRun(utf8: Utf8, disk: Disk, mem: Contents, ws: seq<Write>, p: Place, data: seq<Byte>,
                                      at: Crash, reopened: Contents)
    requires Canonical(utf8, disk) && Mirrors(utf8, mem, disk)
    requires utf8(p.key) && p.key != [] && forall w | w in ws :: utf8(w.place.key) && w.place.key != []
    requires Mirrors(utf8, reopened, CrashedPut(AllOnDisk(disk, ws), p, data, at))
    ensures reopened == AllApplied(mem, if at.AfterAll? then ws + [Put(p, data)] else ws)
  {
    hide Mirrors, Canonical, CrashedPut, OnDisk, Applied;
    RunKeepsMirror(utf8, disk, mem, ws);
    CrashIsAtomic(utf8, AllOnDisk(disk, ws), AllApplied(mem, ws), p, data, at, reopened);
    assert (ws + [Put(p, data)])[..|ws|] == ws;
    AppliedPut(AllApplied(mem, ws), p, data);
  }

  lemma AppliedPut(mem: Contents, p: Place, data: seq<Byte>)
    ensures Applied(mem, Put(p, data)) == mem[p := data]
  {
  }

  lemma {:induction false} RunKeepsMirror(utf8: Utf8, disk: Disk, mem: Contents, ws: seq<Write>)
    requires Canonical(utf8, disk) && Mirrors(utf8, mem, disk)
    requires forall w | w in ws :: utf8(w.place.key)
    ensures Canonical(utf8, AllOnDisk(disk, ws)) && Mirrors(utf8, AllApplied(mem, ws), AllOnDisk(disk, ws))
  {
    hide Mirrors, Canonical, OnDisk, Applied;
    if ws != [] {
      RunKeepsMirror(utf8, disk, mem, ws[..|ws| - 1]);
      WriteKeepsMirror(utf8, AllOnDisk(disk, ws[..|ws| - 1]), AllApplied(mem, ws[..|ws| - 1]), ws[|ws| - 1]);
    }
  }

  class Store {
    const utf8: Utf8
    var disk: Disk
    var mem: Contents

    ghost predicate Valid()
      reads this
    {
      Canonical(utf8, disk) && Mirrors(utf8, mem, disk)
    }

    constructor (utf8: Utf8, disk: Disk)
      requires Canonical(utf8, disk)
      ensures Valid() && this.utf8 == utf8 && this.disk == disk
    {
      this.utf8 := utf8;
      this.disk := disk;
      var loaded := Open(utf8, disk);
      mem := loaded;
    }

    /** put: the mirror, then directory, temporary file and rename. */
    method Put(p: Place, data: seq<Byte>)
      requires Valid() && utf8(p.key) && p.key != []
      modifies this
      ensures Valid() && mem == old(mem)[p := data]
      ensures disk == OnDisk(old(disk), Write.Put(p, data))
    {
      hide Mirrors, Canonical, HexEncode;
      WriteKeepsMirror(utf8, disk, mem, Write.Put(p, data));
      mem := mem[p := data];
      var name := HexEncode(p.key);
      disk := WithDirectory(disk, p.family);
      disk := WithFile(disk, p.family, TempName(name), data);
      disk := Renamed(disk, p.family, TempName(name), name);
    }

    method Delete(p: Place)
      requires Valid() && utf8(p.key) && p.key != []
      modifies this
      ensures Valid() && mem == old(mem) - {p}
      ensures disk == OnDisk(old(disk), Write.Delete(p))
    {
      hide Mirrors, Canonical, HexEncode;
      WriteKeepsMirror(utf8, disk, mem, Write.Delete(p));
      mem := mem - {p};
      disk := WithoutFile(disk, p.family, HexEncode(p.key));
    }

    method Get(p: Place) returns (data: Option<seq<Byte>>)
      requires Valid() && utf8(p.key)
      ensures data == Stored(disk, p)
    {
      hide HexEncode;
      data := if p in mem then Some(mem[p]) else None;
    }
  }
}
