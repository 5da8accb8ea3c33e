/**
 The binary form of a stored PDU: length-prefixed strings and little-endian numbers. Strings are
 byte sequences; UTF-8 and identifier validity are parameters.
 */
module PduCodec {
  import opened Arith
  import opened Digits
  import opened Orders

  type Bytes = seq<Byte>

  const U32_LIMIT: nat := 0x1_0000_0000
  const U64_LIMIT: nat := 0x1_0000_0000_0000_0000

  /** What decoding re-validates. */
  datatype Checks = Checks(utf8: Bytes -> bool, eventId: Bytes -> bool, roomId: Bytes -> bool, userId: Bytes -> bool)

  datatype Record = Record(
    eventId: Bytes,
    roomId: Bytes,
    sender: Bytes,
    kind: Bytes,
    stateKey: Option<Bytes>,
    originServerTs: nat,
    depth: nat,
    prevEvents: seq<Bytes>,
    authEvents: seq<Bytes>,
    contentJson: Bytes)

  /** A value read, and the bytes after it. */
  type Reading<T> = Option<(T, Bytes)>

  // ---------------------------------------------------------------------------
  // Numbers
  // ---------------------------------------------------------------------------

  function NumberBytes(n: nat, width: nat): (b: Bytes)
    ensures |b| == width
  {
    DigitsAreBytes(n, width);
    ToDigits(n, 0x100, width)
  }

  lemma DigitsAreBytes(n: nat, width: nat)
    ensures forall i | 0 <= i < width :: ToDigits(n, 0x100, width)[i] < 0x100
  {
    ToDigitsBelow(n, 0x100, width);
  }

  function Take(n: nat, b: Bytes): Reading<Bytes> {
    if n <= |b| then Some((b[..n], b[n..])) else None
  }

  function ReadNumber(width: nat, b: Bytes): (r: Reading<nat>)
    ensures r.Some? ==> r.value.0 < Power(0x100, width)
  {
    match Take(width, b)
    case None => None
    case Some((digits, rest)) =>
      ValueBound(digits, 0x100);
      Some((Value(digits, 0x100), rest))
  }

  lemma Split<T>(a: seq<T>, rest: seq<T>)
    ensures (a + rest)[..|a|] == a && (a + rest)[|a|..] == rest
  {
  }

  lemma NumberReadsBack(n: nat, width: nat, rest: Bytes)
    requires n < Power(0x100, width)
    ensures ReadNumber(width, NumberBytes(n, width) + rest) == Some((n, rest))
  {
    hide ToDigits, Value, Power;
    Split(NumberBytes(n, width), rest);
    ToDigitsValue(n, 0x100, width);
  }

  lemma Widths()
    ensures Power(0x100, 4) == U32_LIMIT && Power(0x100, 8) == U64_LIMIT
  {
    assert Power(0x100, 2) == 0x1_0000;
    assert Power(0x100, 6) == 0x1_0000_0000_0000;
  }

  /** More bytes after what is read do not change it. */
  ghost predicate Extends<T>(short: Reading<T>, long: Reading<T>, more: Bytes) {
    short.Some? ==> long == Some((short.value.0, short.value.1 + more))
  }

  lemma TakeExtends(n: nat, b: Bytes, more: Bytes)
    ensures Extends(Take(n, b), Take(n, b + more), more)
  {
    if n <= |b| {
      assert (b + more)[..n] == b[..n] && (b + more)[n..] == b[n..] + more;
    }
  }

  lemma NumberExtends(width: nat, b: Bytes, more: Bytes)
    ensures Extends(ReadNumber(width, b), ReadNumber(width, b + more), more)
  {
    hide Take, Value;
    TakeExtends(width, b, more);
  }

  // ---------------------------------------------------------------------------
  // Strings and identifiers
  // ---------------------------------------------------------------------------

  /** put_str: the length as a u32, then the bytes. */
  function StringBytes(s: Bytes): Bytes {
    NumberBytes(Rem(|s|, U32_LIMIT), 4) + s
  }

  function ReadString(utf8: Bytes -> bool, b: Bytes): Reading<Bytes> {
    match ReadNumber(4, b)
    case None => None
    case Some((n, rest)) =>
      match Take(n, rest)
      case None => None
      case Some((s, after)) => if utf8(s) then Some((s, after)) else None
  }

  function ReadId(c: Checks, valid: Bytes -> bool, b: Bytes): Reading<Bytes> {
    match ReadString(c.utf8, b)
    case None => None
    case Some((s, rest)) => if valid(s) then Some((s, rest)) else None
  }

  predicate Short(s: Bytes) {
    |s| < U32_LIMIT
  }

  lemma StringReadsBack(utf8: Bytes -> bool, s: Bytes, rest: Bytes)
    requires Short(s) && utf8(s)
    ensures ReadString(utf8, StringBytes(s) + rest) == Some((s, rest))
  {
    hide NumberBytes, ReadNumber, Power;
    Widths();
    DivModUnique(|s|, U32_LIMIT, 0, |s|);
    var prefix := NumberBytes(|s|, 4);
    assert StringBytes(s) + rest == prefix + (s + rest);
    NumberReadsBack(|s|, 4, s + rest);
    Split(s, rest);
  }

  lemma IdReadsBack(c: Checks, valid: Bytes -> bool, s: Bytes, rest: Bytes)
    requires Short(s) && c.utf8(s) && valid(s)
    ensures ReadId(c, valid, StringBytes(s) + rest) == Some((s, rest))
  {
    hide ReadString, StringBytes;
    StringReadsBack(c.utf8, s, rest);
  }

  lemma StringExtends(utf8: Bytes -> bool, b: Bytes, more: Bytes)
    ensures Extends(ReadString(utf8, b), ReadString(utf8, b + more), more)
  {
    hide ReadNumber, Take;
    NumberExtends(4, b, more);
    if ReadNumber(4, b).Some? {
      TakeExtends(ReadNumber(4, b).value.0, ReadNumber(4, b).value.1, more);
    }
  }

  lemma IdExtends(c: Checks, valid: Bytes -> bool, b: Bytes, more: Bytes)
    ensures Extends(ReadId(c, valid, b), ReadId(c, valid, b + more), more)
  {
    hide ReadString;
    StringExtends(c.utf8, b, more);
  }

  lemma StringIsShort(utf8: Bytes -> bool, b: Bytes)
    ensures ReadString(utf8, b).Some? ==> Short(ReadString(utf8, b).value.0) && utf8(ReadString(utf8, b).value.0)
  {
    hide Power;
    Widths();
  }

  // ---------------------------------------------------------------------------
  // Identifier lists
  // ---------------------------------------------------------------------------

  function IdBytes(ids: seq<Bytes>): Bytes {
    if ids == [] then [] else StringBytes(ids[0]) + IdBytes(ids[1..])
  }

  function ListBytes(ids: seq<Bytes>): Bytes {
    NumberBytes(Rem(|ids|, U32_LIMIT), 4) + IdBytes(ids)
  }

  function ReadIds(c: Checks, count: nat, b: Bytes): Reading<seq<Bytes>> {
    if count == 0 then Some(([], b))
    else
      match ReadId(c, c.eventId, b)
      case None => None
      case Some((id, rest)) =>
        match ReadIds(c, count - 1, rest)
        case None => None
        case Some((ids, after)) => Some(([id] + ids, after))
  }

  function ReadList(c: Checks, b: Bytes): Reading<seq<Bytes>> {
    match ReadNumber(4, b)
    case None => None
    case Some((count, rest)) => ReadIds(c, count, rest)
  }

  predicate GoodIds(c: Checks, ids: seq<Bytes>) {
    forall id | id in ids :: Short(id) && c.utf8(id) && c.eventId(id)
  }

  lemma {:induction false} IdsReadBack(c: Checks, ids: seq<Bytes>, rest: Bytes)
    requires GoodIds(c, ids)
    ensures ReadIds(c, |ids|, IdBytes(ids) + rest) == Some((ids, rest))
  {
    hide ReadId, StringBytes;
    if ids == [] {
      assert IdBytes(ids) + rest == rest;
    } else {
      assert ids[0] in ids;
      assert IdBytes(ids) + rest == StringBytes(ids[0]) + (IdBytes(ids[1..]) + rest);
      IdReadsBack(c, c.eventId, ids[0], IdBytes(ids[1..]) + rest);
      IdsReadBack(c, ids[1..], rest);
      assert ids == [ids[0]] + ids[1..];
    }
  }

  lemma ListReadsBack(c: Checks, ids: seq<Bytes>, rest: Bytes)
    requires GoodIds(c, ids) && |ids| < U32_LIMIT
    ensures ReadList(c, ListBytes(ids) + rest) == Some((ids, rest))
  {
    hide NumberBytes, ReadNumber, Power, IdBytes, ReadIds;
    Widths();
    DivModUnique(|ids|, U32_LIMIT, 0, |ids|);
    assert ListBytes(ids) + rest == NumberBytes(|ids|, 4) + (IdBytes(ids) + rest);
    NumberReadsBack(|ids|, 4, IdBytes(ids) + rest);
    IdsReadBack(c, ids, rest);
  }

  lemma {:induction false} IdsExtend(c: Checks, count: nat, b: Bytes, more: Bytes)
    ensures Extends(ReadIds(c, count, b), ReadIds(c, count, b + more), more)
  {
    hide ReadId;
    if count > 0 {
      IdExtends(c, c.eventId, b, more);
      if ReadId(c, c.eventId, b).Some? {
        IdsExtend(c, count - 1, ReadId(c, c.eventId, b).value.1, more);
      }
    }
  }

  lemma ListExtends(c: Checks, b: Bytes, more: Bytes)
    ensures Extends(ReadList(c, b), ReadList(c, b + more), more)
  {
    hide ReadNumber, ReadIds;
    NumberExtends(4, b, more);
    if ReadNumber(4, b).Some? {
      IdsExtend(c, ReadNumber(4, b).value.0, ReadNumber(4, b).value.1, more);
    }
  }

  lemma {:induction false} IdsAreGood(c: Checks, count: nat, b: Bytes)
    ensures ReadIds(c, count, b).Some? ==>
      GoodIds(c, ReadIds(c, count, b).value.0) && |ReadIds(c, count, b).value.0| == count
  {
    hide ReadString;
    if count > 0 && ReadId(c, c.eventId, b).Some? {
      StringIsShort(c.utf8, b);
      IdsAreGood(c, count - 1, ReadId(c, c.eventId, b).value.1);
    }
  }

  lemma ListIsGood(c: Checks, b: Bytes)
    ensures ReadList(c, b).Some? ==> GoodIds(c, ReadList(c, b).value.0) && |ReadList(c, b).value.0| < U32_LIMIT
  {
    hide Power, ReadIds;
    Widths();
    if ReadNumber(4, b).Some? {
      IdsAreGood(c, ReadNumber(4, b).value.0, ReadNumber(4, b).value.1);
    }
  }

  // ---------------------------------------------------------------------------
  // State keys
  // ---------------------------------------------------------------------------

  function StateKeyBytes(key: Option<Bytes>): Bytes {
    match key
    case Some(s) => [1] + StringBytes(s)
    case None => [0]
  }

  function ReadStateKey(c: Checks, b: Bytes): Reading<Option<Bytes>> {
    if b == [] then None
    else if b[0] == 1 then
      match ReadString(c.utf8, b[1..])
      case None => None
      case Some((s, rest)) => Some((Some(s), rest))
    else if b[0] == 0 then Some((None, b[1..]))
    else None
  }

  lemma StateKeyReadsBack(c: Checks, key: Option<Bytes>, rest: Bytes)
    requires key.Some? ==> Short(key.value) && c.utf8(key.value)
    ensures ReadStateKey(c, StateKeyBytes(key) + rest) == Some((key, rest))
  {
    hide ReadString, StringBytes;
    match key
    case Some(s) =>
      assert (StateKeyBytes(key) + rest)[1..] == StringBytes(s) + rest;
      StringReadsBack(c.utf8, s, rest);
    case None =>
      assert (StateKeyBytes(key) + rest)[1..] == rest;
  }

  lemma StateKeyExtends(c: Checks, b: Bytes, more: Bytes)
    ensures Extends(ReadStateKey(c, b), ReadStateKey(c, b + more), more)
  {
    hide ReadString;
    if b != [] {
      assert (b + more)[1..] == b[1..] + more;
      StringExtends(c.utf8, b[1..], more);
    }
  }

  // ---------------------------------------------------------------------------
  // Records
  // ---------------------------------------------------------------------------

  /** The parts after the head, then the head: each function adds the parts that follow. */
  function Encode(p: Record): Bytes
    requires p.originServerTs < U64_LIMIT && p.depth < U64_LIMIT
  {
    StringBytes(p.eventId) + (StringBytes(p.roomId) + (StringBytes(p.sender) + (StringBytes(p.kind) + EncodeTail(p))))
  }

  function EncodeTail(p: Record): Bytes {
    StateKeyBytes(p.stateKey) + (NumberBytes(p.originServerTs, 8) + (NumberBytes(p.depth, 8) +
      (ListBytes(p.prevEvents) + (ListBytes(p.authEvents) + StringBytes(p.contentJson)))))
  }

  datatype Head = Head(eventId: Bytes, roomId: Bytes, sender: Bytes, kind: Bytes)

  datatype Tail = Tail(stateKey: Option<Bytes>, ts: nat, depth: nat, prev: seq<Bytes>, auth: seq<Bytes>, content: Bytes)

  function ReadHead(c: Checks, b: Bytes): Reading<Head> {
    match ReadId(c, c.eventId, b)
    case None => None
    case Some((eventId, b1)) =>
      match ReadId(c, c.roomId, b1)
      case None => None
      case Some((roomId, b2)) =>
        match ReadId(c, c.userId, b2)
        case None => None
        case Some((sender, b3)) =>
          match ReadString(c.utf8, b3)
          case None => None
          case Some((kind, b4)) => Some((Head(eventId, roomId, sender, kind), b4))
  }

  function ReadTail(c: Checks, b: Bytes): Reading<Tail> {
    match ReadStateKey(c, b)
    case None => None
    case Some((stateKey, b1)) =>
      match ReadNumber(8, b1)
      case None => None
      case Some((ts, b2)) =>
        match ReadNumber(8, b2)
        case None => None
        case Some((depth, b3)) =>
          match ReadList(c, b3)
          case None => None
          case Some((prev, b4)) =>
            match ReadList(c, b4)
            case None => None
            case Some((auth, b5)) =>
              match ReadString(c.utf8, b5)
              case None => None
              case Some((content, b6)) => Some((Tail(stateKey, ts, depth, prev, auth, content), b6))
  }

  function Joined(h: Head, t: Tail): Record {
    Record(h.eventId, h.roomId, h.sender, h.kind, t.stateKey, t.ts, t.depth, t.prev, t.auth, t.content)
  }

  function ReadRecord(c: Checks, b: Bytes): Reading<Record> {
    match ReadHead(c, b)
    case None => None
    case Some((h, rest)) =>
      match ReadTail(c, rest)
      case None => None
      case Some((t, after)) => Some((Joined(h, t), after))
  }

  /** decode; bytes after the record are ignored. */
  function Decode(c: Checks, b: Bytes): Option<Record> {
    match ReadRecord(c, b)
    case Some((p, _)) => Some(p)
    case None => None
  }

  /** What the record's types guarantee. */
  predicate WellTyped(c: Checks, p: Record) {
    && c.utf8(p.eventId) && c.eventId(p.eventId)
    && c.utf8(p.roomId) && c.roomId(p.roomId)
    && c.utf8(p.sender) && c.userId(p.sender)
    && c.utf8(p.kind) && c.utf8(p.contentJson)
    && (p.stateKey.Some? ==> c.utf8(p.stateKey.value))
    && (forall id | id in p.prevEvents :: c.utf8(id) && c.eventId(id))
    && (forall id | id in p.authEvents :: c.utf8(id) && c.eventId(id))
    && p.originServerTs < U64_LIMIT && p.depth < U64_LIMIT
  }

  /** Every length fits the u32 it is written as. */
  predicate Fits(p: Record) {
    && Short(p.eventId) && Short(p.roomId) && Short(p.sender) && Short(p.kind) && Short(p.contentJson)
    && (p.stateKey.Some? ==> Short(p.stateKey.value))
    && |p.prevEvents| < U32_LIMIT && |p.authEvents| < U32_LIMIT
    && (forall id | id in p.prevEvents :: Short(id))
    && (forall id | id in p.authEvents :: Short(id))
  }

  lemma HeadReadsBack(c: Checks, p: Record, rest: Bytes)
    requires WellTyped(c, p) && Fits(p)
    ensures ReadHead(c, StringBytes(p.eventId) + (StringBytes(p.roomId) + (StringBytes(p.sender) + (StringBytes(p.kind) + rest))))
      == Some((Head(p.eventId, p.roomId, p.sender, p.kind), rest))
  {
    hide ReadId, ReadString, StringBytes;
    IdReadsBack(c, c.eventId, p.eventId, StringBytes(p.roomId) + (StringBytes(p.sender) + (StringBytes(p.kind) + rest)));
    IdReadsBack(c, c.roomId, p.roomId, StringBytes(p.sender) + (StringBytes(p.kind) + rest));
    IdReadsBack(c, c.userId, p.sender, StringBytes(p.kind) + rest);
    StringReadsBack(c.utf8, p.kind, rest);
  }

  lemma TailReadsBack(c: Checks, p: Record)
    requires WellTyped(c, p) && Fits(p)
    ensures ReadTail(c, EncodeTail(p))
      == Some((Tail(p.stateKey, p.originServerTs, p.depth, p.prevEvents, p.authEvents, p.contentJson), []))
  {
    hide ReadStateKey, ReadNumber, ReadList, ReadString, StateKeyBytes, NumberBytes, ListBytes, StringBytes, Power;
    Widths();
    var content := StringBytes(p.contentJson);
    var auth := ListBytes(p.authEvents) + content;
    var prev := ListBytes(p.prevEvents) + auth;
    var depth := NumberBytes(p.depth, 8) + prev;
    StateKeyReadsBack(c, p.stateKey, NumberBytes(p.originServerTs, 8) + depth);
    NumberReadsBack(p.originServerTs, 8, depth);
    NumberReadsBack(p.depth, 8, prev);
    ListReadsBack(c, p.prevEvents, auth);
    ListReadsBack(c, p.authEvents, content);
    StringReadsBack(c.utf8, p.contentJson, []);
    assert content + [] == content;
  }

  lemma EncodedReads(c: Checks, p: Record)
    requires WellTyped(c, p) && Fits(p)
    ensures ReadRecord(c, Encode(p)) == Some((p, []))
  {
    hide ReadHead, ReadTail, StringBytes, EncodeTail;
    HeadReadsBack(c, p, EncodeTail(p));
    TailReadsBack(c, p);
  }

  lemma HeadExtends(c: Checks, b: Bytes, more: Bytes)
    ensures Extends(ReadHead(c, b), ReadHead(c, b + more), more)
  {
    hide ReadId, ReadString;
    IdExtends(c, c.eventId, b, more);
    if ReadId(c, c.eventId, b).Some? {
      var b1 := ReadId(c, c.eventId, b).value.1;
      IdExtends(c, c.roomId, b1, more);
      if ReadId(c, c.roomId, b1).Some? {
        var b2 := ReadId(c, c.roomId, b1).value.1;
        IdExtends(c, c.userId, b2, more);
        if ReadId(c, c.userId, b2).Some? {
          StringExtends(c.utf8, ReadId(c, c.userId, b2).value.1, more);
        }
      }
    }
  }

  lemma TailExtends(c: Checks, b: Bytes, more: Bytes)
    ensures Extends(ReadTail(c, b), ReadTail(c, b + more), more)
  {
    hide ReadStateKey, ReadNumber, ReadList, ReadString;
    StateKeyExtends(c, b, more);
    if ReadTail(c, b).Some? {
      var b1 := ReadStateKey(c, b).value.1;
      NumberExtends(8, b1, more);
      var b2 := ReadNumber(8, b1).value.1;
      NumberExtends(8, b2, more);
      var b3 := ReadNumber(8, b2).value.1;
      ListExtends(c, b3, more);
      var b4 := ReadList(c, b3).value.1;
      ListExtends(c, b4, more);
      StringExtends(c.utf8, ReadList(c, b4).value.1, more);
    }
  }

  lemma RecordExtends(c: Checks, b: Bytes, more: Bytes)
    ensures Extends(ReadRecord(c, b), ReadRecord(c, b + more), more)
  {
    hide ReadHead, ReadTail;
    HeadExtends(c, b, more);
    if ReadHead(c, b).Some? {
      TailExtends(c, ReadHead(c, b).value.1, more);
    }
  }

  lemma TailFits(c: Checks, b: Bytes)
    ensures ReadTail(c, b).Some? ==>
      var t := ReadTail(c, b).value.0;
      && (t.stateKey.Some? ==> Short(t.stateKey.value)) && Short(t.content)
      && |t.prev| < U32_LIMIT && |t.auth| < U32_LIMIT
      && (forall id | id in t.prev :: Short(id)) && (forall id | id in t.auth :: Short(id))
  {
    hide ReadNumber, ReadList, ReadString;
    if ReadTail(c, b).Some? {
      StringIsShort(c.utf8, b[1..]);
      var b3 := ReadNumber(8, ReadNumber(8, ReadStateKey(c, b).value.1).value.1).value.1;
      ListIsGood(c, b3);
      var b4 := ReadList(c, b3).value.1;
      ListIsGood(c, b4);
      StringIsShort(c.utf8, ReadList(c, b4).value.1);
    }
  }

  lemma HeadFits(c: Checks, b: Bytes)
    ensures ReadHead(c, b).Some? ==>
      var h := ReadHead(c, b).value.0; Short(h.eventId) && Short(h.roomId) && Short(h.sender) && Short(h.kind)
  {
    hide ReadString;
    if ReadHead(c, b).Some? {
      var b1 := ReadId(c, c.eventId, b).value.1;
      var b2 := ReadId(c, c.roomId, b1).value.1;
      StringIsShort(c.utf8, b);
      StringIsShort(c.utf8, b1);
      StringIsShort(c.utf8, b2);
      StringIsShort(c.utf8, ReadId(c, c.userId, b2).value.1);
    }
  }

  /** A stored record decodes to itself exactly when its lengths fit. */
  lemma DecodeEncode(c: Checks, p: Record)
    requires WellTyped(c, p)
    ensures Decode(c, Encode(p)) == Some(p) <==> Fits(p)
  {
    hide ReadHead, ReadTail, Encode;
    if Fits(p) {
      EncodedReads(c, p);
    }
    if Decode(c, Encode(p)) == Some(p) {
      HeadFits(c, Encode(p));
      TailFits(c, ReadHead(c, Encode(p)).value.1);
    }
  }

  /** No cut of a stored record decodes, and what follows a record is ignored. */
  lemma CutsDoNotDecode(c: Checks, p: Record, n: nat, more: Bytes)
    requires WellTyped(c, p) && Fits(p)
    ensures n < |Encode(p)| ==> Decode(c, Encode(p)[..n]) == None
    ensures Decode(c, Encode(p) + more) == Some(p)
  {
    hide ReadRecord, Encode;
    var b := Encode(p);
    EncodedReads(c, p);
    RecordExtends(c, b, more);
    if n < |b| {
      assert b[..n] + b[n..] == b;
      RecordExtends(c, b[..n], b[n..]);
    }
  }

  // ---------------------------------------------------------------------------
  // The buffer and the reader
  // ---------------------------------------------------------------------------

  method PutList(out: Bytes, ids: seq<Bytes>) returns (buffer: Bytes)
    ensures buffer == out + ListBytes(ids)
  {
    hide StringBytes;
    buffer := out + NumberBytes(Rem(|ids|, U32_LIMIT), 4);
    ghost var start := buffer;
    for i := 0 to |ids|
      invariant buffer + IdBytes(ids[i..]) == start + IdBytes(ids)
    {
      assert ids[i..][1..] == ids[i + 1..];
      assert buffer + (StringBytes(ids[i]) + IdBytes(ids[i + 1..])) == (buffer + StringBytes(ids[i])) + IdBytes(ids[i + 1..]);
      buffer := buffer + StringBytes(ids[i]);
    }
    assert ids[|ids|..] == [];
    assert buffer + [] == buffer;
    assert start + IdBytes(ids) == out + ListBytes(ids);
  }

  method EncodePdu(p: Record) returns (out: Bytes)
    requires p.originServerTs < U64_LIMIT && p.depth < U64_LIMIT
    ensures out == Encode(p)
  {
    hide StringBytes, NumberBytes, ListBytes;
    out := [];
    out := out + StringBytes(p.eventId);
    out := out + StringBytes(p.roomId);
    out := out + StringBytes(p.sender);
    out := out + StringBytes(p.kind);
    ghost var head := out;
    match p.stateKey {
      case Some(key) =>
        out := out + [1];
        out := out + StringBytes(key);
      case None =>
        out := out + [0];
    }
    assert out == head + StateKeyBytes(p.stateKey);
    out := out + NumberBytes(p.originServerTs, 8);
    out := out + NumberBytes(p.depth, 8);
    out := PutList(out, p.prevEvents);
    out := PutList(out, p.authEvents);
    out := out + StringBytes(p.contentJson);
    assert out == head + EncodeTail(p);
    assert head == StringBytes(p.eventId) + StringBytes(p.roomId) + StringBytes(p.sender) + StringBytes(p.kind);
  }

  class Reader {
    const bytes: Bytes
    var pos: nat

    constructor (bytes: Bytes)
      ensures this.bytes == bytes && pos == 0 && Valid() && Rest() == bytes
    {
      this.bytes := bytes;
      pos := 0;
    }

    ghost predicate Valid()
      reads this
    {
      pos <= |bytes|
    }

    /** What is still to be read. */
    ghost function Rest(): Bytes
      requires Valid()
      reads this
    {
      bytes[pos..]
    }

    /** The reader has done what a reading of the bytes says. */
    ghost predicate Did<T>(spec: Reading<T>, r: Option<T>)
      reads this
    {
      Valid() && match spec
      case None => r == None
      case Some((v, rest)) => r == Some(v) && Rest() == rest
    }

    method Chunk(n: nat) returns (r: Option<Bytes>)
      requires Valid()
      modifies this
      ensures Did(Take(n, old(Rest())), r)
    {
      var end := pos + n;
      if end > |bytes| {
        return None;
      }
      assert bytes[pos..][..n] == bytes[pos..end] && bytes[pos..][n..] == bytes[end..];
      r := Some(bytes[pos..end]);
      pos := end;
    }

    method Number(width: nat) returns (r: Option<nat>)
      requires Valid()
      modifies this
      ensures Did(ReadNumber(width, old(Rest())), r)
      ensures r.Some? ==> r.value < Power(0x100, width)
    {
      hide Value, Take, Power;
      var digits := Chunk(width);
      match digits {
        case None => r := None;
        case Some(d) =>
          ValueBound(d, 0x100);
          r := Some(Value(d, 0x100));
      }
    }

    method Text(utf8: Bytes -> bool) returns (r: Option<Bytes>)
      requires Valid()
      modifies this
      ensures Did(ReadString(utf8, old(Rest())), r)
    {
      hide ReadNumber, Take, Power;
      var len := Number(4);
      if len.None? {
        return None;
      }
      var s := Chunk(len.value);
      r := if s.Some? && utf8(s.value) then s else None;
    }

    method Id(c: Checks, valid: Bytes -> bool) returns (r: Option<Bytes>)
      requires Valid()
      modifies this
      ensures Did(ReadId(c, valid, old(Rest())), r)
    {
      hide ReadString;
      var s := Text(c.utf8);
      r := if s.Some? && valid(s.value) then s else None;
    }

    method StateKey(c: Checks) returns (r: Option<Option<Bytes>>)
      requires Valid()
      modifies this
      ensures Did(ReadStateKey(c, old(Rest())), r)
    {
      hide ReadString;
      ghost var before := Rest();
      var flag := Chunk(1);
      if flag.None? {
        return None;
      }
      assert before[..1][0] == before[0];
      if flag.value[0] == 1 {
        var s := Text(c.utf8);
        r := if s.Some? then Some(s) else None;
      } else if flag.value[0] == 0 {
        r := Some(None);
      } else {
        r := None;
      }
    }

    method List(c: Checks) returns (r: Option<seq<Bytes>>)
      requires Valid()
      modifies this
      ensures Did(ReadList(c, old(Rest())), r)
    {
      hide ReadNumber, ReadId, Power;
      var count := Number(4);
      if count.None? {
        return None;
      }
      ghost var start := Rest();
      var ids := [];
      PrefixedNone(ReadIds(c, count.value, start));
      for i := 0 to count.value
        invariant Valid()
        invariant ReadIds(c, count.value, start) == Prefixed(ids, ReadIds(c, count.value - i, Rest()))
      {
        ghost var before := Rest();
        var id := Id(c, c.eventId);
        if id.None? {
          return None;
        }
        PrefixedMore(ids, id.value, ReadIds(c, count.value - i - 1, Rest()));
        ids := ids + [id.value];
      }
      assert ids + [] == ids;
      r := Some(ids);
    }
  }

  /** A reading with the ids read before it put in front. */
  function Prefixed(ids: seq<Bytes>, r: Reading<seq<Bytes>>): Reading<seq<Bytes>> {
    match r
    case None => None
    case Some((more, rest)) => Some((ids + more, rest))
  }

  lemma PrefixedNone(r: Reading<seq<Bytes>>)
    ensures Prefixed([], r) == r
  {
    if r.Some? {
      assert [] + r.value.0 == r.value.0;
    }
  }

  lemma PrefixedMore(ids: seq<Bytes>, id: Bytes, r: Reading<seq<Bytes>>)
    ensures Prefixed(ids, Prefixed([id], r)) == Prefixed(ids + [id], r)
  {
    if r.Some? {
      assert ids + ([id] + r.value.0) == (ids + [id]) + r.value.0;
    }
  }

  /** The fields up to the event type. */
  method DecodeHead(c: Checks, reader: Reader) returns (r: Option<Head>)
    requires reader.Valid()
    modifies reader
    ensures reader.Did(ReadHead(c, old(reader.Rest())), r)
  {
    hide ReadId, ReadString;
    var eventId := reader.Id(c, c.eventId);
    if eventId.None? { return None; }
    var roomId := reader.Id(c, c.roomId);
    if roomId.None? { return None; }
    var sender := reader.Id(c, c.userId);
    if sender.None? { return None; }
    var kind := reader.Text(c.utf8);
    if kind.None? { return None; }
    r := Some(Head(eventId.value, roomId.value, sender.value, kind.value));
  }

  /** The fields from the state key on. */
  method DecodeTail(c: Checks, reader: Reader) returns (r: Option<Tail>)
    requires reader.Valid()
    modifies reader
    ensures reader.Did(ReadTail(c, old(reader.Rest())), r)
  {
    hide ReadString, ReadNumber, ReadList, ReadStateKey, Power;
    var stateKey := reader.StateKey(c);
    if stateKey.None? { return None; }
    var ts := reader.Number(8);
    if ts.None? { return None; }
    var depth := reader.Number(8);
    if depth.None? { return None; }
    var prev := reader.List(c);
    if prev.None? { return None; }
    var auth := reader.List(c);
    if auth.None? { return None; }
    var content := reader.Text(c.utf8);
    if content.None? { return None; }
    r := Some(Tail(stateKey.value, ts.value, depth.value, prev.value, auth.value, content.value));
  }

  method DecodePdu(c: Checks, bytes: Bytes) returns (r: Option<Record>)
    ensures r == Decode(c, bytes)
  {
    hide ReadHead, ReadTail;
    var reader := new Reader(bytes);
    var head := DecodeHead(c, reader);
    if head.None? { return None; }
    var tail := DecodeTail(c, reader);
    if tail.None? { return None; }
    r := Some(Joined(head.value, tail.value));
  }
}
