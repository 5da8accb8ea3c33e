/** The binary form of an event, byte by byte, and that the decoder reads exactly it. */
module PduFormat {
  import opened Digits
  import opened Orders
  import opened PduCodec

  // ---------------------------------------------------------------------------
  // The format. Numbers are little-endian; texts and lists are preceded by their length in four bytes.
  // ---------------------------------------------------------------------------

  function FourBytes(b: seq<nat>, i: nat): nat
    requires i + 4 <= |b|
  {
    b[i] + 0x100 * b[i + 1] + 0x1_0000 * b[i + 2] + 0x100_0000 * b[i + 3]
  }

  predicate LengthAt(b: Bytes, i: nat, n: nat) {
    i + 4 <= |b| && FourBytes(b, i) == n
  }

  predicate EightBytesAt(b: Bytes, i: nat, n: nat) {
    i + 8 <= |b| && n == FourBytes(b, i) + 0x1_0000_0000 * FourBytes(b, i + 4)
  }

  predicate TextAt(b: Bytes, i: nat, s: Bytes) {
    LengthAt(b, i, |s|) && i + 4 + |s| <= |b| && b[i + 4..i + 4 + |s|] == s
  }

  /** Where the texts that begin at `i` end. */
  function IdsEnd(i: nat, ids: seq<Bytes>): nat
    decreases |ids|
  {
    if ids == [] then i else IdsEnd(i + 4 + |ids[0]|, ids[1..])
  }

  predicate IdsAt(b: Bytes, i: nat, ids: seq<Bytes>)
    decreases |ids|
  {
    if ids == [] then i <= |b| else TextAt(b, i, ids[0]) && IdsAt(b, i + 4 + |ids[0]|, ids[1..])
  }

  predicate ListAt(b: Bytes, i: nat, ids: seq<Bytes>) {
    LengthAt(b, i, |ids|) && IdsAt(b, i + 4, ids)
  }

  /** 1 and the state key, or 0. */
  predicate KeyAt(b: Bytes, i: nat, key: Option<Bytes>) {
    i < |b| && match key case Some(s) => b[i] == 1 && TextAt(b, i + 1, s) case None => b[i] == 0
  }

  function KeyEnd(i: nat, key: Option<Bytes>): nat {
    match key case Some(s) => i + 5 + |s| case None => i + 1
  }

  predicate HeadAt(b: Bytes, h: Head) {
    && TextAt(b, 0, h.eventId)
    && TextAt(b, 4 + |h.eventId|, h.roomId)
    && TextAt(b, 8 + |h.eventId| + |h.roomId|, h.sender)
    && TextAt(b, 12 + |h.eventId| + |h.roomId| + |h.sender|, h.kind)
  }

  function HeadEnd(h: Head): nat {
    16 + |h.eventId| + |h.roomId| + |h.sender| + |h.kind|
  }

  predicate TailAt(b: Bytes, i: nat, t: Tail) {
    var times := KeyEnd(i, t.stateKey);
    var prev := times + 16;
    var auth := IdsEnd(prev + 4, t.prev);
    && KeyAt(b, i, t.stateKey)
    && EightBytesAt(b, times, t.ts) && EightBytesAt(b, times + 8, t.depth)
    && ListAt(b, prev, t.prev) && ListAt(b, auth, t.auth)
    && TextAt(b, IdsEnd(auth + 4, t.auth), t.content)
  }

  /** The bytes begin with the record: its names, its state key, its times, its two lists and its content. */
  predicate RecordAt(b: Bytes, p: Record) {
    var h, t := Head(p.eventId, p.roomId, p.sender, p.kind),
      Tail(p.stateKey, p.originServerTs, p.depth, p.prevEvents, p.authEvents, p.contentJson);
    HeadAt(b, h) && TailAt(b, HeadEnd(h), t)
  }

  // ---------------------------------------------------------------------------
  // Each part is read as it stands
  // ---------------------------------------------------------------------------

  lemma FourIs(d: seq<nat>)
    requires |d| == 4
    ensures Value(d, 0x100) == d[0] + 0x100 * d[1] + 0x1_0000 * d[2] + 0x100_0000 * d[3]
  {
    assert Value(d[4..], 0x100) == 0;
    assert Value(d[3..], 0x100) == d[3];
    assert d[2..][1..] == d[3..] && d[1..][1..] == d[2..];
    assert Value(d[2..], 0x100) == d[2] + 0x100 * d[3];
    assert Value(d[1..], 0x100) == d[1] + 0x100 * d[2] + 0x1_0000 * d[3];
  }

  lemma EightIs(d: seq<nat>)
    requires |d| == 8
    ensures Value(d, 0x100) == FourBytes(d, 0) + 0x1_0000_0000 * FourBytes(d, 4)
  {
    hide Value;
    FourIs(d[4..]);
    ValueSteps(d, 0);
    ValueSteps(d, 1);
    ValueSteps(d, 2);
    ValueSteps(d, 3);
    assert d[0..] == d;
  }

  lemma ValueSteps(d: seq<nat>, i: nat)
    requires i < |d|
    ensures Value(d[i..], 0x100) == d[i] + 0x100 * Value(d[i + 1..], 0x100)
  {
    assert d[i..][1..] == d[i + 1..];
  }

  lemma LengthIs(b: Bytes, i: nat)
    requires i <= |b|
    ensures ReadNumber(4, b[i..]) == if i + 4 <= |b| then Some((FourBytes(b, i), b[i + 4..])) else None
  {
    if i + 4 <= |b| {
      FourIs(b[i..][..4]);
      assert b[i..][4..] == b[i + 4..];
    }
  }

  lemma EightBytesIs(b: Bytes, i: nat, n: nat)
    requires i <= |b|
    ensures EightBytesAt(b, i, n) <==> ReadNumber(8, b[i..]) == Some((n, b[if i + 8 <= |b| then i + 8 else |b|..]))
    ensures ReadNumber(8, b[i..]).Some? ==> EightBytesAt(b, i, ReadNumber(8, b[i..]).value.0)
  {
    if i + 8 <= |b| {
      var d := b[i..][..8];
      EightIs(d);
      assert b[i..][8..] == b[i + 8..];
      assert FourBytes(d, 0) == FourBytes(b, i) && FourBytes(d, 4) == FourBytes(b, i + 4);
    }
  }

  /** What a reader makes of the rest from `i`: the value, and the rest from `j`. */
  predicate Reads<T(==)>(r: Reading<T>, b: Bytes, v: T, j: nat) {
    j <= |b| && r == Some((v, b[j..]))
  }

  lemma TextIs(utf8: Bytes -> bool, b: Bytes, i: nat, s: Bytes)
    requires i <= |b|
    ensures TextAt(b, i, s) && utf8(s) ==> Reads(ReadString(utf8, b[i..]), b, s, i + 4 + |s|)
    ensures var r := ReadString(utf8, b[i..]);
      r.Some? ==> TextAt(b, i, r.value.0) && utf8(r.value.0) && Reads(r, b, r.value.0, i + 4 + |r.value.0|)
  {
    LengthIs(b, i);
    if i + 4 <= |b| {
      var n := FourBytes(b, i);
      if i + 4 + n <= |b| {
        assert b[i + 4..][..n] == b[i + 4..i + 4 + n] && b[i + 4..][n..] == b[i + 4 + n..];
      }
    }
  }

  lemma IdIs(c: Checks, valid: Bytes -> bool, b: Bytes, i: nat, s: Bytes)
    requires i <= |b|
    ensures TextAt(b, i, s) && c.utf8(s) && valid(s) ==> Reads(ReadId(c, valid, b[i..]), b, s, i + 4 + |s|)
    ensures var r := ReadId(c, valid, b[i..]);
      r.Some? ==> TextAt(b, i, r.value.0) && c.utf8(r.value.0) && valid(r.value.0) && Reads(r, b, r.value.0, i + 4 + |r.value.0|)
  {
    hide ReadString;
    TextIs(c.utf8, b, i, s);
  }

  predicate ValidIds(c: Checks, ids: seq<Bytes>) {
    forall id | id in ids :: c.utf8(id) && c.eventId(id)
  }

  lemma {:induction false} IdsRead(c: Checks, b: Bytes, i: nat, ids: seq<Bytes>)
    requires IdsAt(b, i, ids) && ValidIds(c, ids)
    ensures Reads(ReadIds(c, |ids|, b[i..]), b, ids, IdsEnd(i, ids))
    decreases |ids|
  {
    hide ReadId, TextAt;
    if ids != [] {
      TextFits(b, i, ids[0]);
      IdIs(c, c.eventId, b, i, ids[0]);
      IdsRead(c, b, i + 4 + |ids[0]|, ids[1..]);
      assert [ids[0]] + ids[1..] == ids;
    }
  }

  lemma TextFits(b: Bytes, i: nat, s: Bytes)
    requires TextAt(b, i, s)
    ensures i + 4 + |s| <= |b|
  {
  }

  lemma {:induction false} IdsAreRead(c: Checks, count: nat, b: Bytes, i: nat)
    requires i <= |b| && ReadIds(c, count, b[i..]).Some?
    ensures var ids := ReadIds(c, count, b[i..]).value.0;
      |ids| == count && IdsAt(b, i, ids) && ValidIds(c, ids) && Reads(ReadIds(c, count, b[i..]), b, ids, IdsEnd(i, ids))
    decreases count
  {
    hide ReadId, TextAt;
    if count > 0 {
      var first := ReadId(c, c.eventId, b[i..]).value.0;
      IdIs(c, c.eventId, b, i, first);
      TextFits(b, i, first);
      IdsAreRead(c, count - 1, b, i + 4 + |first|);
    }
  }

  lemma ListIs(c: Checks, b: Bytes, i: nat, ids: seq<Bytes>)
    requires i <= |b|
    ensures ListAt(b, i, ids) && ValidIds(c, ids) ==> Reads(ReadList(c, b[i..]), b, ids, IdsEnd(i + 4, ids))
    ensures var r := ReadList(c, b[i..]);
      r.Some? ==> ListAt(b, i, r.value.0) && ValidIds(c, r.value.0) && Reads(r, b, r.value.0, IdsEnd(i + 4, r.value.0))
  {
    hide ReadIds, IdsAt, IdsEnd, ValidIds;
    LengthIs(b, i);
    if ListAt(b, i, ids) && ValidIds(c, ids) {
      IdsRead(c, b, i + 4, ids);
    }
    if ReadList(c, b[i..]).Some? {
      IdsAreRead(c, FourBytes(b, i), b, i + 4);
    }
  }

  lemma KeyIs(c: Checks, b: Bytes, i: nat, key: Option<Bytes>)
    requires i <= |b|
    ensures KeyAt(b, i, key) && (key.Some? ==> c.utf8(key.value)) ==> Reads(ReadStateKey(c, b[i..]), b, key, KeyEnd(i, key))
    ensures var r := ReadStateKey(c, b[i..]);
      r.Some? ==> var k := r.value.0;
        KeyAt(b, i, k) && (k.Some? ==> c.utf8(k.value)) && Reads(r, b, k, KeyEnd(i, k))
  {
    hide ReadString, TextAt;
    if i < |b| {
      assert b[i..][1..] == b[i + 1..];
      TextIs(c.utf8, b, i + 1, if key.Some? then key.value else []);
    }
  }

  predicate TypedHead(c: Checks, h: Head) {
    && c.utf8(h.eventId) && c.eventId(h.eventId) && c.utf8(h.roomId) && c.roomId(h.roomId)
    && c.utf8(h.sender) && c.userId(h.sender) && c.utf8(h.kind)
  }

  lemma HeadIs(c: Checks, b: Bytes, h: Head)
    ensures HeadAt(b, h) && TypedHead(c, h) ==> Reads(ReadHead(c, b), b, h, HeadEnd(h))
    ensures var r := ReadHead(c, b);
      r.Some? ==> HeadAt(b, r.value.0) && TypedHead(c, r.value.0) && Reads(r, b, r.value.0, HeadEnd(r.value.0))
  {
    hide ReadId, ReadString, LengthAt;
    assert b[0..] == b;
    if HeadAt(b, h) && TypedHead(c, h) {
      IdIs(c, c.eventId, b, 0, h.eventId);
      IdIs(c, c.roomId, b, 4 + |h.eventId|, h.roomId);
      IdIs(c, c.userId, b, 8 + |h.eventId| + |h.roomId|, h.sender);
      TextIs(c.utf8, b, 12 + |h.eventId| + |h.roomId| + |h.sender|, h.kind);
    }
    if ReadHead(c, b).Some? {
      var g := ReadHead(c, b).value.0;
      IdIs(c, c.eventId, b, 0, g.eventId);
      IdIs(c, c.roomId, b, 4 + |g.eventId|, g.roomId);
      IdIs(c, c.userId, b, 8 + |g.eventId| + |g.roomId|, g.sender);
      TextIs(c.utf8, b, 12 + |g.eventId| + |g.roomId| + |g.sender|, g.kind);
    }
  }

  predicate TypedTail(c: Checks, t: Tail) {
    (t.stateKey.Some? ==> c.utf8(t.stateKey.value)) && ValidIds(c, t.prev) && ValidIds(c, t.auth) && c.utf8(t.content)
  }

  lemma TailReads(c: Checks, b: Bytes, i: nat, t: Tail)
    requires i <= |b| && TailAt(b, i, t) && TypedTail(c, t)
    ensures ReadTail(c, b[i..]).Some? && ReadTail(c, b[i..]).value.0 == t
  {
    hide ReadStateKey, ReadNumber, ReadList, ReadString, KeyAt, KeyEnd, EightBytesAt, ListAt, TextAt, IdsEnd, ValidIds;
    var times := KeyEnd(i, t.stateKey);
    KeyIs(c, b, i, t.stateKey);
    EightFits(b, times, t.ts);
    EightFits(b, times + 8, t.depth);
    EightBytesIs(b, times, t.ts);
    EightBytesIs(b, times + 8, t.depth);
    ListIs(c, b, times + 16, t.prev);
    var auth := IdsEnd(times + 20, t.prev);
    ListIs(c, b, auth, t.auth);
    TextIs(c.utf8, b, IdsEnd(auth + 4, t.auth), t.content);
  }

  lemma EightFits(b: Bytes, i: nat, n: nat)
    requires EightBytesAt(b, i, n)
    ensures i + 8 <= |b|
  {
  }

  lemma TailIsRead(c: Checks, b: Bytes, i: nat)
    requires i <= |b| && ReadTail(c, b[i..]).Some?
    ensures var t := ReadTail(c, b[i..]).value.0; TailAt(b, i, t) && TypedTail(c, t)
  {
    hide ReadStateKey, ReadNumber, ReadList, ReadString, KeyAt, KeyEnd, EightBytesAt, ListAt, TextAt, IdsEnd, ValidIds;
    var t := ReadTail(c, b[i..]).value.0;
    KeyIs(c, b, i, t.stateKey);
    var times := KeyEnd(i, t.stateKey);
    EightBytesIs(b, times, t.ts);
    EightFits(b, times, t.ts);
    EightBytesIs(b, times + 8, t.depth);
    EightFits(b, times + 8, t.depth);
    ListIs(c, b, times + 16, t.prev);
    var auth := IdsEnd(times + 20, t.prev);
    ListIs(c, b, auth, t.auth);
    TextIs(c.utf8, b, IdsEnd(auth + 4, t.auth), t.content);
  }

  /** Bytes decode to a record exactly if they begin with its binary form and its fields are valid. */
  lemma DecodeIff(c: Checks, b: Bytes, p: Record)
    ensures Decode(c, b) == Some(p) <==> RecordAt(b, p) && WellTyped(c, p)
  {
    hide ReadHead, ReadTail, HeadAt, TailAt, EightBytesAt;
    var h, t := Head(p.eventId, p.roomId, p.sender, p.kind),
      Tail(p.stateKey, p.originServerTs, p.depth, p.prevEvents, p.authEvents, p.contentJson);
    HeadIs(c, b, h);
    if RecordAt(b, p) && WellTyped(c, p) {
      TailReads(c, b, HeadEnd(h), t);
    }
    if Decode(c, b) == Some(p) {
      TailIsRead(c, b, HeadEnd(h));
      TimesFit(b, HeadEnd(h), t);
    }
  }

  lemma TimesFit(b: Bytes, i: nat, t: Tail)
    requires TailAt(b, i, t)
    ensures t.ts < 0x1_0000_0000_0000_0000 && t.depth < 0x1_0000_0000_0000_0000
  {
    hide KeyAt, ListAt, TextAt, IdsEnd, KeyEnd;
  }

  /** The encoder writes that form, whole, for every record whose lengths fit. */
  lemma EncodedIsRecord(c: Checks, p: Record)
    requires WellTyped(c, p) && Fits(p)
    ensures RecordAt(Encode(p), p)
  {
    DecodeEncode(c, p);
    DecodeIff(c, Encode(p), p);
  }
}
