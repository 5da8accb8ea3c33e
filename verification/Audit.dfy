/**
 The hash-chained audit log: one column of encoded entries keyed by sequence number. The digest is
 a parameter.
 */
module Audit {
  import opened Columns
  import opened Orders
  import opened Text

  const SEP: char := '\U{1f}'

  const U64_LIMIT: nat := 0x1_0000_0000_0000_0000

  type U64 = x: nat | x < U64_LIMIT

  type Digest = (string, string, U64) -> U64

  datatype Entry = Entry(actor: string, event: string, prevHash: U64, hash: U64)

  // ---------------------------------------------------------------------------
  // Encoding
  // ---------------------------------------------------------------------------

  function Encode(e: Entry): string {
    e.actor + [SEP] + e.event + [SEP] + Decimal(e.prevHash) + [SEP] + Decimal(e.hash)
  }

  /** `str::split(SEP)`. */
  function Parts(s: string): (r: seq<string>)
    ensures |r| >= 1
    ensures forall i | 0 <= i < |r| :: SEP !in r[i]
    decreases |s|
  {
    match SplitOnce(s, SEP)
    case None => [s]
    case Some((head, tail)) => [head] + Parts(tail)
  }

  /** `str::parse::<u64>`: digits after an optional plus sign, within range. */
  function ParseU64(s: string): Option<U64> {
    var digits := if s != "" && s[0] == '+' then s[1..] else s;
    if digits != "" && AllDigits(digits) && NumeralValue(digits) < U64_LIMIT then Some(NumeralValue(digits)) else None
  }

  function Decode(s: string): Option<Entry> {
    var parts := Parts(s);
    if |parts| < 4 then None
    else
      match (ParseU64(parts[2]), ParseU64(parts[3]))
      case (Some(prevHash), Some(hash)) => Some(Entry(parts[0], parts[1], prevHash, hash))
      case _ => None
  }

  predicate Clean(s: string) {
    SEP !in s
  }

  lemma PartsOf(head: string, tail: string)
    requires Clean(head)
    ensures Parts(head + [SEP] + tail) == [head] + Parts(tail)
  {
    SplitOnceAt(head, SEP, tail);
  }

  lemma PartsOfClean(s: string)
    requires Clean(s)
    ensures Parts(s) == [s]
  {
  }

  lemma ParsesBack(n: U64)
    ensures ParseU64(Decimal(n)) == Some(n) && Clean(Decimal(n))
  {
    DecimalReadsBack(n);
    assert IsDigit(Decimal(n)[0]) && !IsDigit(SEP);
  }

  lemma EncodeSplits(e: Entry)
    ensures Encode(e) == e.actor + [SEP] + (e.event + [SEP] + (Decimal(e.prevHash) + [SEP] + Decimal(e.hash)))
  {
  }

  /** An entry reads back exactly when neither text field holds the separator. */
  lemma DecodeEncode(e: Entry)
    ensures Decode(Encode(e)) == Some(e) <==> Clean(e.actor) && Clean(e.event)
  {
    hide Encode, ParseU64;
    if Clean(e.actor) && Clean(e.event) {
      CleanDecodes(e);
    }
  }

  lemma CleanDecodes(e: Entry)
    requires Clean(e.actor) && Clean(e.event)
    ensures Decode(Encode(e)) == Some(e)
  {
    hide Encode, Decimal, Parts, ParseU64;
    var prev, hash := Decimal(e.prevHash), Decimal(e.hash);
    EncodeSplits(e);
    ParsesBack(e.prevHash);
    ParsesBack(e.hash);
    PartsOfClean(hash);
    PartsOf(prev, hash);
    PartsOf(e.event, prev + [SEP] + hash);
    PartsOf(e.actor, e.event + [SEP] + (prev + [SEP] + hash));
    assert Parts(Encode(e)) == [e.actor, e.event, prev, hash];
  }

  // ---------------------------------------------------------------------------
  // Appending
  // ---------------------------------------------------------------------------

  /** The entries of a scan, leaving out values that do not decode. */
  function Decoded(scan: seq<(string, string)>): seq<Entry> {
    if scan == [] then []
    else
      var rest := Decoded(scan[..|scan| - 1]);
      match Decode(scan[|scan| - 1].1)
      case Some(e) => rest + [e]
      case None => rest
  }

  function Entries(log: Column): seq<Entry> {
    Decoded(Scan(log))
  }

  function TipOf(es: seq<Entry>): U64 {
    if es == [] then 0 else es[|es| - 1].hash
  }

  function Link(digest: Digest, actor: string, event: string, prev: U64): Entry {
    Entry(actor, event, prev, digest(actor, event, prev))
  }

  function Appended(digest: Digest, log: Column, actor: string, event: string): Column {
    log[Padded(|log|) := Encode(Link(digest, actor, event, TipOf(Entries(log))))]
  }

  /** What the log holds after an append: the new entry, as it reads back. */
  lemma AppendedEntries(digest: Digest, log: Column, actor: string, event: string)
    requires Numbered(log) && |log| < PAD_LIMIT
    ensures var e := Link(digest, actor, event, TipOf(Entries(log)));
      var log' := Appended(digest, log, actor, event);
      && Numbered(log') && |log'| == |log| + 1
      && Entries(log') == Entries(log) + (match Decode(Encode(e)) case Some(d) => [d] case None => [])
      && (Entries(log') == Entries(log) + [e] <==> Clean(actor) && Clean(event))
  {
    hide Encode, Decode, Padded, Scan;
    var e := Link(digest, actor, event, TipOf(Entries(log)));
    NumberedAppend(log, Encode(e));
    DecodeEncode(e);
    var scan := Scan(log) + [(Padded(|log|), Encode(e))];
    assert scan[..|scan| - 1] == Scan(log);
    if Decode(Encode(e)).Some? {
      LastOf(Entries(log), Decode(Encode(e)).value, e);
    }
  }

  lemma LastOf(es: seq<Entry>, d: Entry, e: Entry)
    ensures es + [d] == es + [e] <==> d == e
  {
    assert (es + [d])[|es|] == d && (es + [e])[|es|] == e;
  }

  /** An event with the separator reads back cut off there, or not at all. */
  lemma DirtyEntryIsCut(e: Entry, head: string, tail: string)
    requires Clean(e.actor) && Clean(head) && e.event == head + [SEP] + tail
    ensures var d := Decode(Encode(e)); d.Some? ==> d.value.actor == e.actor && d.value.event == head
  {
    hide Encode, ParseU64, Decimal, Parts;
    var rest := Decimal(e.prevHash) + [SEP] + Decimal(e.hash);
    EncodeSplits(e);
    assert e.event + [SEP] + rest == head + [SEP] + (tail + [SEP] + rest);
    PartsOf(e.actor, e.event + [SEP] + rest);
    PartsOf(head, tail + [SEP] + rest);
  }

  /** With the separator in an event, the append can be lost without a trace. */
  lemma EntryWithSeparatorIsLost(digest: Digest, log: Column)
    requires Numbered(log) && |log| < PAD_LIMIT
    ensures Entries(Appended(digest, log, "a", ['x', SEP, 'y'])) == Entries(log)
  {
    hide Encode, Padded, Scan, Decimal;
    var event := ['x', SEP, 'y'];
    var e := Link(digest, "a", event, TipOf(Entries(log)));
    var rest := Decimal(e.prevHash) + [SEP] + Decimal(e.hash);
    AppendedEntries(digest, log, "a", event);
    EncodeSplits(e);
    assert event + [SEP] + rest == "x" + [SEP] + ("y" + [SEP] + rest);
    PartsOf("a", event + [SEP] + rest);
    PartsOf("x", "y" + [SEP] + rest);
    PartsOf("y", rest);
    assert ParseU64("y") == None;
  }

  // ---------------------------------------------------------------------------
  // Verifying
  // ---------------------------------------------------------------------------

  /** Entry `i` commits to the entry before it and to its own content. */
  predicate LinkHolds(digest: Digest, es: seq<Entry>, i: nat)
    requires i < |es|
  {
    && es[i].prevHash == TipOf(es[..i])
    && es[i].hash == digest(es[i].actor, es[i].event, es[i].prevHash)
  }

  ghost predicate Chained(digest: Digest, es: seq<Entry>) {
    forall i | 0 <= i < |es| :: LinkHolds(digest, es, i)
  }

  lemma ChainGrows(digest: Digest, es: seq<Entry>, actor: string, event: string)
    requires Chained(digest, es)
    ensures Chained(digest, es + [Link(digest, actor, event, TipOf(es))])
  {
    var es' := es + [Link(digest, actor, event, TipOf(es))];
    forall i | 0 <= i < |es'| ensures LinkHolds(digest, es', i) {
      assert es'[..i] == es[..i];
      assert es[..|es|] == es;
      if i < |es| {
        assert LinkHolds(digest, es, i);
      }
    }
  }

  /** Appending clean text keeps the log verifying. */
  lemma AppendKeepsChain(digest: Digest, log: Column, actor: string, event: string)
    requires Numbered(log) && |log| < PAD_LIMIT && Chained(digest, Entries(log))
    requires Clean(actor) && Clean(event)
    ensures Chained(digest, Entries(Appended(digest, log, actor, event)))
  {
    hide Entries, Appended;
    AppendedEntries(digest, log, actor, event);
    ChainGrows(digest, Entries(log), actor, event);
  }

  class AuditLog {
    const digest: Digest
    var column: Column

    constructor (digest: Digest)
      ensures this.digest == digest && column == map[]
    {
      this.digest := digest;
      column := map[];
    }

    method Append(actor: string, event: string)
      modifies this
      ensures column == Appended(digest, old(column), actor, event)
    {
      hide Padded, Encode, Entries;
      var seqNo := |column|;
      var es := Entries(column);
      var prevHash: U64 := if es == [] then 0 else es[|es| - 1].hash;
      var hash := digest(actor, event, prevHash);
      column := column[Padded(seqNo) := Encode(Entry(actor, event, prevHash, hash))];
    }

    /** Ok exactly when every link holds; otherwise the index of the first that does not. */
    method Verify() returns (r: Result<(), nat>)
      ensures r.Ok? <==> Chained(digest, Entries(column))
      ensures r.Err? ==> r.error < |Entries(column)| && !LinkHolds(digest, Entries(column), r.error)
      ensures r.Err? ==> forall i | 0 <= i < r.error :: LinkHolds(digest, Entries(column), i)
    {
      hide Entries;
      var es := Entries(column);
      var expectedPrev: U64 := 0;
      for i := 0 to |es|
        invariant expectedPrev == TipOf(es[..i])
        invariant forall j | 0 <= j < i :: LinkHolds(digest, es, j)
      {
        var e := es[i];
        if e.prevHash != expectedPrev {
          assert !LinkHolds(digest, es, i);
          return Err(i);
        }
        if e.hash != digest(e.actor, e.event, e.prevHash) {
          assert !LinkHolds(digest, es, i);
          return Err(i);
        }
        expectedPrev := e.hash;
      }
      r := Ok(());
    }
  }

  // ---------------------------------------------------------------------------
  // The last hash pins the log
  // ---------------------------------------------------------------------------

  /** Each entry names the hash of the one before it, the first one 0, and its own hash is the digest of the three. */
  lemma ChainedIs(digest: Digest, es: seq<Entry>)
    ensures Chained(digest, es) <==>
      forall i | 0 <= i < |es| ::
        && es[i].prevHash == (if i == 0 then 0 else es[i - 1].hash)
        && es[i].hash == digest(es[i].actor, es[i].event, es[i].prevHash)
  {
    forall i | 0 <= i < |es| ensures TipOf(es[..i]) == if i == 0 then 0 else es[i - 1].hash {
    }
    if Chained(digest, es) {
      forall i | 0 <= i < |es|
        ensures es[i].prevHash == (if i == 0 then 0 else es[i - 1].hash)
          && es[i].hash == digest(es[i].actor, es[i].event, es[i].prevHash)
      {
        assert LinkHolds(digest, es, i);
      }
    }
  }

  predicate SameContent(a: Entry, b: Entry) {
    a.actor == b.actor && a.event == b.event && a.prevHash == b.prevHash
  }

  predicate Collide(digest: Digest, a: Entry, b: Entry) {
    && digest(a.actor, a.event, a.prevHash) == digest(b.actor, b.event, b.prevHash)
    && !SameContent(a, b)
  }

  /** Two verifying logs of one length and one last hash are equal, or show a digest collision. */
  lemma {:induction false} TipPinsTheLog(digest: Digest, a: seq<Entry>, b: seq<Entry>)
    requires Chained(digest, a) && Chained(digest, b)
    requires |a| == |b| && TipOf(a) == TipOf(b)
    ensures a == b || exists i | 0 <= i < |a| :: Collide(digest, a[i], b[i])
  {
    if a != [] {
      var n := |a| - 1;
      assert LinkHolds(digest, a, n) && LinkHolds(digest, b, n);
      if SameContent(a[n], b[n]) {
        ChainPrefix(digest, a, n);
        ChainPrefix(digest, b, n);
        TipPinsTheLog(digest, a[..n], b[..n]);
        if a[..n] == b[..n] {
          assert a == a[..n] + [a[n]] && b == b[..n] + [b[n]];
        } else {
          var i :| 0 <= i < n && Collide(digest, a[..n][i], b[..n][i]);
          assert Collide(digest, a[i], b[i]);
        }
      }
    }
  }

  lemma ChainPrefix(digest: Digest, es: seq<Entry>, n: nat)
    requires Chained(digest, es) && n <= |es|
    ensures Chained(digest, es[..n])
  {
    forall i | 0 <= i < n ensures LinkHolds(digest, es[..n], i) {
      assert es[..n][..i] == es[..i];
      assert LinkHolds(digest, es, i);
    }
  }
}
