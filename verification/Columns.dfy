/** A column family: string keys and values, scanned in key order. */
module Columns {
  import opened Orders
  import opened Text

  type Column = map<string, string>

  function SortedKeys(c: Column): seq<string> {
    StrLessIsStrictTotal();
    Ascending(StrLess, c.Keys)
  }

  lemma SortedKeysAreKeys(c: Column)
    ensures |SortedKeys(c)| == |c|
    ensures forall k :: k in SortedKeys(c) <==> k in c
    ensures IsAscending(StrLess, SortedKeys(c))
  {
    StrLessIsStrictTotal();
    AscendingIsSorted(StrLess, c.Keys);
  }

  /** `Store::scan`: the pairs, ordered by key. */
  function Scan(c: Column): seq<(string, string)> {
    SortedKeysAreKeys(c);
    var keys := SortedKeys(c);
    seq(|keys|, i requires 0 <= i < |keys| => (keys[i], c[keys[i]]))
  }

  // ---------------------------------------------------------------------------
  // Columns keyed by zero-padded sequence numbers
  // ---------------------------------------------------------------------------

  function NumberKeys(n: nat): set<string> {
    set i | 0 <= i < n :: Padded(i)
  }

  function NumberList(n: nat): seq<string> {
    seq(n, i requires 0 <= i => Padded(i))
  }

  /** The keys are the numbers below the size, as appending at `count` leaves them. */
  ghost predicate Numbered(c: Column) {
    c.Keys == NumberKeys(|c|)
  }

  lemma PaddedOrder(i: nat, j: nat)
    requires i < PAD_LIMIT && j < PAD_LIMIT
    ensures StrLess(Padded(i), Padded(j)) <==> i < j
    ensures Padded(i) == Padded(j) ==> i == j
  {
    hide Padded;
    PaddedReadsBack(i);
    PaddedReadsBack(j);
    NumeralOrder(Padded(i), Padded(j));
  }

  /** Zero padding makes key order the order of the numbers. */
  lemma NumberedKeys(c: Column)
    requires Numbered(c) && |c| <= PAD_LIMIT
    ensures SortedKeys(c) == NumberList(|c|)
  {
    hide Padded, StrLess;
    var list := NumberList(|c|);
    forall i, j | 0 <= i < j < |list| ensures StrLess(list[i], list[j]) {
      PaddedOrder(i, j);
    }
    forall k ensures k in list <==> k in c.Keys {
      if k in c.Keys {
        var i: nat :| i < |c| && k == Padded(i);
        assert list[i] == k;
      }
    }
    StrLessIsStrictTotal();
    AscendingIsUnique(StrLess, c.Keys, list);
  }

  /** Writing at key `count` appends to the scan. */
  lemma NumberedAppend(c: Column, v: string)
    requires Numbered(c) && |c| < PAD_LIMIT
    ensures var c' := c[Padded(|c|) := v];
      Numbered(c') && |c'| == |c| + 1 && Scan(c') == Scan(c) + [(Padded(|c|), v)]
  {
    hide Padded, SortedKeys;
    var key := Padded(|c|);
    var c' := c[key := v];
    if key in c {
      var i: nat :| i < |c| && key == Padded(i);
      PaddedOrder(i, |c|);
    }
    assert c'.Keys == c.Keys + {key};
    forall k ensures k in c'.Keys <==> k in NumberKeys(|c| + 1) {
      if k in NumberKeys(|c| + 1) {
        var i: nat :| i < |c| + 1 && k == Padded(i);
      }
    }
    NumberedKeys(c);
    NumberedKeys(c');
    forall i | 0 <= i < |c| ensures Padded(i) in c && Padded(i) != key {
      PaddedOrder(i, |c|);
    }
  }
}
