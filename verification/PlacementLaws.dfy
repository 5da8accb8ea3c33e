/** Who holds each point of the ring after any history, and which shard a room is placed on. */
module PlacementLaws {
  import opened Orders
  import opened Text
  import opened Placement

  // ---------------------------------------------------------------------------
  // Histories
  // ---------------------------------------------------------------------------

  /** The shard was added, and not removed since. */
  ghost predicate Present(changes: seq<Change>, shard: string) {
    exists i :: AddedAt(changes, shard, i)
  }

  ghost predicate AddedAt(changes: seq<Change>, shard: string, i: nat) {
    i < |changes| && changes[i] == AddShard(shard) && forall j | i < j < |changes| :: changes[j] != RemoveShard(shard)
  }

  /** The change at `i` adds a shard that was not there. */
  ghost predicate Joins(changes: seq<Change>, shard: string, i: nat) {
    i < |changes| && changes[i] == AddShard(shard) && !Present(changes[..i], shard)
  }

  /** The shard has a virtual node at the point. */
  ghost predicate HasNode(hash: HashFn, vnodes: nat, shard: string, k: int) {
    exists v: nat | v < vnodes :: hash(shard + "#" + Decimal(v)) == k
  }

  /** The shard took the point when it joined at `i`; it was not removed, nor the point taken by another, since. */
  ghost predicate Holds(hash: HashFn, vnodes: nat, changes: seq<Change>, k: int, shard: string, i: nat) {
    && Joins(changes, shard, i) && HasNode(hash, vnodes, shard, k)
    && forall j | i < j < |changes| ::
         changes[j] != RemoveShard(shard) && forall other :: Joins(changes, other, j) ==> !HasNode(hash, vnodes, other, k)
  }

  ghost predicate Holder(hash: HashFn, vnodes: nat, changes: seq<Change>, k: int, shard: string) {
    exists i :: Holds(hash, vnodes, changes, k, shard, i)
  }

  lemma NodeIs(hash: HashFn, vnodes: nat, shard: string, k: int)
    ensures PointOf(hash, shard, vnodes, k) <==> HasNode(hash, vnodes, shard, k)
  {
    if v: nat :| v < vnodes && k == hash(VnodeName(shard, v)) {
      assert hash(shard + "#" + Decimal(v)) == k;
    }
    if v: nat :| v < vnodes && hash(shard + "#" + Decimal(v)) == k {
      assert k == hash(VnodeName(shard, v));
    }
  }

  lemma PresentNext(before: seq<Change>, c: Change, shard: string)
    ensures Present(before + [c], shard) <==> c == AddShard(shard) || (Present(before, shard) && c != RemoveShard(shard))
  {
    var changes := before + [c];
    if c == AddShard(shard) {
      assert AddedAt(changes, shard, |before|);
    }
    if i: nat :| AddedAt(before, shard, i) {
      if c != RemoveShard(shard) {
        assert AddedAt(changes, shard, i);
      }
    }
    if i: nat :| AddedAt(changes, shard, i) {
      assert changes[|before|] == c;
      if i < |before| {
        assert forall j | i < j < |before| :: before[j] == changes[j];
        assert AddedAt(before, shard, i);
      }
    }
  }

  /** The shards of the map are the shards present. */
  lemma {:induction false} ShardsArePresent(hash: HashFn, vnodes: nat, changes: seq<Change>, shard: string)
    ensures shard in Run(hash, vnodes, changes).shards <==> Present(changes, shard)
  {
    hide Added, Removed, Present;
    if changes == [] {
      NonePresent(shard);
    } else {
      var n := |changes| - 1;
      ShardsArePresent(hash, vnodes, changes[..n], shard);
      PresentNext(changes[..n], changes[n], shard);
      assert changes == changes[..n] + [changes[n]];
    }
  }

  lemma NonePresent(shard: string)
    ensures !Present([], shard)
  {
  }

  lemma HolderNext(hash: HashFn, vnodes: nat, before: seq<Change>, c: Change, k: int, shard: string)
    ensures Holder(hash, vnodes, before + [c], k, shard) <==>
      if c.AddShard? && !Present(before, c.shard) && HasNode(hash, vnodes, c.shard, k) then c.shard == shard
      else Holder(hash, vnodes, before, k, shard) && c != RemoveShard(shard)
  {
    hide Present, HasNode;
    var changes := before + [c];
    var n := |before|;
    assert changes[n] == c && changes[..n] == before;
    forall i: nat, s | i < n ensures Joins(changes, s, i) <==> Joins(before, s, i) {
      assert changes[..i] == before[..i] && changes[i] == before[i];
    }
    if i: nat :| Holds(hash, vnodes, before, k, shard, i) {
      assert forall j | i < j < n :: changes[j] == before[j];
      if c != RemoveShard(shard) && !(c.AddShard? && !Present(before, c.shard) && HasNode(hash, vnodes, c.shard, k)) {
        assert Holds(hash, vnodes, changes, k, shard, i);
      }
    }
    if c == AddShard(shard) && !Present(before, shard) && HasNode(hash, vnodes, shard, k) {
      assert Holds(hash, vnodes, changes, k, shard, n);
    }
    if i: nat :| Holds(hash, vnodes, changes, k, shard, i) {
      if i < n {
        assert forall j | i < j < n :: changes[j] == before[j];
        assert Holds(hash, vnodes, before, k, shard, i);
        assert c.AddShard? ==> (Joins(changes, c.shard, n) <==> !Present(before, c.shard));
      }
    }
  }

  /** After any history, collisions or not, a point is owned by its holder. */
  lemma {:induction false} RingIs(hash: HashFn, vnodes: nat, changes: seq<Change>, k: int, shard: string)
    ensures var ring := Run(hash, vnodes, changes).ring;
      k in ring && ring[k] == shard <==> Holder(hash, vnodes, changes, k, shard)
  {
    hide Added, Holder, Present, PointOf, HasNode;
    if changes == [] {
      NoHolder(hash, vnodes, k, shard);
    } else {
      var n := |changes| - 1;
      var before, c := changes[..n], changes[n];
      RingIs(hash, vnodes, before, k, shard);
      HolderNext(hash, vnodes, before, c, k, shard);
      assert changes == before + [c];
      ShardsArePresent(hash, vnodes, before, c.shard);
      if c.AddShard? {
        AddedIs(hash, Run(hash, vnodes, before).ring, c.shard, vnodes);
        NodeIs(hash, vnodes, c.shard, k);
      } else if Holder(hash, vnodes, before, k, c.shard) {
        HolderIsPresent(hash, vnodes, before, k, c.shard);
      }
    }
  }

  lemma NoHolder(hash: HashFn, vnodes: nat, k: int, shard: string)
    ensures !Holder(hash, vnodes, [], k, shard)
  {
  }

  lemma HolderIsPresent(hash: HashFn, vnodes: nat, changes: seq<Change>, k: int, shard: string)
    requires Holder(hash, vnodes, changes, k, shard)
    ensures Present(changes, shard)
  {
    var i: nat :| Holds(hash, vnodes, changes, k, shard, i);
    assert AddedAt(changes, shard, i);
  }

  // ---------------------------------------------------------------------------
  // Placement
  // ---------------------------------------------------------------------------

  /** Going up from `point`, and round from the top to the bottom, `j` is met before `k`. */
  predicate Sooner(point: int, j: int, k: int) {
    if j >= point then k < point || j < k else k < point && j < k
  }

  /** A room is owned by the node met first from its point; no room is owned exactly if there is no node. */
  lemma OwnerIs(ring: Ring, point: int, shard: string)
    ensures Owner(ring, point) == Some(shard) <==>
      exists k :: k in ring && ring[k] == shard && forall j | j in ring :: !Sooner(point, j, k)
    ensures Owner(ring, point) == None <==> ring == map[]
  {
    if ring.Keys != {} {
      var k := NodeFor(ring, point);
      NodeIsFirst(ring, point);
      forall j | j in ring ensures !Sooner(point, j, k) {
        NeverSooner(ring, point, k, j);
      }
    }
  }

  lemma NeverSooner(ring: Ring, point: int, k: int, j: int)
    requires j in ring && k in Candidates(ring, point) && forall c | c in Candidates(ring, point) :: k <= c
    ensures !Sooner(point, j, k)
  {
    var later := set l | l in ring && l >= point;
    if later != {} {
      assert k in later;
      assert j >= point ==> j in later;
    } else {
      assert j < point ==> j in ring.Keys;
      assert j >= point ==> j in later;
    }
  }

  /** The shard's node `v` serves the point: no node of a shard present is met sooner. */
  ghost predicate Serves(hash: HashFn, vnodes: nat, changes: seq<Change>, point: int, shard: string, v: nat) {
    && v < vnodes && Present(changes, shard)
    && forall other, k | Present(changes, other) && HasNode(hash, vnodes, other, k) ::
         !Sooner(point, k, hash(shard + "#" + Decimal(v)))
  }

  /** No two shards present share a point. */
  ghost predicate Apart(hash: HashFn, vnodes: nat, changes: seq<Change>) {
    forall c, d, k | c in changes && d in changes && HasNode(hash, vnodes, c.shard, k) && HasNode(hash, vnodes, d.shard, k) ::
      c.shard == d.shard
  }

  lemma {:induction false} PresentHolds(hash: HashFn, vnodes: nat, changes: seq<Change>, shard: string, k: int)
    requires Apart(hash, vnodes, changes)
    ensures Holder(hash, vnodes, changes, k, shard) <==> Present(changes, shard) && HasNode(hash, vnodes, shard, k)
  {
    hide HasNode, Present, Holder;
    if changes == [] {
      NoHolder(hash, vnodes, k, shard);
      NonePresent(shard);
    } else {
      var n := |changes| - 1;
      var before, c := changes[..n], changes[n];
      assert changes == before + [c];
      PresentHolds(hash, vnodes, before, shard, k);
      HolderNext(hash, vnodes, before, c, k, shard);
      PresentNext(before, c, shard);
      if Present(before, shard) {
        PresentIsNamed(before, shard);
      }
    }
  }

  lemma PresentIsNamed(changes: seq<Change>, shard: string)
    requires Present(changes, shard)
    ensures AddShard(shard) in changes
  {
    var i: nat :| AddedAt(changes, shard, i);
  }

  /**
   After any history without collisions, a room is placed on the shard whose node is met first from the
   room's point, among all nodes of all shards present; and on none exactly if no shard is present.
   */
  lemma RoomIsPlaced(hash: HashFn, vnodes: nat, changes: seq<Change>, point: int, shard: string)
    requires Apart(hash, vnodes, changes)
    ensures Owner(Run(hash, vnodes, changes).ring, point) == Some(shard) <==>
      exists v :: Serves(hash, vnodes, changes, point, shard, v)
  {
    hide Run, Owner, Present, HasNode, Holder;
    var ring := Run(hash, vnodes, changes).ring;
    forall k, s ensures k in ring && ring[k] == s <==> Present(changes, s) && HasNode(hash, vnodes, s, k) {
      RingIs(hash, vnodes, changes, k, s);
      PresentHolds(hash, vnodes, changes, s, k);
    }
    OwnerIs(ring, point, shard);
    if v: nat :| Serves(hash, vnodes, changes, point, shard, v) {
      var k := hash(shard + "#" + Decimal(v));
      NodeAt(hash, vnodes, shard, v);
      assert k in ring && ring[k] == shard;
      forall j | j in ring ensures !Sooner(point, j, k) {
        assert Present(changes, ring[j]) && HasNode(hash, vnodes, ring[j], j);
      }
    }
    if k :| k in ring && ring[k] == shard && forall j | j in ring :: !Sooner(point, j, k) {
      var v := NodeOf(hash, vnodes, shard, k);
      assert Serves(hash, vnodes, changes, point, shard, v);
    }
  }

  lemma NodeAt(hash: HashFn, vnodes: nat, shard: string, v: nat)
    requires v < vnodes
    ensures HasNode(hash, vnodes, shard, hash(shard + "#" + Decimal(v)))
  {
  }

  lemma NodeOf(hash: HashFn, vnodes: nat, shard: string, k: int) returns (v: nat)
    requires HasNode(hash, vnodes, shard, k)
    ensures v < vnodes && hash(shard + "#" + Decimal(v)) == k
  {
    v :| v < vnodes && hash(shard + "#" + Decimal(v)) == k;
  }

  /** With at least one node each, a room has an owner exactly if a shard is present. */
  lemma RoomHasOwner(hash: HashFn, vnodes: nat, changes: seq<Change>, point: int)
    requires vnodes >= 1 && Apart(hash, vnodes, changes)
    ensures Owner(Run(hash, vnodes, changes).ring, point).Some? <==> exists shard :: Present(changes, shard)
  {
    hide Run, Present, HasNode, Holder;
    var ring := Run(hash, vnodes, changes).ring;
    if shard :| Present(changes, shard) {
      NodeAt(hash, vnodes, shard, 0);
      var k := hash(shard + "#" + Decimal(0));
      PresentHolds(hash, vnodes, changes, shard, k);
      RingIs(hash, vnodes, changes, k, shard);
    }
    if ring.Keys != {} {
      var k := NodeFor(ring, point);
      RingIs(hash, vnodes, changes, k, ring[k]);
      PresentHolds(hash, vnodes, changes, ring[k], k);
    }
  }
}
