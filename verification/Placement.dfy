/**
 Consistent-hash placement of rooms onto shards. The hash is a parameter; collisions are allowed
 and their effect is stated.
 */
module Placement {
  import opened Orders
  import opened Text

  type HashFn = string -> int

  /** Points of the ring and the shard that owns each. */
  type Ring = map<int, string>

  /** The text hashed for one virtual node of a shard. */
  function VnodeName(shard: string, vnode: nat): string {
    shard + "#" + Decimal(vnode)
  }

  lemma LastHash(s: string, digits: string)
    requires AllDigits(digits)
    ensures var x := s + "#" + digits;
      x[|s|] == '#' && forall i | |s| < i < |x| :: x[i] != '#'
  {
    var x := s + "#" + digits;
    forall i | |s| < i < |x| ensures x[i] != '#' {
      assert x[i] == digits[i - |s| - 1];
      assert IsDigit(x[i]);
    }
  }

  /** Shard names may hold anything: no two virtual nodes share a name. */
  lemma VnodeNamesAreDistinct(s: string, t: string, v: nat, w: nat)
    requires VnodeName(s, v) == VnodeName(t, w)
    ensures s == t && v == w
  {
    hide Decimal;
    LastHash(s, Decimal(v));
    LastHash(t, Decimal(w));
    assert VnodeName(s, v)[..|s|] == s && VnodeName(t, w)[..|t|] == t;
    assert VnodeName(s, v)[|s| + 1..] == Decimal(v) && VnodeName(t, w)[|t| + 1..] == Decimal(w);
    DecimalIsInjective(v, w);
  }

  // ---------------------------------------------------------------------------
  // The ring
  // ---------------------------------------------------------------------------

  predicate Less(a: int, b: int) {
    a < b
  }

  lemma LessIsStrictTotal()
    ensures StrictTotal(Less)
  {
  }

  /** The points at or after `point`, as `range(point..)` visits them; all of them if there are none. */
  function Candidates(ring: Ring, point: int): set<int> {
    var later := set k | k in ring && k >= point;
    if later != {} then later else ring.Keys
  }

  /** The node that serves a point: the first candidate. */
  function NodeFor(ring: Ring, point: int): (k: int)
    requires ring.Keys != {}
    ensures k in ring
  {
    LessIsStrictTotal();
    Least(Less, Candidates(ring, point))
  }

  function Owner(ring: Ring, point: int): Option<string> {
    if ring.Keys == {} then None else Some(ring[NodeFor(ring, point)])
  }

  lemma NodeIsFirst(ring: Ring, point: int)
    requires ring.Keys != {}
    ensures var k := NodeFor(ring, point);
      k in Candidates(ring, point) && forall j | j in Candidates(ring, point) :: k <= j
  {
    LessIsStrictTotal();
    assert IsLeast(Less, NodeFor(ring, point), Candidates(ring, point));
  }

  lemma FirstIsNode(ring: Ring, point: int, k: int)
    requires ring.Keys != {} && k in Candidates(ring, point) && forall j | j in Candidates(ring, point) :: k <= j
    ensures NodeFor(ring, point) == k
  {
    NodeIsFirst(ring, point);
  }

  lemma CandidatesShrink(ring: Ring, smaller: Ring, point: int, k: int)
    requires smaller.Keys <= ring.Keys && k in smaller && k in Candidates(ring, point)
    ensures k in Candidates(smaller, point) && Candidates(smaller, point) <= Candidates(ring, point)
  {
    var later, laterSmaller := set j | j in ring && j >= point, set j | j in smaller && j >= point;
    assert laterSmaller <= later;
    if later != {} {
      assert k in laterSmaller;
    }
  }

  /** Taking nodes away, other than the one that serves a point, leaves that one serving it. */
  lemma SmallerRing(ring: Ring, smaller: Ring, point: int)
    requires smaller.Keys <= ring.Keys && ring.Keys != {} && NodeFor(ring, point) in smaller
    ensures smaller.Keys != {} && NodeFor(smaller, point) == NodeFor(ring, point)
  {
    var k := NodeFor(ring, point);
    NodeIsFirst(ring, point);
    CandidatesShrink(ring, smaller, point, k);
    FirstIsNode(smaller, point, k);
  }

  /** add_shard's loop: the first `vnodes` virtual nodes of a shard written over the ring. */
  function Added(hash: HashFn, ring: Ring, shard: string, vnodes: nat): Ring {
    if vnodes == 0 then ring
    else Added(hash, ring, shard, vnodes - 1)[hash(VnodeName(shard, vnodes - 1)) := shard]
  }

  /** remove_shard's retain. */
  function Removed(ring: Ring, shard: string): Ring {
    map k | k in ring && ring[k] != shard :: ring[k]
  }

  ghost predicate PointOf(hash: HashFn, shard: string, vnodes: nat, k: int) {
    exists v: nat | v < vnodes :: k == hash(VnodeName(shard, v))
  }

  lemma {:induction false} AddedIs(hash: HashFn, ring: Ring, shard: string, vnodes: nat)
    ensures var ring' := Added(hash, ring, shard, vnodes);
      forall k :: (k in ring' <==> k in ring || PointOf(hash, shard, vnodes, k))
        && (k in ring' ==> ring'[k] == if PointOf(hash, shard, vnodes, k) then shard else ring[k])
  {
    hide VnodeName;
    if vnodes > 0 {
      AddedIs(hash, ring, shard, vnodes - 1);
      var at := hash(VnodeName(shard, vnodes - 1));
      forall k ensures PointOf(hash, shard, vnodes, k) <==> PointOf(hash, shard, vnodes - 1, k) || k == at {
        if PointOf(hash, shard, vnodes, k) {
          var v: nat :| v < vnodes && k == hash(VnodeName(shard, v));
        }
      }
    }
  }

  /** Adding a shard gives it rooms and moves no room between the others, whatever collides. */
  lemma AddingMovesOnlyToTheNewShard(hash: HashFn, ring: Ring, shard: string, vnodes: nat, point: int)
    ensures var owner := Owner(Added(hash, ring, shard, vnodes), point);
      owner == Some(shard) || owner == Owner(ring, point)
  {
    hide PointOf, NodeFor, Added;
    var ring' := Added(hash, ring, shard, vnodes);
    AddedIs(hash, ring, shard, vnodes);
    forall k | k in ring ensures k in ring' {}
    if ring'.Keys != {} {
      var k := NodeFor(ring', point);
      if ring'[k] != shard {
        assert k in ring;
        SmallerRing(ring', ring, point);
      }
    }
  }

  /** Removing a shard moves only the rooms it owned. */
  lemma RemovingMovesOnlyItsRooms(ring: Ring, shard: string, point: int)
    ensures Owner(ring, point) == Some(shard) || Owner(Removed(ring, shard), point) == Owner(ring, point)
  {
    hide NodeFor;
    if ring.Keys != {} && ring[NodeFor(ring, point)] != shard {
      SmallerRing(ring, Removed(ring, shard), point);
    }
  }

  // ---------------------------------------------------------------------------
  // Histories
  // ---------------------------------------------------------------------------

  datatype Change = AddShard(shard: string) | RemoveShard(shard: string)

  datatype State = State(ring: Ring, shards: set<string>)

  function After(hash: HashFn, vnodes: nat, s: State, change: Change): State {
    match change
    case AddShard(shard) =>
      if shard in s.shards then s else State(Added(hash, s.ring, shard, vnodes), s.shards + {shard})
    case RemoveShard(shard) =>
      if shard in s.shards then State(Removed(s.ring, shard), s.shards - {shard}) else s
  }

  function Run(hash: HashFn, vnodes: nat, changes: seq<Change>): State {
    if changes == [] then State(map[], {})
    else After(hash, vnodes, Run(hash, vnodes, changes[..|changes| - 1]), changes[|changes| - 1])
  }

  /** No point belongs to two of the shards. */
  ghost predicate CollisionFree(hash: HashFn, vnodes: nat, shards: set<string>) {
    forall s, t, k | s in shards && t in shards && PointOf(hash, s, vnodes, k) && PointOf(hash, t, vnodes, k) :: s == t
  }

  /** The ring holds exactly the points of the shards, each owned by its own. */
  ghost predicate Represents(hash: HashFn, vnodes: nat, s: State) {
    && (forall k | k in s.ring :: s.ring[k] in s.shards && PointOf(hash, s.ring[k], vnodes, k))
    && (forall shard, k | shard in s.shards && PointOf(hash, shard, vnodes, k) :: k in s.ring && s.ring[k] == shard)
  }

  predicate Among(changes: seq<Change>, shards: set<string>) {
    forall c | c in changes :: c.shard in shards
  }

  lemma {:induction false} RunRepresents(hash: HashFn, vnodes: nat, changes: seq<Change>, shards: set<string>)
    requires CollisionFree(hash, vnodes, shards) && Among(changes, shards)
    ensures Represents(hash, vnodes, Run(hash, vnodes, changes)) && Run(hash, vnodes, changes).shards <= shards
  {
    if changes != [] {
      var last := changes[|changes| - 1];
      var s := Run(hash, vnodes, changes[..|changes| - 1]);
      RunRepresents(hash, vnodes, changes[..|changes| - 1], shards);
      ChangeRepresents(hash, vnodes, s, last, shards);
    }
  }

  lemma ChangeRepresents(hash: HashFn, vnodes: nat, s: State, change: Change, shards: set<string>)
    requires CollisionFree(hash, vnodes, shards) && s.shards <= shards && change.shard in shards
    requires Represents(hash, vnodes, s)
    ensures Represents(hash, vnodes, After(hash, vnodes, s, change)) && After(hash, vnodes, s, change).shards <= shards
  {
    hide PointOf, Added;
    AddedIs(hash, s.ring, change.shard, vnodes);
  }

  /** Without collisions the ring is a function of the shards present, however they came and went. */
  lemma RingIgnoresHistory(hash: HashFn, vnodes: nat, shards: set<string>, one: seq<Change>, other: seq<Change>)
    requires CollisionFree(hash, vnodes, shards) && Among(one, shards) && Among(other, shards)
    requires Run(hash, vnodes, one).shards == Run(hash, vnodes, other).shards
    ensures Run(hash, vnodes, one).ring == Run(hash, vnodes, other).ring
  {
    hide PointOf, Run;
    RunRepresents(hash, vnodes, one, shards);
    RunRepresents(hash, vnodes, other, shards);
    var a, b := Run(hash, vnodes, one), Run(hash, vnodes, other);
    forall k | k in a.ring ensures k in b.ring && b.ring[k] == a.ring[k] {}
    forall k | k in b.ring ensures k in a.ring {}
  }

  /** With a collision between two shards it is not: the shard added last owns the shared point. */
  lemma CollisionRemembersOrder(hash: HashFn, vnodes: nat, s: string, t: string, k: int)
    requires s != t && PointOf(hash, s, vnodes, k) && PointOf(hash, t, vnodes, k)
    ensures var one, other := Run(hash, vnodes, [AddShard(s), AddShard(t)]), Run(hash, vnodes, [AddShard(t), AddShard(s)]);
      one.shards == other.shards && k in one.ring && k in other.ring && one.ring[k] == t && other.ring[k] == s
  {
    hide PointOf, Added;
    TwoAdded(hash, vnodes, s, t);
    TwoAdded(hash, vnodes, t, s);
    AddedIs(hash, Added(hash, map[], s, vnodes), t, vnodes);
    AddedIs(hash, Added(hash, map[], t, vnodes), s, vnodes);
  }

  lemma TwoAdded(hash: HashFn, vnodes: nat, s: string, t: string)
    requires s != t
    ensures Run(hash, vnodes, [AddShard(s), AddShard(t)])
      == State(Added(hash, Added(hash, map[], s, vnodes), t, vnodes), {s, t})
  {
    hide Added;
    assert [AddShard(s), AddShard(t)][..1] == [AddShard(s)] && [AddShard(s)][..0] == [];
    assert Run(hash, vnodes, [AddShard(s)]) == State(Added(hash, map[], s, vnodes), {s});
  }

  /** The ring is a function of the shards present exactly when no two of them share a point. */
  lemma HistoryIgnoredIffCollisionFree(hash: HashFn, vnodes: nat, shards: set<string>)
    ensures CollisionFree(hash, vnodes, shards) <==>
      forall one, other | Among(one, shards) && Among(other, shards) && SameShards(hash, vnodes, one, other) ::
        Run(hash, vnodes, one).ring == Run(hash, vnodes, other).ring
  {
    hide PointOf, Run;
    if CollisionFree(hash, vnodes, shards) {
      forall one, other | Among(one, shards) && Among(other, shards) && SameShards(hash, vnodes, one, other)
        ensures Run(hash, vnodes, one).ring == Run(hash, vnodes, other).ring
      {
        RingIgnoresHistory(hash, vnodes, shards, one, other);
      }
    } else {
      var s, t, k :| s in shards && t in shards && PointOf(hash, s, vnodes, k) && PointOf(hash, t, vnodes, k) && s != t;
      CollisionRemembersOrder(hash, vnodes, s, t, k);
      var one, other := [AddShard(s), AddShard(t)], [AddShard(t), AddShard(s)];
      assert Among(one, shards) && Among(other, shards) && SameShards(hash, vnodes, one, other);
    }
  }

  predicate SameShards(hash: HashFn, vnodes: nat, one: seq<Change>, other: seq<Change>) {
    Run(hash, vnodes, one).shards == Run(hash, vnodes, other).shards
  }

  // ---------------------------------------------------------------------------
  // The object
  // ---------------------------------------------------------------------------

  class Map {
    const hash: HashFn
    const vnodes: nat
    var ring: Ring
    var shards: set<string>

    constructor (hash: HashFn, vnodes: nat)
      ensures this.hash == hash && this.vnodes >= 1 && (vnodes >= 1 ==> this.vnodes == vnodes)
      ensures ring == map[] && shards == {}
    {
      this.hash := hash;
      this.vnodes := if vnodes < 1 then 1 else vnodes;
      ring := map[];
      shards := {};
    }

    method Add(shard: string)
      modifies this
      ensures State(ring, shards) == After(hash, vnodes, old(State(ring, shards)), AddShard(shard))
    {
      if shard in shards {
        return;
      }
      shards := shards + {shard};
      for vnode := 0 to vnodes
        invariant shards == old(shards) + {shard}
        invariant ring == Added(hash, old(ring), shard, vnode)
      {
        ring := ring[hash(VnodeName(shard, vnode)) := shard];
      }
    }

    method Remove(shard: string)
      modifies this
      ensures State(ring, shards) == After(hash, vnodes, old(State(ring, shards)), RemoveShard(shard))
    {
      if shard in shards {
        shards := shards - {shard};
        ring := map k | k in ring && ring[k] != shard :: ring[k];
      }
    }

    method ShardFor(room: string) returns (owner: Option<string>)
      ensures owner == Owner(ring, hash(room))
    {
      if ring.Keys == {} {
        return None;
      }
      owner := Some(ring[NodeFor(ring, hash(room))]);
    }
  }
}
