/**
 Resolution in the terms of its inputs: what is contested, in which order it is tried and against
 what, read off the events and the contents of the power levels rather than off sort keys.
 */
module ResolutionLaws {
  import opened Orders
  import opened Json
  import opened Events
  import opened Auth
  import opened AuthChain
  import opened Contents
  import opened StateRes
  import opened StateResLaws
  import AuthRules

  // ---------------------------------------------------------------------------
  // Whose event goes first
  // ---------------------------------------------------------------------------

  /** The content of the power-levels event that `base` holds. */
  ghost predicate LevelsIn(base: StateMap, pdus: Pdus, pl: Json) {
    var slot := Slot(ROOM_POWER_LEVELS, "");
    slot in base && base[slot] in pdus && Parse(pdus[base[slot]].contentJson) == Ok(pl)
  }

  ghost predicate CreatorIn(base: StateMap, pdus: Pdus, sender: string) {
    var slot := Slot(ROOM_CREATE, "");
    slot in base && base[slot] in pdus && AuthRules.CreatedBy(pdus[base[slot]], sender)
  }

  /** The sender's level by that content; without one the creator has 100 and others 0. */
  ghost predicate SenderHas(base: StateMap, pdus: Pdus, sender: string, n: int) {
    || (exists pl :: LevelsIn(base, pdus, pl) && PowerFrom(pl, sender, n))
    || ((forall pl :: !LevelsIn(base, pdus, pl)) && n == if CreatorIn(base, pdus, sender) then 100 else 0)
  }

  lemma SenderPowerIs(base: StateMap, pdus: Pdus, sender: string)
    ensures forall n :: SenderHas(base, pdus, sender, n) <==> SenderPower(sender, base, pdus) == n
  {
    hide PowerFrom, UserLevel;
    var e := EventIn(base, ROOM_POWER_LEVELS, pdus);
    var c := EventIn(base, ROOM_CREATE, pdus);
    if e.Some? {
      ContentIs(e.value);
      if Content(e.value).Some? {
        UserLevelIs(Content(e.value).value, sender);
        assert LevelsIn(base, pdus, Content(e.value).value);
      }
    }
    if c.Some? {
      AuthRules.Version11Is(c.value);
      ContentStrIs(c.value, "creator");
    }
  }

  /** Higher power of the sender, then the earlier timestamp, then the smaller id. */
  ghost predicate Outranks(a: EventId, b: EventId, base: StateMap, pdus: Pdus)
    requires a in pdus && b in pdus
  {
    forall p, q | SenderHas(base, pdus, pdus[a].sender, p) && SenderHas(base, pdus, pdus[b].sender, q) ::
      || p > q
      || (p == q && pdus[a].originServerTs < pdus[b].originServerTs)
      || (p == q && pdus[a].originServerTs == pdus[b].originServerTs && StrLess(a, b))
  }

  lemma PowerLessIs(a: EventId, b: EventId, base: StateMap, pdus: Pdus)
    requires a in pdus && b in pdus && PowerLess(base, pdus)(a, b)
    ensures Outranks(a, b, base, pdus)
  {
    hide SenderHas, SenderPower, StrLess;
    SenderPowerIs(base, pdus, pdus[a].sender);
    SenderPowerIs(base, pdus, pdus[b].sender);
  }

  /** `a` is still to be ordered, and of what it cites nothing is. */
  predicate Free(a: EventId, remaining: set<EventId>, pdus: Pdus) {
    a in remaining && (a in pdus ==> forall p | p in pdus[a].authEvents :: p !in remaining)
  }

  /**
   The power order, choice by choice: a free event that outranks every other free one, or, if a cycle
   leaves none free, one that outranks every other remaining one.
   */
  lemma PowerOrderRanks(all: set<EventId>, base: StateMap, pdus: Pdus, i: nat, a: EventId)
    requires all <= pdus.Keys && i < |PowerOrder(all, base, pdus)|
    requires var order := PowerOrder(all, base, pdus); var remaining := all - Elements(order[..i]);
      a in remaining && a != order[i] && ((exists b :: Free(b, remaining, pdus)) ==> Free(a, remaining, pdus))
    ensures var order := PowerOrder(all, base, pdus); var remaining := all - Elements(order[..i]);
      && order[i] in pdus && Outranks(order[i], a, base, pdus)
      && ((exists b :: Free(b, remaining, pdus)) ==> Free(order[i], remaining, pdus))
  {
    hide PowerOrder, PowerLess, Outranks;
    PowerOrderIsGreedy(all, base, pdus);
    PowerOrderIsListing(all, base, pdus);
    var order := PowerOrder(all, base, pdus);
    var remaining := all - Elements(order[..i]);
    assert IsLeast(PowerLess(base, pdus), order[i], Choices(remaining, pdus));
    FreeIsReady(remaining, pdus);
    PowerLessIs(order[i], a, base, pdus);
  }

  lemma FreeIsReady(remaining: set<EventId>, pdus: Pdus)
    ensures forall a :: Free(a, remaining, pdus) <==> a in Ready(remaining, pdus)
    ensures Ready(remaining, pdus) != {} ==> exists b :: Free(b, remaining, pdus)
    ensures Choices(remaining, pdus) == if exists b :: Free(b, remaining, pdus) then Ready(remaining, pdus) else remaining
  {
    forall a | a in remaining && a in pdus
      ensures Parents(a, pdus) !! remaining <==> forall p | p in pdus[a].authEvents :: p !in remaining
    {
    }
    assert forall a :: Free(a, remaining, pdus) <==> a in Ready(remaining, pdus);
    if Ready(remaining, pdus) != {} {
      var b :| b in Ready(remaining, pdus);
      assert Free(b, remaining, pdus);
    }
  }

  // ---------------------------------------------------------------------------
  // The mainline
  // ---------------------------------------------------------------------------

  /** The first power-levels event that `id` cites. */
  ghost predicate CitesLevels(id: EventId, levels: EventId, pdus: Pdus) {
    id in pdus && exists i | 0 <= i < |pdus[id].authEvents| ::
      && pdus[id].authEvents[i] == levels && IsLevels(levels, pdus)
      && forall j | 0 <= j < i :: !IsLevels(pdus[id].authEvents[j], pdus)
  }

  predicate IsLevels(id: EventId, pdus: Pdus) {
    id in pdus && pdus[id].kind == "m.room.power_levels"
  }

  lemma {:induction false} FirstPowerLevelsIs(ids: seq<EventId>, pdus: Pdus)
    ensures forall a :: FirstPowerLevels(ids, pdus) == Some(a) <==>
      exists i | 0 <= i < |ids| :: ids[i] == a && IsLevels(a, pdus) && forall j | 0 <= j < i :: !IsLevels(ids[j], pdus)
  {
    if ids != [] {
      FirstPowerLevelsIs(ids[1..], pdus);
      if IsLevels(ids[0], pdus) {
        assert ids[0] == ids[0];
      } else {
        forall a ensures (exists i | 0 <= i < |ids| :: ids[i] == a && IsLevels(a, pdus) && forall j | 0 <= j < i :: !IsLevels(ids[j], pdus))
          <==> (exists i | 0 <= i < |ids[1..]| :: ids[1..][i] == a && IsLevels(a, pdus) && forall j | 0 <= j < i :: !IsLevels(ids[1..][j], pdus))
        {
          if i :| 0 <= i < |ids| && ids[i] == a && IsLevels(a, pdus) && forall j | 0 <= j < i :: !IsLevels(ids[j], pdus) {
            assert ids[1..][i - 1] == a && forall j | 0 <= j < i - 1 :: ids[1..][j] == ids[j + 1];
          }
          if i :| 0 <= i < |ids[1..]| && ids[1..][i] == a && IsLevels(a, pdus) && forall j | 0 <= j < i :: !IsLevels(ids[1..][j], pdus) {
            assert ids[i + 1] == a && forall j | 0 < j < i + 1 :: ids[j] == ids[1..][j - 1];
          }
        }
      }
    }
  }

  lemma CitesLevelsIs(id: EventId, pdus: Pdus)
    ensures forall a :: CitesLevels(id, a, pdus) <==> PowerLevelsAncestor(id, pdus) == Some(a)
  {
    if id in pdus {
      FirstPowerLevelsIs(pdus[id].authEvents, pdus);
    }
  }

  /** `path` leads from `id` back to `to`, from each event to the power levels it cites. */
  ghost predicate IsLine(path: seq<EventId>, id: EventId, to: EventId, pdus: Pdus) {
    && path != [] && path[0] == id && path[|path| - 1] == to
    && forall i | 0 <= i < |path| - 1 :: CitesLevels(path[i], path[i + 1], pdus)
  }

  /** `to` is the power levels that many citations behind `id`. */
  ghost predicate Behind(id: EventId, hops: nat, to: EventId, pdus: Pdus) {
    exists path :: |path| == hops + 1 && IsLine(path, id, to, pdus)
  }

  lemma {:induction false} BehindIs(id: EventId, hops: nat, pdus: Pdus)
    ensures forall to :: Behind(id, hops, to, pdus) <==> Ancestor(id, hops, pdus) == Some(to)
    decreases hops
  {
    hide CitesLevels, PowerLevelsAncestor;
    CitesLevelsIs(id, pdus);
    if hops == 0 {
      assert IsLine([id], id, id, pdus);
    } else {
      var a := PowerLevelsAncestor(id, pdus);
      if a.Some? {
        BehindIs(a.value, hops - 1, pdus);
      }
      forall to ensures Behind(id, hops, to, pdus) <==> a.Some? && Behind(a.value, hops - 1, to, pdus) {
        BehindSteps(id, hops, to, pdus);
      }
    }
  }

  lemma BehindSteps(id: EventId, hops: nat, to: EventId, pdus: Pdus)
    requires hops > 0
    ensures var a := PowerLevelsAncestor(id, pdus);
      Behind(id, hops, to, pdus) <==> a.Some? && Behind(a.value, hops - 1, to, pdus)
  {
    hide CitesLevels, PowerLevelsAncestor;
    CitesLevelsIs(id, pdus);
    var a := PowerLevelsAncestor(id, pdus);
    if path :| |path| == hops + 1 && IsLine(path, id, to, pdus) {
      assert CitesLevels(path[0], path[1], pdus);
      assert forall i | 0 <= i < |path[1..]| :: path[1..][i] == path[i + 1];
      assert IsLine(path[1..], path[1], to, pdus);
    }
    if path :| a.Some? && |path| == hops && IsLine(path, a.value, to, pdus) {
      var longer := [id] + path;
      assert forall i | 0 < i < |longer| :: longer[i] == path[i - 1];
      assert IsLine(longer, id, to, pdus);
    }
  }

  /** `x` is on the mainline that ends with `top`, with `d` older power levels behind it. */
  ghost predicate OnLine(top: Option<EventId>, x: EventId, d: nat, pdus: Pdus) {
    top.Some? && (exists k: nat :: Behind(top.value, k, x, pdus)) && OldestAfter(x, d, pdus)
  }

  ghost predicate LinesBack(x: EventId, hops: nat, pdus: Pdus) {
    exists y :: Behind(x, hops, y, pdus)
  }

  ghost predicate OldestAfter(x: EventId, d: nat, pdus: Pdus) {
    LinesBack(x, d, pdus) && !LinesBack(x, d + 1, pdus)
  }

  /** Within 10,000 citations `id` first meets the mainline at an event with `d` older ones behind it. */
  ghost predicate Meets(id: EventId, top: Option<EventId>, d: nat, pdus: Pdus) {
    exists hops: nat, x ::
      && hops <= 10_000 && Behind(id, hops, x, pdus) && OnLine(top, x, d, pdus)
      && forall h, y, e | 0 <= h < hops && Behind(id, h, y, pdus) :: !OnLine(top, y, e, pdus)
  }

  ghost predicate DepthIs(id: EventId, top: Option<EventId>, d: nat, pdus: Pdus) {
    Meets(id, top, d, pdus) || (d == 0 && forall e :: !Meets(id, top, e, pdus))
  }

  lemma {:induction false} AncestorsAdd(id: EventId, a: nat, b: nat, pdus: Pdus)
    ensures Ancestor(id, a + b, pdus) == match Ancestor(id, a, pdus) case Some(x) => Ancestor(x, b, pdus) case None => None
    decreases a
  {
    hide PowerLevelsAncestor;
    if a > 0 && PowerLevelsAncestor(id, pdus).Some? {
      AncestorsAdd(PowerLevelsAncestor(id, pdus).value, a - 1, b, pdus);
    }
  }

  lemma {:induction false} PositionOf(mainline: seq<EventId>, i: nat)
    requires i < |mainline| && NoRepeats(mainline)
    ensures mainline[i] in Positions(mainline) && Positions(mainline)[mainline[i]] == |mainline| - 1 - i
  {
    if i > 0 {
      PositionOf(mainline[1..], i - 1);
    }
  }

  lemma {:induction false} PositionedIsListed(mainline: seq<EventId>)
    ensures forall x :: x in Positions(mainline) <==> x in mainline
  {
    if mainline != [] {
      PositionedIsListed(mainline[1..]);
      assert forall x :: x in mainline <==> x == mainline[0] || x in mainline[1..];
    }
  }

  lemma {:induction false} AncestorsDescend(id: EventId, hops: nat, pdus: Pdus, rank: EventId -> nat)
    requires Acyclic(pdus, rank) && hops > 0
    ensures Ancestor(id, hops, pdus).Some? ==> rank(Ancestor(id, hops, pdus).value) < rank(id)
    decreases hops
  {
    var a := PowerLevelsAncestor(id, pdus);
    if a.Some? && hops > 1 {
      AncestorsDescend(a.value, hops - 1, pdus, rank);
    }
  }

  /** The positions the sort looks up are exactly how many older power levels each mainline event has behind it. */
  lemma PositionsAreOnLine(top: Option<EventId>, pdus: Pdus, rank: EventId -> nat)
    requires Acyclic(pdus, rank)
    ensures var positions := Positions(Mainline(top, pdus, {}));
      forall x, d: nat :: OnLine(top, x, d, pdus) <==> x in positions && positions[x] == d
  {
    hide Behind, PowerLevelsAncestor, Ancestor, Acyclic, Positions;
    if top.Some? {
      var m := Mainline(top, pdus, {});
      forall k: nat ensures Ancestor(top.value, k, pdus) == if k < |m| then Some(m[k]) else None {
        MainlineIsAncestry(top.value, pdus, {}, rank, k);
      }
      forall i, j | 0 <= i < j < |m| ensures m[i] != m[j] {
        AncestorsAdd(top.value, i, j - i, pdus);
        AncestorsDescend(m[i], j - i, pdus, rank);
      }
      PositionedIsListed(m);
      forall x, d: nat ensures OnLine(top, x, d, pdus) <==> x in Positions(m) && Positions(m)[x] == d {
        EntryIsOnLine(top.value, m, x, d, pdus);
      }
    } else {
      NothingPositioned(pdus);
    }
  }

  lemma NothingPositioned(pdus: Pdus)
    ensures Positions(Mainline(None, pdus, {})) == map[]
  {
  }

  lemma EntryIsOnLine(top: EventId, m: seq<EventId>, x: EventId, d: nat, pdus: Pdus)
    requires NoRepeats(m) && forall k: nat :: Ancestor(top, k, pdus) == if k < |m| then Some(m[k]) else None
    ensures OnLine(Some(top), x, d, pdus) <==> x in Positions(m) && Positions(m)[x] == d
  {
    hide Behind, PowerLevelsAncestor, Ancestor, Positions;
    PositionedIsListed(m);
    forall k: nat ensures Behind(top, k, x, pdus) <==> k < |m| && m[k] == x {
      BehindIs(top, k, pdus);
    }
    if x in m {
      var k :| 0 <= k < |m| && m[k] == x;
      PositionOf(m, k);
      assert Behind(top, k, x, pdus);
      AncestorsAdd(top, k, d, pdus);
      AncestorsAdd(top, k, d + 1, pdus);
      BehindIs(x, d, pdus);
      BehindIs(x, d + 1, pdus);
      assert Ancestor(x, d, pdus) == if k + d < |m| then Some(m[k + d]) else None;
      assert Ancestor(x, d, pdus).Some? ==> Behind(x, d, Ancestor(x, d, pdus).value, pdus);
    }
  }

  /** The sort's depth is that. */
  lemma MainlineDepthIs(id: EventId, top: Option<EventId>, pdus: Pdus, rank: EventId -> nat)
    requires Acyclic(pdus, rank)
    ensures forall d: nat :: DepthIs(id, top, d, pdus) <==>
      MainlineDepth(id, Positions(Mainline(top, pdus, {})), pdus, DEPTH_HOPS + 1) == d
  {
    hide Behind, OnLine, Acyclic, Ancestor, Positions, Mainline, MainlineDepth;
    var positions := Positions(Mainline(top, pdus, {}));
    PositionsAreOnLine(top, pdus, rank);
    forall h: nat, x ensures Behind(id, h, x, pdus) <==> Ancestor(id, h, pdus) == Some(x) {
      BehindIs(id, h, pdus);
    }
    if hops: nat :| hops <= 10_000 && OnMainline(Ancestor(id, hops, pdus), positions) {
      var first := FirstMet(id, positions, pdus, hops);
      DepthIsNearest(id, positions, pdus, DEPTH_HOPS + 1, first);
      var x := Ancestor(id, first, pdus).value;
      forall h, y, e: nat | 0 <= h < first && Behind(id, h, y, pdus) ensures !OnLine(top, y, e, pdus) {
        assert !OnMainline(Ancestor(id, h, pdus), positions);
      }
      assert Behind(id, first, x, pdus) && OnLine(top, x, positions[x], pdus);
      assert Meets(id, top, positions[x], pdus);
      forall d: nat | Meets(id, top, d, pdus) ensures d == positions[x] {
        MeetsOnce(id, top, d, first, x, positions[x], pdus);
      }
    } else {
      forall h | 0 <= h < DEPTH_HOPS + 1 ensures !OnMainline(Ancestor(id, h, pdus), positions) {
      }
      DepthIsNearest(id, positions, pdus, DEPTH_HOPS + 1, DEPTH_HOPS + 1);
      assert forall hops: nat, x, d: nat | hops <= 10_000 && Behind(id, hops, x, pdus) :: !OnLine(top, x, d, pdus);
    }
  }

  lemma MeetsOnce(id: EventId, top: Option<EventId>, d: nat, first: nat, x: EventId, e: nat, pdus: Pdus)
    requires Meets(id, top, d, pdus) && Behind(id, first, x, pdus) && OnLine(top, x, e, pdus)
    requires forall h, y, f: nat | 0 <= h < first && Behind(id, h, y, pdus) :: !OnLine(top, y, f, pdus)
    requires forall y, f: nat, g: nat | OnLine(top, y, f, pdus) && OnLine(top, y, g, pdus) :: f == g
    requires forall h: nat, y, z | Behind(id, h, y, pdus) && Behind(id, h, z, pdus) :: y == z
    ensures d == e
  {
    hide Behind, OnLine;
    var hops: nat, y :|
      && hops <= 10_000 && Behind(id, hops, y, pdus) && OnLine(top, y, d, pdus)
      && forall h, z, f | 0 <= h < hops && Behind(id, h, z, pdus) :: !OnLine(top, z, f, pdus);
    assert hops == first;
  }

  lemma {:induction false} FirstMet(id: EventId, positions: map<EventId, nat>, pdus: Pdus, hops: nat) returns (first: nat)
    requires OnMainline(Ancestor(id, hops, pdus), positions)
    ensures first <= hops && OnMainline(Ancestor(id, first, pdus), positions)
    ensures forall h | 0 <= h < first :: !OnMainline(Ancestor(id, h, pdus), positions)
    decreases hops
  {
    hide Ancestor;
    first := hops;
    if h :| 0 <= h < hops && OnMainline(Ancestor(id, h, pdus), positions) {
      first := FirstMet(id, positions, pdus, h);
    }
  }

  /**
   The mainline order, pair by pair: shallower on the mainline first, then earlier, then the smaller id.
   An unknown event counts as sent at time 0.
   */
  lemma MainlineOrderRanks(ids: set<EventId>, top: Option<EventId>, pdus: Pdus, rank: EventId -> nat, i: nat, j: nat, d: nat, e: nat)
    requires Acyclic(pdus, rank)
    requires var order := MainlineOrder(ids, top, pdus);
      i < j < |order| && DepthIs(order[i], top, d, pdus) && DepthIs(order[j], top, e, pdus)
    ensures var order := MainlineOrder(ids, top, pdus);
      var s, t := if order[i] in pdus then pdus[order[i]].originServerTs else 0, if order[j] in pdus then pdus[order[j]].originServerTs else 0;
      d < e || (d == e && (s < t || (s == t && StrLess(order[i], order[j]))))
  {
    hide MainlineOrder, MainlineDepth, DepthIs, Acyclic, StrLess, Mainline, Positions;
    MainlineOrderIsSorted(ids, top, pdus);
    var order := MainlineOrder(ids, top, pdus);
    MainlineDepthIs(order[i], top, pdus, rank);
    MainlineDepthIs(order[j], top, pdus, rank);
    assert MainlineLess(Positions(Mainline(top, pdus, {})), pdus)(order[i], order[j]);
  }

  // ---------------------------------------------------------------------------
  // What is contested
  // ---------------------------------------------------------------------------

  /** Every input fills the slot with that event. */
  ghost predicate AgreedOn(states: set<StateMap>, slot: Slot, id: EventId) {
    states != {} && forall s | s in states :: slot in s && s[slot] == id
  }

  /** The event is proposed for a slot which not every input fills with it. */
  ghost predicate ProposedAgainst(states: set<StateMap>, id: EventId) {
    exists s, slot :: s in states && slot in s && s[slot] == id && !AgreedOn(states, slot, id)
  }

  /** It lies behind some input's events but not behind every input's. */
  ghost predicate BehindSome(states: set<StateMap>, pdus: Pdus, id: EventId) {
    && (exists s | s in states :: Reaches(s.Values, id, pdus))
    && (exists t | t in states :: !Reaches(t.Values, id, pdus))
  }

  ghost predicate HasConflict(states: set<StateMap>) {
    exists s, slot :: s in states && slot in s && !AgreedOn(states, slot, s[slot])
  }

  lemma UnconflictedIs(states: set<StateMap>, slot: Slot, id: EventId)
    ensures slot in Unconflicted(states) && Unconflicted(states)[slot] == id <==> AgreedOn(states, slot, id)
  {
    if AgreedOn(states, slot, id) {
      var s :| s in states;
      assert s[slot] == id && Agreed(states, slot, s[slot]);
      assert slot in AgreedSlots(states) && Agreed(states, slot, AgreedEvent(states, slot));
    } else if slot in Unconflicted(states) {
      assert Agreed(states, slot, AgreedEvent(states, slot));
    }
  }

  lemma ConflictedIs(states: set<StateMap>, slot: Slot)
    ensures slot in ConflictedSlots(states) <==> exists s | s in states :: slot in s && !AgreedOn(states, slot, s[slot])
  {
    if s :| s in states && slot in s {
      forall t | t in states && slot in t ensures Agreed(states, slot, t[slot]) <==> AgreedOn(states, slot, t[slot]) {
      }
      assert slot in AllSlots(states);
      if slot in AgreedSlots(states) {
        var t :| t in states && slot in t && Agreed(states, slot, t[slot]);
        assert forall u | u in states && slot in u :: u[slot] == t[slot];
      } else {
        assert !Agreed(states, slot, s[slot]);
      }
    }
  }

  lemma FullConflictedIs(states: set<StateMap>, pdus: Pdus, id: EventId)
    ensures id in FullConflicted(states, pdus) <==> ProposedAgainst(states, id) || BehindSome(states, pdus, id)
  {
    hide Reaches, ConflictedSlots, AgreedOn;
    forall s | s in states ensures id in ChainOfState(s, pdus) <==> Reaches(s.Values, id, pdus) {
      ChainIsReachability(s.Values, pdus, id);
    }
    forall slot ensures slot in ConflictedSlots(states) <==> exists s | s in states :: slot in s && !AgreedOn(states, slot, s[slot]) {
      ConflictedIs(states, slot);
    }
    CandidatesAre(states, id);
  }

  lemma CandidatesAre(states: set<StateMap>, id: EventId)
    ensures id in Candidates(states) <==> ProposedAgainst(states, id)
  {
    hide ConflictedSlots;
    if id in Candidates(states) {
      var slot :| slot in ConflictedSlots(states) && id in Proposed(states, slot);
      ConflictedIs(states, slot);
      var t :| t in states && slot in t && !AgreedOn(states, slot, t[slot]);
      assert !AgreedOn(states, slot, id);
    }
    if s, slot :| s in states && slot in s && s[slot] == id && !AgreedOn(states, slot, id) {
      ConflictedIs(states, slot);
      assert id in Proposed(states, slot);
    }
  }

  // ---------------------------------------------------------------------------
  // The order in which it is tried
  // ---------------------------------------------------------------------------

  /** Create, power-levels and join-rules events, bans, and leaves that someone else set. */
  ghost predicate Controls(id: EventId, pdus: Pdus) {
    id in pdus &&
    var e := pdus[id];
    || e.kind in ["m.room.create", "m.room.power_levels", "m.room.join_rules"]
    || (e.kind == "m.room.member"
        && (Says(e, "membership", Str("ban")) || (Says(e, "membership", Str("leave")) && e.stateKey != Some(e.sender))))
  }

  lemma ControlsIs(id: EventId, pdus: Pdus)
    ensures Controls(id, pdus) <==> id in pdus && IsPowerEvent(pdus[id])
  {
    if id in pdus {
      MembershipIs(pdus[id]);
    }
  }

  /** The contested events that control the room, and those that do not. */
  ghost function Controlling(states: set<StateMap>, pdus: Pdus): set<EventId> {
    PowerEvents(FullConflicted(states, pdus), pdus)
  }

  lemma ControllingIs(states: set<StateMap>, pdus: Pdus, id: EventId)
    ensures id in Controlling(states, pdus) <==>
      Controls(id, pdus) && (ProposedAgainst(states, id) || BehindSome(states, pdus, id))
  {
    hide FullConflicted, IsPowerEvent, ProposedAgainst, BehindSome;
    ControlsIs(id, pdus);
    FullConflictedIs(states, pdus, id);
  }

  /**
   Exactly the contested events are tried, each once: first those that control the room, in power order by
   the agreed state, then the others, in mainline order by the power levels the first have settled on.
   */
  lemma ResolutionOrderIs(states: set<StateMap>, pdus: Pdus, sig: SigCheck)
    requires HasConflict(states)
    ensures var order, n := ResolutionOrder(states, pdus, sig), |Controlling(states, pdus)|;
      && NoRepeats(order)
      && (forall id :: id in order <==> ProposedAgainst(states, id) || BehindSome(states, pdus, id))
      && n <= |order|
      && (forall i | 0 <= i < |order| :: Controls(order[i], pdus) <==> i < n)
      && order[..n] == PowerOrder(Elements(order[..n]), Unconflicted(states), pdus)
      && order[n..] == MainlineOrder(Elements(order[n..]), ResolvedPowerLevels(PartialState(states, pdus, sig, n)), pdus)
  {
    hide FullConflicted, IsPowerEvent, ProposedAgainst, BehindSome, PowerOrder, MainlineOrder, ApplyAll, Unconflicted, Controls, ConflictedSlots;
    ConflictIs(states);
    var full, control := FullConflicted(states, pdus), Controlling(states, pdus);
    var order := ResolutionOrder(states, pdus, sig);
    var first, rest := PowerPart(states, pdus), MainlinePart(states, pdus, sig);
    assert order == first + rest;
    forall id ensures (id in full <==> ProposedAgainst(states, id) || BehindSome(states, pdus, id))
                   && (id in control <==> id in full && Controls(id, pdus)) {
      FullConflictedIs(states, pdus, id);
      ControlsIs(id, pdus);
    }
    PowerOrderIsListing(control, Unconflicted(states), pdus);
    PowerOrderIsGreedy(control, Unconflicted(states), pdus);
    var top := ResolvedPowerLevels(ApplyAll(Unconflicted(states), first, pdus, sig));
    MainlineOrderIsListing(full - control, top, pdus);
    OneAfterAnother(first, rest, control, full - control);
    assert order[..|control|] == first && order[|control|..] == rest;
  }

  /** Listings of two disjoint sets, one after the other. */
  lemma OneAfterAnother<T>(first: seq<T>, rest: seq<T>, a: set<T>, b: set<T>)
    requires NoRepeats(first) && NoRepeats(rest) && |first| == |a| && a !! b
    requires (forall x :: x in first <==> x in a) && (forall x :: x in rest <==> x in b)
    ensures var all := first + rest;
      && NoRepeats(all) && (forall x :: x in all <==> x in a || x in b)
      && all[..|a|] == first && all[|a|..] == rest
      && Elements(first) == a && Elements(rest) == b
      && (forall i | 0 <= i < |all| :: all[i] in a <==> i < |a|)
  {
    var all := first + rest;
    forall i | 0 <= i < |all| ensures (all[i] in a <==> i < |a|) && (i >= |a| ==> all[i] in b && all[i] == rest[i - |a|]) {
      assert if i < |a| then all[i] == first[i] && first[i] in first else all[i] == rest[i - |a|] && all[i] in rest;
    }
  }

  lemma ConflictIs(states: set<StateMap>)
    ensures HasConflict(states) <==> ConflictedSlots(states) != {}
  {
    hide ConflictedSlots, AgreedOn;
    if s, slot :| s in states && slot in s && !AgreedOn(states, slot, s[slot]) {
      ConflictedIs(states, slot);
    }
    if slot :| slot in ConflictedSlots(states) {
      ConflictedIs(states, slot);
    }
  }

  lemma MainlineOrderIsListing(ids: set<EventId>, top: Option<EventId>, pdus: Pdus)
    ensures NoRepeats(MainlineOrder(ids, top, pdus))
    ensures forall id :: id in MainlineOrder(ids, top, pdus) <==> id in ids
  {
    hide MainlineKey, KeyLess, Mainline, Positions;
    MainlineOrderIsSorted(ids, top, pdus);
    MainlineLessIsStrictTotal(Positions(Mainline(top, pdus, {})), pdus);
  }

  // ---------------------------------------------------------------------------
  // Against what it is tried
  // ---------------------------------------------------------------------------

  /** `context` lists the known events of `state` slot by slot, leaving `slot` out. */
  ghost predicate ListsOthers(context: seq<Pdu>, state: StateMap, slot: Slot, pdus: Pdus) {
    exists slots: seq<Slot> ::
      && |slots| == |context| && IsAscending(SlotLess, slots)
      && (forall k :: k in slots <==> k in state && k != slot && state[k] in pdus)
      && forall i | 0 <= i < |slots| :: context[i] == pdus[state[slots[i]]]
  }

  function KnownSlots(slots: seq<Slot>, state: StateMap, pdus: Pdus): seq<Slot> {
    if slots == [] then []
    else (if slots[0] in state && state[slots[0]] in pdus then [slots[0]] else []) + KnownSlots(slots[1..], state, pdus)
  }

  lemma {:induction false} KnownEventsListed(slots: seq<Slot>, state: StateMap, pdus: Pdus)
    requires IsAscending(SlotLess, slots)
    ensures var known := KnownSlots(slots, state, pdus);
      && IsAscending(SlotLess, known) && |known| == |KnownEvents(slots, state, pdus)|
      && (forall k :: k in known <==> k in slots && k in state && state[k] in pdus)
      && forall i | 0 <= i < |known| :: KnownEvents(slots, state, pdus)[i] == pdus[state[known[i]]]
  {
    hide SlotLess;
    if slots != [] {
      KnownEventsListed(slots[1..], state, pdus);
      assert forall k :: k in slots <==> k == slots[0] || k in slots[1..];
    }
  }

  /** The context of a check is the listing of the other slots, and there is only one. */
  lemma ContextIs(state: StateMap, slot: Slot, pdus: Pdus)
    ensures forall context :: ListsOthers(context, state, slot, pdus) <==> context == Context(state, slot, pdus)
  {
    hide SlotLess, ListsOthers, KnownEvents, KnownSlots;
    SlotLessIsStrictTotal();
    AscendingIsSorted(SlotLess, state.Keys - {slot});
    var all := Ascending(SlotLess, state.Keys - {slot});
    KnownEventsListed(all, state, pdus);
    var known := KnownSlots(all, state, pdus);
    assert ListsOthers(Context(state, slot, pdus), state, slot, pdus) by {
      ListedBy(Context(state, slot, pdus), known, state, slot, pdus);
    }
    forall context | ListsOthers(context, state, slot, pdus) ensures context == Context(state, slot, pdus) {
      OthersListedOnce(context, Context(state, slot, pdus), state, slot, pdus);
    }
  }

  lemma ListedBy(context: seq<Pdu>, slots: seq<Slot>, state: StateMap, slot: Slot, pdus: Pdus)
    requires |slots| == |context| && IsAscending(SlotLess, slots)
    requires forall k :: k in slots <==> k in state && k != slot && state[k] in pdus
    requires forall i | 0 <= i < |slots| :: context[i] == pdus[state[slots[i]]]
    ensures ListsOthers(context, state, slot, pdus)
  {
  }

  lemma OthersListedOnce(context: seq<Pdu>, other: seq<Pdu>, state: StateMap, slot: Slot, pdus: Pdus)
    requires ListsOthers(context, state, slot, pdus) && ListsOthers(other, state, slot, pdus)
    ensures context == other
  {
    hide SlotLess;
    SlotLessIsStrictTotal();
    var a: seq<Slot> :|
      && |a| == |context| && IsAscending(SlotLess, a)
      && (forall k :: k in a <==> k in state && k != slot && state[k] in pdus)
      && forall i | 0 <= i < |a| :: context[i] == pdus[state[a[i]]];
    var b: seq<Slot> :|
      && |b| == |other| && IsAscending(SlotLess, b)
      && (forall k :: k in b <==> k in state && k != slot && state[k] in pdus)
      && forall i | 0 <= i < |b| :: other[i] == pdus[state[b[i]]];
    AscendingIsUnique(SlotLess, Elements(a), a);
    AscendingIsUnique(SlotLess, Elements(a), b);
  }

  /**
   An event fills a slot as it is tried exactly when it is a known event for that slot which the rules
   permit against the other slots of the state so far.
   */
  lemma FillsIff(states: set<StateMap>, pdus: Pdus, sig: SigCheck, i: nat, slot: Slot)
    requires i < |ResolutionOrder(states, pdus, sig)|
    ensures var order, before := ResolutionOrder(states, pdus, sig), PartialState(states, pdus, sig, i);
      Fills(Unconflicted(states), order, i, slot, pdus, sig) <==>
        && order[i] in pdus && pdus[order[i]].kind == slot.kind && pdus[order[i]].stateKey == Some(slot.stateKey)
        && exists context :: ListsOthers(context, before, slot, pdus) && AuthRules.Permitted(context, pdus[order[i]], sig)
  {
    hide ResolutionOrder, Unconflicted, ApplyAll, CheckAuth, AuthRules.Permitted, ListsOthers, Context;
    var order, before := ResolutionOrder(states, pdus, sig), PartialState(states, pdus, sig, i);
    ContextIs(before, slot, pdus);
    if order[i] in pdus {
      AuthRules.AuthorizedIff(Context(before, slot, pdus), pdus[order[i]], sig);
    }
  }
}
