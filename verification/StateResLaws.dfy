/** What the orders and the resolution of StateRes mean. */
module StateResLaws {
  import opened Orders
  import opened Json
  import opened Events
  import opened Auth
  import opened AuthChain
  import opened StateRes

  // ---------------------------------------------------------------------------
  // The power order
  // ---------------------------------------------------------------------------

  /** `order` lists `all`, each time taking the least-keyed of the events then allowed. */
  ghost predicate IsGreedy(order: seq<EventId>, all: set<EventId>, base: StateMap, pdus: Pdus) {
    && |order| == |all|
    && forall i | 0 <= i < |order| ::
         IsLeast(PowerLess(base, pdus), order[i], Choices(all - Elements(order[..i]), pdus))
  }

  lemma LeastIsUnique<T(!new)>(less: (T, T) -> bool, m: T, s: set<T>)
    requires StrictTotal(less) && s != {} && IsLeast(less, m, s)
    ensures m == Least(less, s)
  {
    var l := Least(less, s);
    assert m != l ==> less(m, l) && less(l, m);
  }

  lemma {:induction false} PowerOrderIsGreedy(all: set<EventId>, base: StateMap, pdus: Pdus)
    ensures IsGreedy(PowerOrder(all, base, pdus), all, base, pdus)
    decreases |all|
  {
    hide Choices, KeyLess;
    if all != {} {
      PowerLessIsStrictTotal(base, pdus);
      ChoicesRemain(all, pdus);
      var next := Least(PowerLess(base, pdus), Choices(all, pdus));
      var rest := PowerOrder(all - {next}, base, pdus);
      PowerOrderIsGreedy(all - {next}, base, pdus);
      var order := PowerOrder(all, base, pdus);
      assert order == [next] + rest;
      forall i | 0 <= i < |order|
        ensures IsLeast(PowerLess(base, pdus), order[i], Choices(all - Elements(order[..i]), pdus))
      {
        if i == 0 {
          assert all - Elements(order[..0]) == all;
        } else {
          assert order[..i] == [next] + rest[..i - 1];
          assert all - Elements(order[..i]) == all - {next} - Elements(rest[..i - 1]);
        }
      }
    }
  }

  lemma ChoicesRemain(remaining: set<EventId>, pdus: Pdus)
    ensures Choices(remaining, pdus) <= remaining
    ensures remaining != {} ==> Choices(remaining, pdus) != {}
  {
  }

  /** The greedy order is unique: nothing else could have been returned. */
  lemma {:induction false} GreedyOrderIsUnique(order: seq<EventId>, all: set<EventId>, base: StateMap, pdus: Pdus)
    requires IsGreedy(order, all, base, pdus)
    ensures order == PowerOrder(all, base, pdus)
    decreases |order|
  {
    hide Choices, KeyLess;
    if order != [] {
      PowerLessIsStrictTotal(base, pdus);
      ChoicesRemain(all, pdus);
      assert all - Elements(order[..0]) == all;
      assert IsLeast(PowerLess(base, pdus), order[0], Choices(all - Elements(order[..0]), pdus));
      LeastIsUnique(PowerLess(base, pdus), order[0], Choices(all, pdus));
      var rest := order[1..];
      forall i | 0 <= i < |rest|
        ensures IsLeast(PowerLess(base, pdus), rest[i], Choices(all - {order[0]} - Elements(rest[..i]), pdus))
      {
        assert order[..i + 1] == [order[0]] + rest[..i];
        assert all - Elements(order[..i + 1]) == all - {order[0]} - Elements(rest[..i]);
        assert rest[i] == order[i + 1];
      }
      GreedyOrderIsUnique(rest, all - {order[0]}, base, pdus);
    }
  }

  /** The power order is a listing of the set: every event once. */
  lemma {:induction false} PowerOrderIsListing(all: set<EventId>, base: StateMap, pdus: Pdus)
    ensures NoRepeats(PowerOrder(all, base, pdus))
    ensures forall id :: id in PowerOrder(all, base, pdus) <==> id in all
    decreases |all|
  {
    hide Choices, KeyLess;
    if all != {} {
      PowerLessIsStrictTotal(base, pdus);
      ChoicesRemain(all, pdus);
      var next := Least(PowerLess(base, pdus), Choices(all, pdus));
      PowerOrderIsListing(all - {next}, base, pdus);
      var rest := PowerOrder(all - {next}, base, pdus);
      assert PowerOrder(all, base, pdus) == [next] + rest;
      assert next !in rest;
    }
  }

  lemma LowestRankIsReady(remaining: set<EventId>, pdus: Pdus, rank: EventId -> nat, low: EventId)
    requires Acyclic(pdus, rank) && low in remaining && forall id | id in remaining :: rank(low) <= rank(id)
    ensures low in Ready(remaining, pdus)
  {
  }

  lemma {:induction false} LowestRank(remaining: set<EventId>, rank: EventId -> nat) returns (low: EventId)
    requires remaining != {}
    ensures low in remaining && forall id | id in remaining :: rank(low) <= rank(id)
  {
    low :| low in remaining;
    if remaining != {low} {
      var l := LowestRank(remaining - {low}, rank);
      if rank(l) < rank(low) {
        low := l;
      }
    }
  }

  /** Without citation cycles the fall-back to all remaining events is never taken. */
  lemma SomeEventIsReady(remaining: set<EventId>, pdus: Pdus, rank: EventId -> nat)
    requires Acyclic(pdus, rank) && remaining != {}
    ensures Choices(remaining, pdus) == Ready(remaining, pdus) != {}
  {
    var low := LowestRank(remaining, rank);
    LowestRankIsReady(remaining, pdus, rank, low);
  }

  /** Every event comes after all the in-set events it cites. */
  lemma PowerOrderIsTopological(all: set<EventId>, base: StateMap, pdus: Pdus, rank: EventId -> nat, i: nat, p: EventId)
    requires Acyclic(pdus, rank)
    requires i < |PowerOrder(all, base, pdus)|
    requires p in all && p in Parents(PowerOrder(all, base, pdus)[i], pdus)
    ensures exists j :: 0 <= j < i && PowerOrder(all, base, pdus)[j] == p
  {
    hide PowerOrder, Parents, Acyclic;
    var order := PowerOrder(all, base, pdus);
    PowerOrderIsGreedy(all, base, pdus);
    var remaining := all - Elements(order[..i]);
    assert IsLeast(PowerLess(base, pdus), order[i], Choices(remaining, pdus));
    ChoicesRemain(remaining, pdus);
    SomeEventIsReady(remaining, pdus, rank);
    assert order[i] in Ready(remaining, pdus);
    assert p in Elements(order[..i]);
    var j :| 0 <= j < i && order[..i][j] == p;
  }

  // ---------------------------------------------------------------------------
  // The mainline
  // ---------------------------------------------------------------------------

  /** The `hops`-th power-levels ancestor of `id`. */
  function Ancestor(id: EventId, hops: nat, pdus: Pdus): Option<EventId>
    decreases hops
  {
    if hops == 0 then Some(id)
    else
      match PowerLevelsAncestor(id, pdus)
      case Some(a) => Ancestor(a, hops - 1, pdus)
      case None => None
  }

  predicate OnMainline(id: Option<EventId>, positions: map<EventId, nat>) {
    id.Some? && id.value in positions
  }

  /**
   An event's depth is the position of the first mainline event among its ancestors, provided one
   is met within the hop limit; otherwise it is 0.
   */
  lemma {:induction false} DepthIsNearest(id: EventId, positions: map<EventId, nat>, pdus: Pdus, fuel: nat, hops: nat)
    requires forall h | 0 <= h < hops :: !OnMainline(Ancestor(id, h, pdus), positions)
    ensures hops < fuel && OnMainline(Ancestor(id, hops, pdus), positions) ==>
              MainlineDepth(id, positions, pdus, fuel) == positions[Ancestor(id, hops, pdus).value]
    ensures fuel <= hops ==> MainlineDepth(id, positions, pdus, fuel) == 0
    decreases hops
  {
    hide PowerLevelsAncestor;
    if hops > 0 {
      assert !OnMainline(Ancestor(id, 0, pdus), positions);
      var a := PowerLevelsAncestor(id, pdus);
      if a.Some? && fuel > 0 {
        forall h | 0 <= h < hops - 1 ensures !OnMainline(Ancestor(a.value, h, pdus), positions) {
          assert Ancestor(id, h + 1, pdus) == Ancestor(a.value, h, pdus);
        }
        DepthIsNearest(a.value, positions, pdus, fuel - 1, hops - 1);
        assert Ancestor(id, hops, pdus) == Ancestor(a.value, hops - 1, pdus);
      }
    }
  }

  /** The mainline from an event is its power-levels ancestry, each entry once. */
  lemma {:induction false} MainlineIsAncestry(
    id: EventId, pdus: Pdus, seen: set<EventId>, rank: EventId -> nat, hops: nat)
    requires Acyclic(pdus, rank) && (id in pdus || seen == {}) && forall x | x in seen :: rank(id) < rank(x)
    ensures var m := Mainline(Some(id), pdus, seen);
            if hops < |m| then Ancestor(id, hops, pdus) == Some(m[hops]) else Ancestor(id, hops, pdus) == None
    decreases hops
  {
    var a := PowerLevelsAncestor(id, pdus);
    var m := Mainline(Some(id), pdus, seen);
    assert m == [id] + Mainline(a, pdus, seen + {id});
    if hops > 0 && a.Some? {
      MainlineIsAncestry(a.value, pdus, seen + {id}, rank, hops - 1);
    }
  }

  /** The mainline order lists its set by (depth, timestamp, id), ascending. */
  lemma MainlineOrderIsSorted(ids: set<EventId>, powerLevels: Option<EventId>, pdus: Pdus)
    ensures var positions := Positions(Mainline(powerLevels, pdus, {}));
            IsAscending(MainlineLess(positions, pdus), MainlineOrder(ids, powerLevels, pdus))
    ensures forall id :: id in MainlineOrder(ids, powerLevels, pdus) <==> id in ids
  {
    var positions := Positions(Mainline(powerLevels, pdus, {}));
    MainlineLessIsStrictTotal(positions, pdus);
    AscendingIsSorted(MainlineLess(positions, pdus), ids);
  }

  // ---------------------------------------------------------------------------
  // What resolution leaves in each slot
  // ---------------------------------------------------------------------------

  /** Every event applied, in order: the power events, then the rest. */
  ghost function ResolutionOrder(states: set<StateMap>, pdus: Pdus, sig: SigCheck): seq<EventId> {
    if ConflictedSlots(states) == {} then [] else PowerPart(states, pdus) + MainlinePart(states, pdus, sig)
  }

  /** The state just before the `i`-th event of the resolution order is tried. */
  ghost function PartialState(states: set<StateMap>, pdus: Pdus, sig: SigCheck, i: nat): StateMap
    requires i <= |ResolutionOrder(states, pdus, sig)|
  {
    ApplyAll(Unconflicted(states), ResolutionOrder(states, pdus, sig)[..i], pdus, sig)
  }

  lemma {:induction false} ApplyAllSplits(state: StateMap, a: seq<EventId>, b: seq<EventId>, pdus: Pdus, sig: SigCheck)
    ensures ApplyAll(state, a + b, pdus, sig) == ApplyAll(ApplyAll(state, a, pdus, sig), b, pdus, sig)
  {
    hide Apply;
    if b == [] {
      assert a + b == a;
    } else {
      ApplyAllSplits(state, a, b[..|b| - 1], pdus, sig);
      assert (a + b)[..|a + b| - 1] == a + b[..|b| - 1];
    }
  }

  lemma ResolveFollowsOrder(states: set<StateMap>, pdus: Pdus, sig: SigCheck)
    ensures var order := ResolutionOrder(states, pdus, sig);
            Resolve(states, pdus, sig) == PartialState(states, pdus, sig, |order|) + Unconflicted(states)
  {
    hide ApplyAll, PowerPart, MainlinePart, Unconflicted, ConflictedSlots;
    var order := ResolutionOrder(states, pdus, sig);
    assert order[..|order|] == order;
    if ConflictedSlots(states) != {} {
      ApplyAllSplits(Unconflicted(states), PowerPart(states, pdus), MainlinePart(states, pdus, sig), pdus, sig);
    } else {
      ApplyNothing(Unconflicted(states), pdus, sig);
    }
  }

  lemma ApplyNothing(state: StateMap, pdus: Pdus, sig: SigCheck)
    ensures ApplyAll(state, [], pdus, sig) == state
  {
  }

  /** Does the `i`-th event of `order` fill `slot`, passing the rules as it is tried? */
  ghost predicate Fills(base: StateMap, order: seq<EventId>, i: nat, slot: Slot, pdus: Pdus, sig: SigCheck)
    requires i < |order|
  {
    Takes(ApplyAll(base, order[..i], pdus, sig), order[i], slot, pdus, sig)
  }

  /** A slot holds the last event that filled it, or what it held at the start if none did. */
  lemma {:induction false} LastFillerStays(base: StateMap, order: seq<EventId>, slot: Slot, pdus: Pdus, sig: SigCheck)
    returns (last: Option<nat>)
    ensures match last
            case Some(i) =>
              && i < |order| && Fills(base, order, i, slot, pdus, sig)
              && (forall j | i < j < |order| :: !Fills(base, order, j, slot, pdus, sig))
              && slot in ApplyAll(base, order, pdus, sig) && ApplyAll(base, order, pdus, sig)[slot] == order[i]
            case None =>
              && (forall j | 0 <= j < |order| :: !Fills(base, order, j, slot, pdus, sig))
              && (slot in ApplyAll(base, order, pdus, sig) <==> slot in base)
              && (slot in base ==> ApplyAll(base, order, pdus, sig)[slot] == base[slot])
    decreases |order|
  {
    hide CheckAuth, Context;
    if order == [] {
      last := None;
    } else {
      var n := |order| - 1;
      var init := order[..n];
      last := LastFillerStays(base, init, slot, pdus, sig);
      forall j | 0 <= j < n ensures Fills(base, order, j, slot, pdus, sig) <==> Fills(base, init, j, slot, pdus, sig) {
        assert order[..j] == init[..j];
      }
      if Fills(base, order, n, slot, pdus, sig) {
        last := Some(n);
      }
    }
  }

  /**
   The resolved state, slot by slot. An agreed slot keeps its event. Any other slot is filled
   exactly when some event of the resolution order fills it, and then by the last one that does.
   */
  lemma ResolvedSlot(states: set<StateMap>, pdus: Pdus, sig: SigCheck, slot: Slot)
    ensures var base, order := Unconflicted(states), ResolutionOrder(states, pdus, sig);
            var resolved := Resolve(states, pdus, sig);
            && (slot in base ==> slot in resolved && resolved[slot] == base[slot])
            && (slot !in base ==>
                  && (slot in resolved <==> exists i :: 0 <= i < |order| && Fills(base, order, i, slot, pdus, sig))
                  && (slot in resolved ==>
                        exists i :: && 0 <= i < |order| && Fills(base, order, i, slot, pdus, sig)
                                    && resolved[slot] == order[i]
                                    && forall j | i < j < |order| :: !Fills(base, order, j, slot, pdus, sig)))
  {
    hide ResolutionOrder, Unconflicted, ApplyAll, Fills, Resolve;
    var base, order := Unconflicted(states), ResolutionOrder(states, pdus, sig);
    ResolveFollowsOrder(states, pdus, sig);
    assert order[..|order|] == order;
    var last := LastFillerStays(base, order, slot, pdus, sig);
  }

  /** No slot or event comes from nowhere: a resolved slot was agreed, or its event was contested and fits it. */
  lemma ResolvedEventsAreContested(states: set<StateMap>, pdus: Pdus, sig: SigCheck, slot: Slot)
    requires slot in Resolve(states, pdus, sig) && slot !in Unconflicted(states)
    ensures var id := Resolve(states, pdus, sig)[slot];
            && id in FullConflicted(states, pdus)
            && id in pdus && SlotOf(pdus[id]) == Some(slot)
  {
    ResolvedSlot(states, pdus, sig, slot);
    hide Resolve, Unconflicted, ApplyAll, CheckAuth, Context, FullConflicted;
    var base, order := Unconflicted(states), ResolutionOrder(states, pdus, sig);
    var i :| 0 <= i < |order| && Fills(base, order, i, slot, pdus, sig) && Resolve(states, pdus, sig)[slot] == order[i];
    OrderIsContested(states, pdus, sig, order[i]);
  }

  lemma OrderIsContested(states: set<StateMap>, pdus: Pdus, sig: SigCheck, id: EventId)
    requires id in ResolutionOrder(states, pdus, sig)
    ensures id in FullConflicted(states, pdus)
  {
    hide FullConflicted, PowerOrder, MainlineOrder, Unconflicted;
    var full := FullConflicted(states, pdus);
    PowerOrderIsListing(PowerEvents(full, pdus), Unconflicted(states), pdus);
    var settled := ApplyAll(Unconflicted(states), PowerPart(states, pdus), pdus, sig);
    MainlineOrderIsSorted(full - PowerEvents(full, pdus), ResolvedPowerLevels(settled), pdus);
  }
}
