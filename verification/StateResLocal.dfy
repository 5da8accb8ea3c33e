/**
 Resolution looks only at the events on the auth chains of its inputs: two event stores that
 agree there resolve alike. This is what lets a resolution be cached.
 */
module StateResLocal {
  import opened Orders
  import opened Json
  import opened Events
  import opened Auth
  import opened AuthChain
  import opened StateRes
  import opened StateResLaws

  /** Every event the inputs name. */
  function InputIds(states: set<StateMap>): set<EventId> {
    set s, k | s in states && k in s :: s[k]
  }

  /** All events resolution may look at. */
  ghost function Scope(states: set<StateMap>, pdus: Pdus): set<EventId> {
    Chain(InputIds(states), pdus)
  }

  ghost predicate AgreeOn(ids: set<EventId>, p: Pdus, q: Pdus) {
    forall id | id in ids :: (id in p <==> id in q) && (id in p ==> p[id] == q[id])
  }

  lemma AgreeMeansSameParents(ids: set<EventId>, p: Pdus, q: Pdus)
    requires AgreeOn(ids, p, q)
    ensures SameParents(ids, p, q)
  {
  }

  lemma StateValuesAreInputs(states: set<StateMap>, s: StateMap)
    requires s in states
    ensures s.Values <= InputIds(states)
  {
    forall id | id in s.Values ensures id in InputIds(states) {
      var k :| k in s && s[k] == id;
    }
  }

  lemma StateChainInScope(states: set<StateMap>, pdus: Pdus, s: StateMap)
    requires s in states
    ensures ChainOfState(s, pdus) <= Scope(states, pdus)
  {
    hide Chain, InputIds;
    StateValuesAreInputs(states, s);
    ChainIsMonotone(s.Values, InputIds(states), pdus);
  }

  lemma InputsInScope(states: set<StateMap>, pdus: Pdus)
    ensures InputIds(states) <= Scope(states, pdus)
    ensures Closed(Scope(states, pdus), pdus)
  {
    ChainIsClosed(InputIds(states), pdus);
  }

  lemma UnconflictedFromInputs(states: set<StateMap>)
    ensures Unconflicted(states).Values <= InputIds(states)
  {
    var u := Unconflicted(states);
    forall id | id in u.Values ensures id in InputIds(states) {
      var k :| k in u && u[k] == id;
      assert Agreed(states, k, id);
      var s :| s in states;
      assert k in s && s[k] == id;
    }
  }

  lemma CandidatesFromInputs(states: set<StateMap>)
    ensures Candidates(states) <= InputIds(states)
  {
    forall id | id in Candidates(states) ensures id in InputIds(states) {
      var k :| k in ConflictedSlots(states) && id in Proposed(states, k);
      var s :| s in states && k in s && s[k] == id;
    }
  }

  lemma FullInScope(states: set<StateMap>, pdus: Pdus)
    ensures FullConflicted(states, pdus) <= Scope(states, pdus)
  {
    hide Candidates, ChainOfState, Scope, InputIds;
    CandidatesFromInputs(states);
    InputsInScope(states, pdus);
    forall id | id in AuthDifference(states, pdus) ensures id in Scope(states, pdus) {
      var s :| s in states && id in ChainOfState(s, pdus);
      StateChainInScope(states, pdus, s);
    }
  }

  lemma StateChainIsLocal(states: set<StateMap>, p: Pdus, q: Pdus, s: StateMap)
    requires AgreeOn(Scope(states, p), p, q) && s in states
    ensures ChainOfState(s, p) == ChainOfState(s, q)
  {
    hide Scope, AgreeOn, Chain;
    StateChainInScope(states, p, s);
    AgreeOnSubset(Scope(states, p), ChainOfState(s, p), p, q);
    AgreeMeansSameParents(ChainOfState(s, p), p, q);
    ChainIsLocal(s.Values, p, q);
  }

  lemma AgreeOnSubset(ids: set<EventId>, sub: set<EventId>, p: Pdus, q: Pdus)
    requires AgreeOn(ids, p, q) && sub <= ids
    ensures AgreeOn(sub, p, q)
  {
  }

  lemma FullIsLocal(states: set<StateMap>, p: Pdus, q: Pdus)
    requires AgreeOn(Scope(states, p), p, q)
    ensures FullConflicted(states, p) == FullConflicted(states, q)
  {
    hide Scope, AgreeOn, ChainOfState, Candidates;
    forall s | s in states ensures ChainOfState(s, p) == ChainOfState(s, q) {
      StateChainIsLocal(states, p, q, s);
    }
    assert AuthDifference(states, p) == AuthDifference(states, q);
  }

  lemma PowerEventsAreLocal(ids: set<EventId>, p: Pdus, q: Pdus)
    requires AgreeOn(ids, p, q)
    ensures PowerEvents(ids, p) == PowerEvents(ids, q)
  {
    hide IsPowerEvent;
  }

  // ---------------------------------------------------------------------------
  // The orders
  // ---------------------------------------------------------------------------

  ghost predicate LessAgree<T(!new)>(less: (T, T) -> bool, less': (T, T) -> bool, s: set<T>) {
    forall a, b | a in s && b in s :: less(a, b) == less'(a, b)
  }

  lemma LeastAgrees<T(!new)>(less: (T, T) -> bool, less': (T, T) -> bool, s: set<T>)
    requires StrictTotal(less) && StrictTotal(less') && s != {} && LessAgree(less, less', s)
    ensures Least(less, s) == Least(less', s)
  {
    LeastIsUnique(less', Least(less, s), s);
  }

  lemma {:induction false} AscendingAgrees<T(!new)>(less: (T, T) -> bool, less': (T, T) -> bool, s: set<T>)
    requires StrictTotal(less) && StrictTotal(less') && LessAgree(less, less', s)
    ensures Ascending(less, s) == Ascending(less', s)
  {
    if s != {} {
      LeastAgrees(less, less', s);
      AscendingAgrees(less, less', s - {Least(less, s)});
    }
  }

  lemma PowerKeysAgree(ids: set<EventId>, base: StateMap, p: Pdus, q: Pdus)
    requires AgreeOn(ids + base.Values, p, q)
    ensures LessAgree(PowerLess(base, p), PowerLess(base, q), ids)
  {
    hide KeyLess, UserLevel, Content, CreatorOf;
    assert EventIn(base, ROOM_POWER_LEVELS, p) == EventIn(base, ROOM_POWER_LEVELS, q) by { EventInAgrees(base, ROOM_POWER_LEVELS, p, q); }
    assert EventIn(base, ROOM_CREATE, p) == EventIn(base, ROOM_CREATE, q) by { EventInAgrees(base, ROOM_CREATE, p, q); }
    forall id | id in ids ensures PowerKey(id, base, p) == PowerKey(id, base, q) {
      assert id in ids + base.Values;
    }
  }

  lemma EventInAgrees(base: StateMap, kind: string, p: Pdus, q: Pdus)
    requires AgreeOn(base.Values, p, q)
    ensures EventIn(base, kind, p) == EventIn(base, kind, q)
  {
    var slot := Slot(kind, "");
    if slot in base {
      assert base[slot] in base.Values;
    }
  }

  lemma {:induction false} PowerOrderIsLocal(remaining: set<EventId>, base: StateMap, p: Pdus, q: Pdus)
    requires AgreeOn(remaining + base.Values, p, q)
    ensures PowerOrder(remaining, base, p) == PowerOrder(remaining, base, q)
    decreases |remaining|
  {
    if remaining != {} {
      hide PowerLess, Choices, AgreeOn;
      PowerLessIsStrictTotal(base, p);
      PowerLessIsStrictTotal(base, q);
      ChoicesAgree(remaining, p, q) by { AgreeOnSubset(remaining + base.Values, remaining, p, q); }
      ChoicesRemain(remaining, p);
      PowerKeysAgree(remaining, base, p, q);
      LeastAgrees(PowerLess(base, p), PowerLess(base, q), Choices(remaining, p));
      var next := Least(PowerLess(base, p), Choices(remaining, p));
      AgreeOnSubset(remaining + base.Values, (remaining - {next}) + base.Values, p, q);
      PowerOrderIsLocal(remaining - {next}, base, p, q);
    }
  }

  lemma ChoicesAgree(remaining: set<EventId>, p: Pdus, q: Pdus)
    requires AgreeOn(remaining, p, q)
    ensures Choices(remaining, p) == Choices(remaining, q)
  {
    assert Ready(remaining, p) == Ready(remaining, q);
  }

  // ---------------------------------------------------------------------------
  // The mainline
  // ---------------------------------------------------------------------------

  /** A set of events closed under citation in `p`, on which `p` and `q` agree. */
  ghost predicate Shared(scope: set<EventId>, p: Pdus, q: Pdus) {
    AgreeOn(scope, p, q) && Closed(scope, p)
  }

  lemma {:induction false} FirstPowerLevelsAgrees(ids: seq<EventId>, scope: set<EventId>, p: Pdus, q: Pdus)
    requires AgreeOn(scope, p, q) && Elements(ids) <= scope
    ensures FirstPowerLevels(ids, p) == FirstPowerLevels(ids, q)
  {
    if ids != [] {
      assert ids[0] in Elements(ids);
      assert Elements(ids[1..]) <= Elements(ids);
      FirstPowerLevelsAgrees(ids[1..], scope, p, q);
    }
  }

  lemma AncestorIsLocal(id: EventId, scope: set<EventId>, p: Pdus, q: Pdus)
    requires Shared(scope, p, q) && id in scope
    ensures PowerLevelsAncestor(id, p) == PowerLevelsAncestor(id, q)
    ensures PowerLevelsAncestor(id, p).Some? ==> PowerLevelsAncestor(id, p).value in scope
  {
    hide FirstPowerLevels;
    if id in p {
      assert Parents(id, p) <= scope;
      FirstPowerLevelsAgrees(p[id].authEvents, scope, p, q);
    }
  }

  lemma {:induction false} MainlineIsLocal(
    cursor: Option<EventId>, seen: set<EventId>, scope: set<EventId>, p: Pdus, q: Pdus)
    requires Shared(scope, p, q) && (cursor.Some? ==> cursor.value in scope)
    requires cursor.Some? ==> cursor.value in p || seen == {}
    requires cursor.Some? ==> cursor.value in q || seen == {}
    ensures Mainline(cursor, p, seen) == Mainline(cursor, q, seen)
    decreases |p.Keys - seen| + if seen == {} then 1 else 0
  {
    hide PowerLevelsAncestor, Mainline, Shared;
    MainlineUnfolds(cursor, p, seen);
    MainlineUnfolds(cursor, q, seen);
    if cursor.Some? && cursor.value !in seen {
      var id := cursor.value;
      AncestorIsLocal(id, scope, p, q);
      MainlineShrinks(id, p, seen);
      var a := PowerLevelsAncestor(id, p);
      MainlineIsLocal(a, seen + {id}, scope, p, q);
    }
  }

  lemma {:induction false} DepthIsLocal(
    id: EventId, positions: map<EventId, nat>, fuel: nat, scope: set<EventId>, p: Pdus, q: Pdus)
    requires Shared(scope, p, q) && id in scope
    ensures MainlineDepth(id, positions, p, fuel) == MainlineDepth(id, positions, q, fuel)
    decreases fuel
  {
    hide PowerLevelsAncestor;
    if fuel > 0 && id !in positions {
      AncestorIsLocal(id, scope, p, q);
      var a := PowerLevelsAncestor(id, p);
      if a.Some? {
        DepthIsLocal(a.value, positions, fuel - 1, scope, p, q);
      }
    }
  }

  lemma MainlineOrderIsLocal(ids: set<EventId>, powerLevels: Option<EventId>, scope: set<EventId>, p: Pdus, q: Pdus)
    requires Shared(scope, p, q) && ids <= scope && (powerLevels.Some? ==> powerLevels.value in scope)
    ensures MainlineOrder(ids, powerLevels, p) == MainlineOrder(ids, powerLevels, q)
  {
    hide Mainline, MainlineDepth, Positions, KeyLess;
    MainlineIsLocal(powerLevels, {}, scope, p, q);
    var positions := Positions(Mainline(powerLevels, p, {}));
    forall id | id in ids ensures MainlineKey(id, positions, p) == MainlineKey(id, positions, q) {
      DepthIsLocal(id, positions, DEPTH_HOPS + 1, scope, p, q);
    }
    MainlineLessIsStrictTotal(positions, p);
    MainlineLessIsStrictTotal(positions, q);
    AscendingAgrees(MainlineLess(positions, p), MainlineLess(positions, q), ids);
  }

  // ---------------------------------------------------------------------------
  // Iterative authorization
  // ---------------------------------------------------------------------------

  lemma {:induction false} KnownEventsAgree(slots: seq<Slot>, state: StateMap, p: Pdus, q: Pdus)
    requires AgreeOn(state.Values, p, q)
    ensures KnownEvents(slots, state, p) == KnownEvents(slots, state, q)
  {
    if slots != [] {
      KnownEventsAgree(slots[1..], state, p, q);
      if slots[0] in state {
        assert state[slots[0]] in state.Values;
      }
    }
  }

  lemma ContextAgrees(state: StateMap, slot: Slot, p: Pdus, q: Pdus)
    requires AgreeOn(state.Values, p, q)
    ensures Context(state, slot, p) == Context(state, slot, q)
  {
    hide KnownEvents, SlotLess;
    SlotLessIsStrictTotal();
    KnownEventsAgree(Ascending(SlotLess, state.Keys - {slot}), state, p, q);
  }

  lemma ApplyIsLocal(state: StateMap, id: EventId, scope: set<EventId>, p: Pdus, q: Pdus, sig: SigCheck)
    requires AgreeOn(scope, p, q) && state.Values <= scope && id in scope
    ensures Apply(state, id, p, sig) == Apply(state, id, q, sig)
    ensures Apply(state, id, p, sig).Values <= scope
  {
    hide Context, CheckAuth;
    AgreeOnSubset(scope, state.Values, p, q);
    if id in p {
      var slot := SlotOf(p[id]);
      if slot.Some? {
        ContextAgrees(state, slot.value, p, q);
        UpdateValues(state, slot.value, id);
      }
    }
  }

  lemma UpdateValues(state: StateMap, slot: Slot, id: EventId)
    ensures state[slot := id].Values <= state.Values + {id}
  {
    var updated := state[slot := id];
    forall v | v in updated.Values ensures v in state.Values + {id} {
      var k :| k in updated && updated[k] == v;
      if k != slot {
        assert k in state && state[k] == v;
      }
    }
  }

  lemma {:induction false} ApplyAllIsLocal(
    state: StateMap, ids: seq<EventId>, scope: set<EventId>, p: Pdus, q: Pdus, sig: SigCheck)
    requires AgreeOn(scope, p, q) && state.Values <= scope && Elements(ids) <= scope
    ensures ApplyAll(state, ids, p, sig) == ApplyAll(state, ids, q, sig)
    ensures ApplyAll(state, ids, p, sig).Values <= scope
  {
    hide Apply, AgreeOn;
    if ids != [] {
      var init, last := ids[..|ids| - 1], ids[|ids| - 1];
      assert ids == init + [last];
      ElementsSnoc(init, last);
      ApplyAllIsLocal(state, init, scope, p, q, sig);
      ApplyIsLocal(ApplyAll(state, init, p, sig), last, scope, p, q, sig);
    }
  }

  // ---------------------------------------------------------------------------
  // Resolution
  // ---------------------------------------------------------------------------

  lemma OrderElements(order: seq<EventId>, ids: set<EventId>, scope: set<EventId>)
    requires (forall id :: id in order <==> id in ids) && ids <= scope
    ensures Elements(order) <= scope
  {
  }

  lemma PowerPartIsLocal(states: set<StateMap>, p: Pdus, q: Pdus)
    requires AgreeOn(Scope(states, p), p, q)
    ensures PowerPart(states, p) == PowerPart(states, q)
    ensures Elements(PowerPart(states, p)) <= Scope(states, p)
  {
    hide AgreeOn, Scope, FullConflicted, Unconflicted, PowerOrder, InputIds;
    var scope, full, base := Scope(states, p), FullConflicted(states, p), Unconflicted(states);
    FullInScope(states, p);
    FullIsLocal(states, p, q);
    AgreeOnSubset(scope, full, p, q);
    PowerEventsAreLocal(full, p, q);
    InputsInScope(states, p);
    UnconflictedFromInputs(states);
    AgreeOnSubset(scope, PowerEvents(full, p) + base.Values, p, q);
    PowerOrderIsLocal(PowerEvents(full, p), base, p, q);
    PowerOrderIsListing(PowerEvents(full, p), base, p);
    OrderElements(PowerPart(states, p), PowerEvents(full, p), scope);
  }

  lemma MainlinePartIsLocal(states: set<StateMap>, p: Pdus, q: Pdus, sig: SigCheck)
    requires AgreeOn(Scope(states, p), p, q)
    ensures var settled := ApplyAll(Unconflicted(states), PowerPart(states, p), p, sig);
            settled == ApplyAll(Unconflicted(states), PowerPart(states, q), q, sig) && settled.Values <= Scope(states, p)
    ensures MainlinePart(states, p, sig) == MainlinePart(states, q, sig)
    ensures Elements(MainlinePart(states, p, sig)) <= Scope(states, p)
  {
    hide AgreeOn, Scope, FullConflicted, Unconflicted, PowerPart, InputIds, ApplyAll, MainlineOrder, PowerEvents, Closed;
    var scope, full, base := Scope(states, p), FullConflicted(states, p), Unconflicted(states);
    PowerPartIsLocal(states, p, q);
    InputsInScope(states, p);
    UnconflictedFromInputs(states);
    ApplyAllIsLocal(base, PowerPart(states, p), scope, p, q, sig);
    var settled := ApplyAll(base, PowerPart(states, p), p, sig);
    FullInScope(states, p);
    FullIsLocal(states, p, q);
    AgreeOnSubset(scope, full, p, q);
    PowerEventsAreLocal(full, p, q);
    var rest := full - PowerEvents(full, p);
    assert ResolvedPowerLevels(settled).Some? ==> ResolvedPowerLevels(settled).value in settled.Values;
    MainlineOrderIsLocal(rest, ResolvedPowerLevels(settled), scope, p, q);
    MainlineOrderIsSorted(rest, ResolvedPowerLevels(settled), p);
    OrderElements(MainlinePart(states, p, sig), rest, scope);
  }

  /** Event stores that agree on the inputs' auth chains resolve the inputs alike. */
  lemma ResolveIsLocal(states: set<StateMap>, p: Pdus, q: Pdus, sig: SigCheck)
    requires AgreeOn(Scope(states, p), p, q)
    ensures Resolve(states, p, sig) == Resolve(states, q, sig)
  {
    hide AgreeOn, Scope, Unconflicted, PowerPart, MainlinePart, ApplyAll, ConflictedSlots;
    PowerPartIsLocal(states, p, q);
    MainlinePartIsLocal(states, p, q, sig);
    var settled := ApplyAll(Unconflicted(states), PowerPart(states, p), p, sig);
    ApplyAllIsLocal(settled, MainlinePart(states, p, sig), Scope(states, p), p, q, sig);
  }
}
