/** The resolver as it runs: loops over lists and hash sets, in whatever order those iterate. */
module Resolver {
  import opened Orders
  import opened Json
  import opened Events
  import opened Auth
  import opened AuthChain
  import opened StateRes

  // ---------------------------------------------------------------------------
  // separate
  // ---------------------------------------------------------------------------

  type Conflicts = map<Slot, seq<EventId>>

  /** The events the inputs fill `slot` with, input by input. */
  function Present(states: seq<StateMap>, slot: Slot): seq<EventId> {
    if states == [] then []
    else (if slot in states[0] then [states[0][slot]] else []) + Present(states[1..], slot)
  }

  lemma {:induction false} PresentIsProposed(states: seq<StateMap>, slot: Slot)
    ensures Elements(Present(states, slot)) == Proposed(Elements(states), slot)
    ensures |Present(states, slot)| <= |states|
    ensures |Present(states, slot)| == |states| <==> forall s | s in states :: slot in s
  {
    if states != [] {
      PresentIsProposed(states[1..], slot);
      var rest := Present(states[1..], slot);
      assert Elements(states) == {states[0]} + Elements(states[1..]);
      assert Proposed(Elements(states), slot)
          == (if slot in states[0] then {states[0][slot]} else {}) + Proposed(Elements(states[1..]), slot);
      if slot in states[0] {
        assert Elements([states[0][slot]] + rest) == {states[0][slot]} + Elements(rest);
      } else {
        assert Present(states, slot) == rest;
        assert states[0] in states;
      }
      assert forall s :: s in states <==> s == states[0] || s in states[1..];
    }
  }

  /** The distinct events of `present`, in order of first appearance. */
  method Distinct(present: seq<EventId>) returns (distinct: seq<EventId>)
    ensures NoRepeats(distinct) && Elements(distinct) == Elements(present)
  {
    distinct := [];
    for i := 0 to |present|
      invariant NoRepeats(distinct) && Elements(distinct) == Elements(present[..i])
    {
      assert Elements(present[..i + 1]) == Elements(present[..i]) + {present[i]};
      if present[i] !in distinct {
        assert Elements(distinct + [present[i]]) == Elements(distinct) + {present[i]};
        distinct := distinct + [present[i]];
      } else {
        assert present[i] in Elements(distinct);
      }
    }
    assert present[..|present|] == present;
  }

  lemma SlotIsAgreed(states: seq<StateMap>, slot: Slot, distinct: seq<EventId>)
    requires slot in AllSlots(Elements(states))
    requires NoRepeats(distinct) && Elements(distinct) == Proposed(Elements(states), slot)
    ensures (|Present(states, slot)| == |states| && |distinct| == 1) <==> slot in AgreedSlots(Elements(states))
    ensures |distinct| == 1 && slot in AgreedSlots(Elements(states)) ==> AgreedEvent(Elements(states), slot) == distinct[0]
    ensures distinct != []
  {
    var inputs := Elements(states);
    PresentIsProposed(states, slot);
    var s :| s in inputs && slot in s;
    assert s[slot] in Elements(distinct);
    if |Present(states, slot)| == |states| && |distinct| == 1 {
      forall t | t in inputs ensures slot in t && t[slot] == distinct[0] {
        assert t[slot] in Elements(distinct);
      }
      assert Agreed(inputs, slot, s[slot]);
    }
    if slot in AgreedSlots(inputs) {
      var t :| t in inputs && slot in t && Agreed(inputs, slot, t[slot]);
      forall i | 0 <= i < |distinct| ensures distinct[i] == t[slot] {
        assert distinct[i] in Elements(distinct);
      }
      assert distinct != [];
      if |distinct| >= 2 {
        NoRepeatsTwo(distinct);
      }
    }
  }

  lemma NoRepeatsTwo<T>(xs: seq<T>)
    requires NoRepeats(xs) && |xs| >= 2
    ensures xs[0] != xs[1]
  {
  }

  ghost predicate Lists(conflicted: Conflicts, states: set<StateMap>, slots: set<Slot>) {
    && conflicted.Keys == slots
    && forall k | k in conflicted :: NoRepeats(conflicted[k]) && Elements(conflicted[k]) == Proposed(states, k)
  }

  /** The slots of `done` are split as the specification splits them. */
  ghost predicate Partitioned(unconflicted: StateMap, conflicted: Conflicts, states: set<StateMap>, done: set<Slot>) {
    && unconflicted.Keys == AgreedSlots(states) * done
    && (forall k | k in unconflicted :: unconflicted[k] == AgreedEvent(states, k))
    && Lists(conflicted, states, done - AgreedSlots(states))
  }

  lemma PartitionStarts(states: set<StateMap>)
    ensures Partitioned(map[], map[], states, {})
  {
  }

  lemma PartitionAgreed(unconflicted: StateMap, conflicted: Conflicts, states: set<StateMap>, done: set<Slot>, key: Slot)
    requires Partitioned(unconflicted, conflicted, states, done) && key in AgreedSlots(states)
    ensures Partitioned(unconflicted[key := AgreedEvent(states, key)], conflicted, states, done + {key})
  {
    hide AgreedSlots, AgreedEvent;
  }

  lemma PartitionConflicted(
    unconflicted: StateMap, conflicted: Conflicts, states: set<StateMap>, done: set<Slot>, key: Slot, ids: seq<EventId>)
    requires Partitioned(unconflicted, conflicted, states, done) && key !in AgreedSlots(states)
    requires NoRepeats(ids) && Elements(ids) == Proposed(states, key)
    ensures Partitioned(unconflicted, conflicted[key := ids], states, done + {key})
  {
    hide AgreedSlots, AgreedEvent, Proposed, NoRepeats, Elements;
  }

  lemma PartitionEnds(unconflicted: StateMap, conflicted: Conflicts, states: set<StateMap>)
    requires Partitioned(unconflicted, conflicted, states, AllSlots(states))
    ensures unconflicted == Unconflicted(states)
    ensures Lists(conflicted, states, ConflictedSlots(states))
  {
    assert AgreedSlots(states) <= AllSlots(states);
    assert AgreedSlots(states) * AllSlots(states) == AgreedSlots(states);
  }

  method SlotsOf(states: seq<StateMap>) returns (keys: set<Slot>)
    ensures keys == AllSlots(Elements(states))
  {
    keys := {};
    for i := 0 to |states|
      invariant keys == AllSlots(Elements(states[..i]))
    {
      assert Elements(states[..i + 1]) == Elements(states[..i]) + {states[i]};
      keys := keys + states[i].Keys;
    }
    assert states[..|states|] == states;
  }

  method Separate(states: seq<StateMap>) returns (unconflicted: StateMap, conflicted: Conflicts)
    ensures unconflicted == Unconflicted(Elements(states))
    ensures Lists(conflicted, Elements(states), ConflictedSlots(Elements(states)))
  {
    hide Partitioned, Elements, AgreedSlots, AgreedEvent, Proposed, AllSlots, NoRepeats;
    ghost var inputs := Elements(states);
    var keys := SlotsOf(states);
    unconflicted := map[];
    conflicted := map[];
    PartitionStarts(inputs);
    ghost var done := {};
    while keys != {}
      invariant keys + done == AllSlots(inputs)
      invariant Partitioned(unconflicted, conflicted, inputs, done)
      decreases keys
    {
      var key :| key in keys;
      keys := keys - {key};
      var present := Present(states, key);
      var distinct := Distinct(present);
      PresentIsProposed(states, key);
      SlotIsAgreed(states, key, distinct);
      if |present| == |states| && |distinct| == 1 {
        PartitionAgreed(unconflicted, conflicted, inputs, done, key);
        unconflicted := unconflicted[key := distinct[0]];
      } else {
        PartitionConflicted(unconflicted, conflicted, inputs, done, key, distinct);
        conflicted := conflicted[key := distinct];
      }
      done := done + {key};
    }
    assert done == AllSlots(inputs);
    PartitionEnds(unconflicted, conflicted, inputs);
  }

  // ---------------------------------------------------------------------------
  // auth_difference
  // ---------------------------------------------------------------------------

  /** Some listing of a map's values: the roots of a state's auth chain. */
  method ValuesOf(state: StateMap) returns (ids: seq<EventId>)
    ensures Elements(ids) == state.Values
  {
    ids := [];
    var keys := state.Keys;
    while keys != {}
      invariant keys <= state.Keys
      invariant Elements(ids) == set k | k in state.Keys - keys :: state[k]
      decreases keys
    {
      var k :| k in keys;
      keys := keys - {k};
      ElementsSnoc(ids, state[k]);
      ids := ids + [state[k]];
    }
    assert state.Keys - keys == state.Keys;
  }

  method AuthDifferenceOf(states: seq<StateMap>, pdus: Pdus) returns (difference: set<EventId>)
    ensures difference == AuthDifference(Elements(states), pdus)
  {
    hide Chain, Universe, Parents;
    var chains: seq<set<EventId>> := [];
    for i := 0 to |states|
      invariant |chains| == i && forall j | 0 <= j < i :: chains[j] == ChainOfState(states[j], pdus)
    {
      var roots := ValuesOf(states[i]);
      var chain := AuthChainOf(roots, pdus);
      chains := chains + [chain];
    }
    difference := {};
    for i := 0 to |chains|
      invariant forall id :: id in difference <==>
                  (exists j :: 0 <= j < i && id in chains[j]) && exists c :: c in chains && id !in c
    {
      difference := difference + set id | id in chains[i] && exists c :: c in chains && id !in c;
    }
    DifferenceFromChains(states, pdus, chains, difference);
  }

  lemma DifferenceFromChains(states: seq<StateMap>, pdus: Pdus, chains: seq<set<EventId>>, difference: set<EventId>)
    requires |chains| == |states| && forall j | 0 <= j < |states| :: chains[j] == ChainOfState(states[j], pdus)
    requires forall id :: id in difference <==>
               (exists j :: 0 <= j < |chains| && id in chains[j]) && exists c :: c in chains && id !in c
    ensures difference == AuthDifference(Elements(states), pdus)
  {
    hide ChainOfState;
    var inputs := Elements(states);
    forall id ensures id in difference <==> id in AuthDifference(inputs, pdus) {
      if id in difference {
        var j :| 0 <= j < |chains| && id in chains[j];
        var c :| c in chains && id !in c;
        var k :| 0 <= k < |chains| && chains[k] == c;
        assert states[j] in inputs && states[k] in inputs;
      }
      if id in AuthDifference(inputs, pdus) {
        var s :| s in inputs && id in ChainOfState(s, pdus) && !(forall t | t in inputs :: id in ChainOfState(t, pdus));
        var t :| t in inputs && id !in ChainOfState(t, pdus);
        var j :| 0 <= j < |states| && states[j] == s;
        var k :| 0 <= k < |states| && states[k] == t;
        assert id in chains[j] && chains[k] in chains && id !in chains[k];
      }
    }
  }

  // ---------------------------------------------------------------------------
  // reverse_topological_power_sort
  // ---------------------------------------------------------------------------

  /** The unplaced events whose in-set parents are all placed, in input order. */
  function ReadyList(events: seq<EventId>, parents: map<EventId, set<EventId>>, placed: set<EventId>): seq<EventId>
    requires forall e | e in events :: e in parents
  {
    if events == [] then []
    else (if events[0] !in placed && parents[events[0]] <= placed then [events[0]] else [])
         + ReadyList(events[1..], parents, placed)
  }

  function UnplacedList(events: seq<EventId>, placed: set<EventId>): seq<EventId> {
    if events == [] then []
    else (if events[0] !in placed then [events[0]] else []) + UnplacedList(events[1..], placed)
  }

  lemma {:induction false} ReadyListIsFiltered(
    events: seq<EventId>, parents: map<EventId, set<EventId>>, placed: set<EventId>)
    requires NoRepeats(events) && forall e | e in events :: e in parents
    ensures NoRepeats(ReadyList(events, parents, placed))
    ensures forall e :: e in ReadyList(events, parents, placed) <==>
              e in events && e !in placed && parents[e] <= placed
  {
    if events != [] {
      ReadyListIsFiltered(events[1..], parents, placed);
      var rest := ReadyList(events[1..], parents, placed);
      assert events[0] !in events[1..];
      assert forall e :: e in events <==> e == events[0] || e in events[1..];
    }
  }

  lemma {:induction false} UnplacedListIsFiltered(events: seq<EventId>, placed: set<EventId>)
    requires NoRepeats(events)
    ensures NoRepeats(UnplacedList(events, placed))
    ensures forall e :: e in UnplacedList(events, placed) <==> e in events && e !in placed
  {
    if events != [] {
      UnplacedListIsFiltered(events[1..], placed);
      var rest := UnplacedList(events[1..], placed);
      assert events[0] !in events[1..];
      assert forall e :: e in events <==> e == events[0] || e in events[1..];
    }
  }

  lemma {:induction false} NoRepeatsSize<T>(xs: seq<T>)
    requires NoRepeats(xs)
    ensures |Elements(xs)| == |xs|
  {
    if xs != [] {
      NoRepeatsSize(xs[1..]);
      assert xs[0] !in xs[1..];
      assert Elements(xs) == {xs[0]} + Elements(xs[1..]);
    }
  }

  /** The first of the sorted list is the least of its elements. */
  lemma SortedHead<T(!new)>(less: (T, T) -> bool, xs: seq<T>)
    requires StrictTotal(less) && NoRepeats(xs) && xs != []
    ensures Elements(xs) != {}
    ensures |SortBy(less, xs)| > 0 && SortBy(less, xs)[0] == Least(less, Elements(xs))
  {
    assert xs[0] in Elements(xs);
    SortByListsTheSet(less, xs);
  }

  /** The candidates of one round: the ready events, or all unplaced ones when none is ready. */
  method CandidatesInRound(events: seq<EventId>, parents: map<EventId, set<EventId>>, placed: set<EventId>, ghost pdus: Pdus)
    returns (ready: seq<EventId>)
    requires NoRepeats(events) && parents.Keys == Elements(events)
    requires forall e | e in parents :: parents[e] == Parents(e, pdus) * Elements(events)
    ensures NoRepeats(ready) && Elements(ready) == Choices(Elements(events) - placed, pdus)
  {
    hide NoRepeats, Ready, ReadyList, UnplacedList;
    ready := ReadyList(events, parents, placed);
    ReadyListIsReady(events, parents, placed, pdus);
    if ready == [] {
      ready := UnplacedList(events, placed);
      UnplacedListIsFiltered(events, placed);
    } else {
      assert ready[0] in Elements(ready);
    }
  }

  lemma ReadyListIsReady(events: seq<EventId>, parents: map<EventId, set<EventId>>, placed: set<EventId>, pdus: Pdus)
    requires NoRepeats(events) && parents.Keys == Elements(events)
    requires forall e | e in parents :: parents[e] == Parents(e, pdus) * Elements(events)
    ensures NoRepeats(ReadyList(events, parents, placed))
    ensures Elements(ReadyList(events, parents, placed)) == Ready(Elements(events) - placed, pdus)
  {
    hide NoRepeats, ReadyList, Parents;
    ReadyListIsFiltered(events, parents, placed);
    var remaining := Elements(events) - placed;
    forall e | e in remaining ensures parents[e] <= placed <==> Parents(e, pdus) !! remaining {
    }
  }

  /** One round: sort the candidates by key and take the first. */
  method ChooseNext(
    events: seq<EventId>, parents: map<EventId, set<EventId>>, placed: set<EventId>, base: StateMap, pdus: Pdus)
    returns (chosen: EventId)
    requires NoRepeats(events) && parents.Keys == Elements(events)
    requires forall e | e in parents :: parents[e] == Parents(e, pdus) * Elements(events)
    requires Elements(events) - placed != {}
    ensures chosen in Elements(events) - placed
    ensures PowerOrder(Elements(events) - placed, base, pdus)
         == [chosen] + PowerOrder(Elements(events) - placed - {chosen}, base, pdus)
  {
    hide NoRepeats, Choices, SortBy, Parents, KeyLess, Elements;
    ghost var remaining := Elements(events) - placed;
    PowerLessIsStrictTotal(base, pdus);
    var ready := CandidatesInRound(events, parents, placed, pdus);
    ChoicesExist(remaining, pdus);
    ListIsNonempty(ready);
    SortedHead(PowerLess(base, pdus), ready);
    chosen := SortBy(PowerLess(base, pdus), ready)[0];
    PowerOrderTurn(remaining, base, pdus);
  }

  lemma ListIsNonempty<T>(xs: seq<T>)
    ensures xs == [] ==> Elements(xs) == {}
  {
  }

  method ReverseTopologicalPowerSort(events: seq<EventId>, pdus: Pdus, base: StateMap) returns (order: seq<EventId>)
    requires NoRepeats(events)
    ensures order == PowerOrder(Elements(events), base, pdus)
  {
    hide NoRepeats, Parents, Elements, PowerOrder;
    ghost var all := Elements(events);
    var parents := map e | e in Elements(events) :: Parents(e, pdus) * Elements(events);
    NoRepeatsSize(events);
    var placed: set<EventId> := {};
    order := [];
    assert all - placed == all;
    while |order| < |events|
      invariant placed <= all && |order| + |all - placed| == |events|
      invariant order + PowerOrder(all - placed, base, pdus) == PowerOrder(all, base, pdus)
    {
      ghost var before := order;
      var chosen := ChooseNext(events, parents, placed, base, pdus);
      assert all - (placed + {chosen}) == all - placed - {chosen};
      placed := placed + {chosen};
      order := order + [chosen];
    }
    PowerOrderOfNothing(base, pdus);
    assert all - placed == {};
  }

  lemma PowerOrderOfNothing(base: StateMap, pdus: Pdus)
    ensures PowerOrder({}, base, pdus) == []
  {
  }

  lemma ChoicesExist(remaining: set<EventId>, pdus: Pdus)
    requires remaining != {}
    ensures Choices(remaining, pdus) != {} && Choices(remaining, pdus) <= remaining
  {
  }

  lemma PowerOrderTurn(remaining: set<EventId>, base: StateMap, pdus: Pdus)
    requires remaining != {} && StrictTotal(PowerLess(base, pdus)) && Choices(remaining, pdus) != {}
    ensures var next := Least(PowerLess(base, pdus), Choices(remaining, pdus));
            PowerOrder(remaining, base, pdus) == [next] + PowerOrder(remaining - {next}, base, pdus)
  {
  }

  // ---------------------------------------------------------------------------
  // mainline_sort
  // ---------------------------------------------------------------------------

  lemma {:induction false} PositionsAt(mainline: seq<EventId>)
    requires NoRepeats(mainline)
    ensures Positions(mainline).Keys == Elements(mainline)
    ensures forall j | 0 <= j < |mainline| :: Positions(mainline)[mainline[j]] == |mainline| - 1 - j
  {
    if mainline != [] {
      PositionsAt(mainline[1..]);
      assert Elements(mainline) == Elements(mainline[1..]) + {mainline[0]};
      forall j | 0 <= j < |mainline| ensures Positions(mainline)[mainline[j]] == |mainline| - 1 - j {
        if j > 0 {
          assert mainline[j] == mainline[1..][j - 1];
        }
      }
    }
  }

  /** Walks the mainline back to its root; ends because citations are acyclic. */
  method MainlineOf(powerLevels: Option<EventId>, pdus: Pdus, ghost rank: EventId -> nat)
    returns (mainline: seq<EventId>)
    requires Acyclic(pdus, rank)
    ensures mainline == Mainline(powerLevels, pdus, {}) && NoRepeats(mainline)
  {
    hide Mainline, FirstPowerLevels;
    mainline := [];
    var cursor := powerLevels;
    assert Elements(mainline) == {};
    while cursor.Some?
      invariant cursor.Some? ==> cursor.value in pdus || mainline == []
      invariant cursor.Some? ==> forall x | x in mainline :: rank(cursor.value) < rank(x)
      invariant NoRepeats(mainline)
      invariant cursor.Some? ==> cursor.value in pdus || Elements(mainline) == {}
      invariant mainline + Mainline(cursor, pdus, Elements(mainline)) == Mainline(powerLevels, pdus, {})
      decreases if cursor.Some? then rank(cursor.value) + 1 else 0
    {
      assert Elements(mainline + [cursor.value]) == Elements(mainline) + {cursor.value};
      MainlineUnfolds(cursor, pdus, Elements(mainline));
      mainline := mainline + [cursor.value];
      cursor := PowerLevelsAncestor(cursor.value, pdus);
    }
    MainlineUnfolds(cursor, pdus, Elements(mainline));
  }

  method IndexPositions(mainline: seq<EventId>) returns (positions: map<EventId, nat>)
    requires NoRepeats(mainline)
    ensures positions == Positions(mainline)
  {
    hide NoRepeats, Positions;
    var n := |mainline|;
    positions := map[];
    for i := 0 to n
      invariant positions.Keys == Elements(mainline[..i])
      invariant forall j | 0 <= j < i :: mainline[j] in positions && positions[mainline[j]] == n - 1 - j
    {
      assert Elements(mainline[..i + 1]) == Elements(mainline[..i]) + {mainline[i]};
      NoRepeatsAt(mainline, i);
      positions := positions[mainline[i] := n - 1 - i];
    }
    assert mainline[..n] == mainline;
    PositionsAt(mainline);
    forall id | id in positions ensures positions[id] == Positions(mainline)[id] {
      var j :| 0 <= j < n && mainline[j] == id;
    }
  }

  lemma NoRepeatsAt<T>(xs: seq<T>, i: nat)
    requires NoRepeats(xs) && i < |xs|
    ensures forall j | 0 <= j < i :: xs[j] != xs[i]
  {
  }

  /** The depth closure: at most 10,001 lookups along the power-levels ancestry. */
  method DepthOf(start: EventId, positions: map<EventId, nat>, pdus: Pdus) returns (depth: nat)
    ensures depth == MainlineDepth(start, positions, pdus, DEPTH_HOPS + 1)
  {
    var cursor := Some(start);
    var guard := 0;
    while cursor.Some?
      invariant 0 <= guard <= DEPTH_HOPS
      invariant MainlineDepth(start, positions, pdus, DEPTH_HOPS + 1)
             == if cursor.Some? then MainlineDepth(cursor.value, positions, pdus, DEPTH_HOPS + 1 - guard) else 0
      decreases DEPTH_HOPS - guard
    {
      if cursor.value in positions {
        return positions[cursor.value];
      }
      cursor := PowerLevelsAncestor(cursor.value, pdus);
      guard := guard + 1;
      if guard > DEPTH_HOPS {
        break;
      }
    }
    depth := 0;
  }

  method MainlineSort(events: seq<EventId>, powerLevels: Option<EventId>, pdus: Pdus, ghost rank: EventId -> nat)
    returns (sorted: seq<EventId>)
    requires NoRepeats(events) && Acyclic(pdus, rank)
    ensures sorted == MainlineOrder(Elements(events), powerLevels, pdus)
  {
    var mainline := MainlineOf(powerLevels, pdus, rank);
    var positions := IndexPositions(mainline);
    MainlineLessIsStrictTotal(positions, pdus);
    sorted := SortBy(MainlineLess(positions, pdus), events);
    SortByListsTheSet(MainlineLess(positions, pdus), events);
  }

  // ---------------------------------------------------------------------------
  // try_apply and resolve
  // ---------------------------------------------------------------------------

  method TryApply(resolved: StateMap, id: EventId, pdus: Pdus, sig: SigCheck) returns (r: StateMap)
    ensures r == Apply(resolved, id, pdus, sig)
  {
    r := resolved;
    if id !in pdus {
      return;
    }
    var event := pdus[id];
    var slot := SlotOf(event);
    if slot == None {
      return;
    }
    var context := Context(resolved, slot.value, pdus);
    if CheckAuth(event, context, sig).Ok? {
      r := r[slot.value := id];
    }
  }

  method ApplyEach(resolved: StateMap, ids: seq<EventId>, pdus: Pdus, sig: SigCheck) returns (r: StateMap)
    ensures r == ApplyAll(resolved, ids, pdus, sig)
  {
    hide Apply;
    r := resolved;
    for i := 0 to |ids|
      invariant r == ApplyAll(resolved, ids[..i], pdus, sig)
    {
      assert ids[..i + 1][..i] == ids[..i];
      r := TryApply(r, ids[i], pdus, sig);
    }
    assert ids[..|ids|] == ids;
  }

  /** Splits a hash set, iterated in any order, into power events and the rest. */
  method Partition(full: set<EventId>, pdus: Pdus) returns (power: seq<EventId>, other: seq<EventId>)
    ensures NoRepeats(power) && Elements(power) == PowerEvents(full, pdus)
    ensures NoRepeats(other) && Elements(other) == full - PowerEvents(full, pdus)
  {
    power := [];
    other := [];
    var left := full;
    while left != {}
      invariant left <= full
      invariant NoRepeats(power) && Elements(power) == PowerEvents(full, pdus) - left
      invariant NoRepeats(other) && Elements(other) == full - left - PowerEvents(full, pdus)
      decreases left
    {
      var id :| id in left;
      left := left - {id};
      assert id !in Elements(power) && id !in Elements(other);
      if id in pdus && IsPowerEvent(pdus[id]) {
        assert Elements(power + [id]) == Elements(power) + {id};
        power := power + [id];
      } else {
        assert Elements(other + [id]) == Elements(other) + {id};
        other := other + [id];
      }
    }
  }

  lemma CandidatesOf(conflicted: Conflicts, states: set<StateMap>)
    requires Lists(conflicted, states, ConflictedSlots(states))
    ensures (set k, id | k in conflicted && id in conflicted[k] :: id) == Candidates(states)
  {
    hide ConflictedSlots, NoRepeats, Proposed;
    forall k, id | k in conflicted ensures id in conflicted[k] <==> id in Proposed(states, k) {
      assert id in conflicted[k] <==> id in Elements(conflicted[k]);
    }
  }

  /**
   resolve: the result is a function of the set of input maps and the known events. Listing the
   inputs in another order or more than once, and the order hash sets iterate in, change nothing.
   */
  method ResolveStates(states: seq<StateMap>, pdus: Pdus, sig: SigCheck, ghost rank: EventId -> nat)
    returns (resolved: StateMap)
    requires Acyclic(pdus, rank)
    ensures resolved == Resolve(Elements(states), pdus, sig)
  {
    hide Elements, NoRepeats, ConflictedSlots, Unconflicted, AuthDifference, Candidates, PowerEvents,
         PowerOrder, MainlineOrder, Acyclic, ApplyAll;
    ghost var inputs := Elements(states);
    var unconflicted, conflicted := Separate(states);
    if conflicted == map[] {
      assert conflicted.Keys == {};
      return unconflicted;
    }
    assert ConflictedSlots(inputs) != {} by {
      var k :| k in conflicted;
    }
    CandidatesOf(conflicted, inputs);
    var full := set k, id | k in conflicted && id in conflicted[k] :: id;
    var difference := AuthDifferenceOf(states, pdus);
    full := full + difference;
    var power, other := Partition(full, pdus);
    var powerOrder := ReverseTopologicalPowerSort(power, pdus, unconflicted);
    resolved := ApplyEach(unconflicted, powerOrder, pdus, sig);
    var mainlineOrder := MainlineSort(other, ResolvedPowerLevels(resolved), pdus, rank);
    resolved := ApplyEach(resolved, mainlineOrder, pdus, sig);
    resolved := resolved + unconflicted;
  }
}
