/**
 State resolution: the specification of `resolve` on the *set* of input state maps, and the
 methods that compute it from a list.
 */
module StateRes {
  import opened Orders
  import opened Json
  import opened Events
  import opened Auth
  import opened AuthChain

  type StateMap = map<Slot, EventId>

  // ---------------------------------------------------------------------------
  // Agreed and conflicted slots
  // ---------------------------------------------------------------------------

  /** Every input fills `slot`, all with `id`. */
  predicate Agreed(states: set<StateMap>, slot: Slot, id: EventId) {
    states != {} && forall s | s in states :: slot in s && s[slot] == id
  }

  function AllSlots(states: set<StateMap>): set<Slot> {
    set s, k | s in states && k in s :: k
  }

  /** The distinct events proposed for `slot`. */
  function Proposed(states: set<StateMap>, slot: Slot): set<EventId> {
    set s | s in states && slot in s :: s[slot]
  }

  function AgreedSlots(states: set<StateMap>): set<Slot> {
    set s, k | s in states && k in s && Agreed(states, k, s[k]) :: k
  }

  ghost function AgreedEvent(states: set<StateMap>, slot: Slot): EventId
    requires slot in AgreedSlots(states)
  {
    var id :| Agreed(states, slot, id);
    id
  }

  ghost function Unconflicted(states: set<StateMap>): StateMap {
    map k | k in AgreedSlots(states) :: AgreedEvent(states, k)
  }

  function ConflictedSlots(states: set<StateMap>): set<Slot> {
    AllSlots(states) - AgreedSlots(states)
  }

  /** The candidates: every event proposed for a conflicted slot. */
  function Candidates(states: set<StateMap>): set<EventId> {
    set k, id | k in ConflictedSlots(states) && id in Proposed(states, k) :: id
  }

  // ---------------------------------------------------------------------------
  // The full conflicted set
  // ---------------------------------------------------------------------------

  ghost function ChainOfState(state: StateMap, pdus: Pdus): set<EventId> {
    Chain(state.Values, pdus)
  }

  /** Events on the auth chain of some input but not of every input. */
  ghost function AuthDifference(states: set<StateMap>, pdus: Pdus): set<EventId> {
    set s, id | s in states && id in ChainOfState(s, pdus)
             && !(forall t | t in states :: id in ChainOfState(t, pdus)) :: id
  }

  ghost function FullConflicted(states: set<StateMap>, pdus: Pdus): set<EventId> {
    Candidates(states) + AuthDifference(states, pdus)
  }

  predicate IsPowerEvent(event: Pdu) {
    if event.kind == ROOM_CREATE || event.kind == ROOM_POWER_LEVELS || event.kind == ROOM_JOIN_RULES then true
    else if event.kind == ROOM_MEMBER then
      var membership := MembershipOf(event);
      membership == Some("ban") || (membership == Some("leave") && event.stateKey != Some(event.sender))
    else false
  }

  function PowerEvents(ids: set<EventId>, pdus: Pdus): set<EventId> {
    set id | id in ids && id in pdus && IsPowerEvent(pdus[id])
  }

  // ---------------------------------------------------------------------------
  // Reverse-topological power order
  // ---------------------------------------------------------------------------

  function EventIn(base: StateMap, kind: string, pdus: Pdus): Option<Pdu> {
    var slot := Slot(kind, "");
    if slot in base && base[slot] in pdus then Some(pdus[base[slot]]) else None
  }

  function SenderPower(sender: string, base: StateMap, pdus: Pdus): int {
    var pl := match EventIn(base, ROOM_POWER_LEVELS, pdus) case Some(e) => Content(e) case None => None;
    match pl
    case Some(content) => UserLevel(content, sender)
    case None =>
      var creator := match EventIn(base, ROOM_CREATE, pdus) case Some(e) => CreatorOf(e) case None => None;
      if creator == Some(sender) then CREATOR_POWER else 0
  }

  /** Highest power first, then earliest, then smallest id. */
  function PowerKey(id: EventId, base: StateMap, pdus: Pdus): SortKey {
    var (ts, sender) := if id in pdus then (pdus[id].originServerTs, pdus[id].sender) else (0, "");
    SortKey(-SenderPower(sender, base, pdus), ts, id)
  }

  function PowerLess(base: StateMap, pdus: Pdus): (EventId, EventId) -> bool {
    (a: EventId, b: EventId) => KeyLess(PowerKey(a, base, pdus), PowerKey(b, base, pdus))
  }

  /** The remaining events none of whose citations remain. */
  function Ready(remaining: set<EventId>, pdus: Pdus): set<EventId> {
    set id | id in remaining && Parents(id, pdus) !! remaining
  }

  /** The ready events, or on a citation cycle all that remain. */
  function Choices(remaining: set<EventId>, pdus: Pdus): set<EventId> {
    if Ready(remaining, pdus) == {} then remaining else Ready(remaining, pdus)
  }

  function PowerOrder(remaining: set<EventId>, base: StateMap, pdus: Pdus): seq<EventId>
    decreases |remaining|
  {
    if remaining == {} then []
    else
      PowerLessIsStrictTotal(base, pdus);
      var next := Least(PowerLess(base, pdus), Choices(remaining, pdus));
      [next] + PowerOrder(remaining - {next}, base, pdus)
  }

  lemma KeyLessIsStrictTotal(a: SortKey, b: SortKey, c: SortKey)
    ensures KeyLess(a, b) && KeyLess(b, c) ==> KeyLess(a, c)
    ensures KeyLess(a, b) || KeyLess(b, a) || a == b
    ensures !(KeyLess(a, b) && KeyLess(b, a))
  {
    StrLessTotal(a.third, b.third);
    if StrLess(a.third, b.third) && StrLess(b.third, c.third) {
      StrLessTransitive(a.third, b.third, c.third);
    }
  }

  lemma PowerLessIsStrictTotal(base: StateMap, pdus: Pdus)
    ensures StrictTotal(PowerLess(base, pdus))
  {
    forall a: EventId, b: EventId, c: EventId
      ensures
        var less := PowerLess(base, pdus);
        && (less(a, b) && less(b, c) ==> less(a, c))
        && (less(a, b) || less(b, a) || a == b)
        && !(less(a, b) && less(b, a))
    {
      KeyLessIsStrictTotal(PowerKey(a, base, pdus), PowerKey(b, base, pdus), PowerKey(c, base, pdus));
    }
  }

  // ---------------------------------------------------------------------------
  // Mainline order
  // ---------------------------------------------------------------------------

  predicate IsPowerLevels(id: EventId, pdus: Pdus) {
    id in pdus && pdus[id].kind == ROOM_POWER_LEVELS
  }

  function FirstPowerLevels(ids: seq<EventId>, pdus: Pdus): (r: Option<EventId>)
    ensures r.Some? ==> r.value in ids && IsPowerLevels(r.value, pdus)
  {
    if ids == [] then None
    else if IsPowerLevels(ids[0], pdus) then Some(ids[0])
    else FirstPowerLevels(ids[1..], pdus)
  }

  /** The power-levels event `id` cites first. */
  function PowerLevelsAncestor(id: EventId, pdus: Pdus): (r: Option<EventId>)
    ensures r.Some? ==> r.value in Parents(id, pdus) && r.value in pdus
  {
    if id in pdus then FirstPowerLevels(pdus[id].authEvents, pdus) else None
  }

  /** The chain of power-levels events from `cursor` back; `seen` only bounds it on a cyclic map. */
  function Mainline(cursor: Option<EventId>, pdus: Pdus, seen: set<EventId>): seq<EventId>
    requires cursor.Some? ==> cursor.value in pdus || seen == {}
    decreases |pdus.Keys - seen| + if seen == {} then 1 else 0
  {
    match cursor
    case None => []
    case Some(id) =>
      if id in seen then []
      else
        assert seen != {} ==> pdus.Keys - (seen + {id}) < pdus.Keys - seen;
        MainlineShrinks(id, pdus, seen);
        [id] + Mainline(PowerLevelsAncestor(id, pdus), pdus, seen + {id})
  }

  lemma MainlineShrinks(id: EventId, pdus: Pdus, seen: set<EventId>)
    requires id !in seen && (id in pdus || seen == {})
    ensures |pdus.Keys - (seen + {id})| < |pdus.Keys - seen| + if seen == {} then 1 else 0
  {
    if id in pdus {
      assert pdus.Keys - seen == (pdus.Keys - (seen + {id})) + {id};
    } else {
      assert pdus.Keys - (seen + {id}) == pdus.Keys - seen;
    }
  }

  lemma MainlineUnfolds(cursor: Option<EventId>, pdus: Pdus, seen: set<EventId>)
    requires cursor.Some? ==> cursor.value in pdus || seen == {}
    ensures Mainline(cursor, pdus, seen)
         == if cursor == None || cursor.value in seen then []
            else [cursor.value] + Mainline(PowerLevelsAncestor(cursor.value, pdus), pdus, seen + {cursor.value})
  {
  }

  /** Distance from the root of the mainline: the newest entry is the deepest. */
  function Positions(mainline: seq<EventId>): map<EventId, nat> {
    if mainline == [] then map[]
    else Positions(mainline[1..])[mainline[0] := |mainline| - 1]
  }

  const DEPTH_HOPS: nat := 10_000

  /** The position of the nearest mainline event in the power-levels ancestry, within `fuel` lookups. */
  function MainlineDepth(id: EventId, positions: map<EventId, nat>, pdus: Pdus, fuel: nat): nat
    decreases fuel
  {
    if fuel == 0 then 0
    else if id in positions then positions[id]
    else
      match PowerLevelsAncestor(id, pdus)
      case Some(a) => MainlineDepth(a, positions, pdus, fuel - 1)
      case None => 0
  }

  function TimestampOf(id: EventId, pdus: Pdus): nat {
    if id in pdus then pdus[id].originServerTs else 0
  }

  function MainlineKey(id: EventId, positions: map<EventId, nat>, pdus: Pdus): SortKey {
    SortKey(MainlineDepth(id, positions, pdus, DEPTH_HOPS + 1), TimestampOf(id, pdus), id)
  }

  function MainlineLess(positions: map<EventId, nat>, pdus: Pdus): (EventId, EventId) -> bool {
    (a: EventId, b: EventId) => KeyLess(MainlineKey(a, positions, pdus), MainlineKey(b, positions, pdus))
  }

  lemma MainlineLessIsStrictTotal(positions: map<EventId, nat>, pdus: Pdus)
    ensures StrictTotal(MainlineLess(positions, pdus))
  {
    forall a: EventId, b: EventId, c: EventId
      ensures
        var less := MainlineLess(positions, pdus);
        && (less(a, b) && less(b, c) ==> less(a, c))
        && (less(a, b) || less(b, a) || a == b)
        && !(less(a, b) && less(b, a))
    {
      KeyLessIsStrictTotal(
        MainlineKey(a, positions, pdus), MainlineKey(b, positions, pdus), MainlineKey(c, positions, pdus));
    }
  }

  function MainlineOrder(ids: set<EventId>, powerLevels: Option<EventId>, pdus: Pdus): seq<EventId> {
    var positions := Positions(Mainline(powerLevels, pdus, {}));
    MainlineLessIsStrictTotal(positions, pdus);
    Ascending(MainlineLess(positions, pdus), ids)
  }

  // ---------------------------------------------------------------------------
  // Iterative authorization
  // ---------------------------------------------------------------------------

  /** The known events of `state`, slot by slot, leaving `slot` out. */
  function Context(state: StateMap, slot: Slot, pdus: Pdus): seq<Pdu> {
    SlotLessIsStrictTotal();
    KnownEvents(Ascending(SlotLess, state.Keys - {slot}), state, pdus)
  }

  function KnownEvents(slots: seq<Slot>, state: StateMap, pdus: Pdus): seq<Pdu> {
    if slots == [] then []
    else (if slots[0] in state && state[slots[0]] in pdus then [pdus[state[slots[0]]]] else [])
         + KnownEvents(slots[1..], state, pdus)
  }

  /** `id` is a known state event for `slot` that the state, without that slot, authorizes. */
  predicate Takes(state: StateMap, id: EventId, slot: Slot, pdus: Pdus, sig: SigCheck) {
    && id in pdus
    && SlotOf(pdus[id]) == Some(slot)
    && CheckAuth(pdus[id], Context(state, slot, pdus), sig).Ok?
  }

  function Apply(state: StateMap, id: EventId, pdus: Pdus, sig: SigCheck): StateMap {
    if id !in pdus then state
    else
      match SlotOf(pdus[id])
      case None => state
      case Some(slot) => if Takes(state, id, slot, pdus, sig) then state[slot := id] else state
  }

  function ApplyAll(state: StateMap, ids: seq<EventId>, pdus: Pdus, sig: SigCheck): StateMap {
    if ids == [] then state
    else Apply(ApplyAll(state, ids[..|ids| - 1], pdus, sig), ids[|ids| - 1], pdus, sig)
  }

  // ---------------------------------------------------------------------------
  // Resolution
  // ---------------------------------------------------------------------------

  /** The power events of the full conflicted set, in power order. */
  ghost function PowerPart(states: set<StateMap>, pdus: Pdus): seq<EventId> {
    PowerOrder(PowerEvents(FullConflicted(states, pdus), pdus), Unconflicted(states), pdus)
  }

  function ResolvedPowerLevels(state: StateMap): Option<EventId> {
    var slot := Slot(ROOM_POWER_LEVELS, "");
    if slot in state then Some(state[slot]) else None
  }

  /** The others, in the mainline order of the power levels the power events settled on. */
  ghost function MainlinePart(states: set<StateMap>, pdus: Pdus, sig: SigCheck): seq<EventId> {
    var full := FullConflicted(states, pdus);
    var settled := ApplyAll(Unconflicted(states), PowerPart(states, pdus), pdus, sig);
    MainlineOrder(full - PowerEvents(full, pdus), ResolvedPowerLevels(settled), pdus)
  }

  ghost function Resolve(states: set<StateMap>, pdus: Pdus, sig: SigCheck): StateMap {
    var unconflicted := Unconflicted(states);
    if ConflictedSlots(states) == {} then unconflicted
    else
      var settled := ApplyAll(unconflicted, PowerPart(states, pdus), pdus, sig);
      ApplyAll(settled, MainlinePart(states, pdus, sig), pdus, sig) + unconflicted
  }

  /** No event cites, through any chain of citations, itself. */
  ghost predicate Acyclic(pdus: Pdus, rank: EventId -> nat) {
    forall id, a | id in pdus && a in pdus[id].authEvents :: rank(a) < rank(id)
  }
}
