/**
 A room as create_room opens it: its events pass the rules one after the other, so the laws of
 authorized histories and of racing sends hold of every such room without further assumption.
 */
module CreatedRoom {
  import Audit
  import opened Auth
  import opened Events
  import opened InviteChain
  import opened Json
  import opened JsonRoundTrip
  import opened Orders
  import RoomStore
  import opened RoomTransactions
  import opened RoomWriters
  import opened Text

  const ROOM_MESSAGE := "m.room.message"
  const ROOM_NAME := "m.room.name"
  const ROOM_TOPIC := "m.room.topic"

  function CreateContent(creator: string): Json {
    Object([Member("creator", Str(creator)), Member("room_version", Str("12"))])
  }

  function JoinContent(): Json {
    Object([Member("membership", Str("join"))])
  }

  function PowerContent(creator: string): Json {
    Object([Member("users", Object([Member(creator, Number(100))])), Member("users_default", Number(0))])
  }

  /** The readings of the clock, one for each event. */
  type Clock = nat -> nat

  /** The create event, the creator's join, the power levels. */
  function BaseState(creator: string, clock: Clock): seq<NewState> {
    [NewState(ROOM_CREATE, "", Print(CreateContent(creator)), clock(0)),
     NewState(ROOM_MEMBER, creator, Print(JoinContent()), clock(1)),
     NewState(ROOM_POWER_LEVELS, "", Print(PowerContent(creator)), clock(2))]
  }

  datatype Labels = Labels(name: Option<string>, topic: Option<string>)

  /** The optional name, then the optional topic. */
  function LabelState(labels: Labels, clock: Clock): seq<NewState> {
    (match labels.name
     case Some(name) => [NewState(ROOM_NAME, "", SingleField("name", name), clock(3))]
     case None => []) +
    (match labels.topic
     case Some(topic) => [NewState(ROOM_TOPIC, "", SingleField("topic", topic), clock(if labels.name.Some? then 4 else 3))]
     case None => [])
  }

  function InitialState(creator: string, labels: Labels, clock: Clock): seq<NewState> {
    BaseState(creator, clock) + LabelState(labels, clock)
  }

  lemma KindOrder()
    ensures StrLess(ROOM_CREATE, ROOM_MEMBER) && StrLess(ROOM_MEMBER, ROOM_POWER_LEVELS) && StrLess(ROOM_CREATE, ROOM_POWER_LEVELS)
  {
    assert ROOM_CREATE == "m.room." + "create" && ROOM_MEMBER == "m.room." + "member" && ROOM_POWER_LEVELS == "m.room." + "power_levels";
    StrLessTotal("m.room.", "m.room.");
    StrLessOnSplit("m.room.", "m.room.", "create", "member");
    StrLessOnSplit("m.room.", "m.room.", "member", "power_levels");
    StrLessOnSplit("m.room.", "m.room.", "create", "power_levels");
  }

  lemma ContentsReadBack(creator: string)
    ensures Parse(Print(CreateContent(creator))) == Ok(CreateContent(creator))
    ensures Parse(Print(JoinContent())) == Ok(JoinContent())
    ensures Parse(Print(PowerContent(creator))) == Ok(PowerContent(creator))
  {
    hide Print, Parse;
    FlatContents(creator);
    ParsePrint(CreateContent(creator));
    ParsePrint(JoinContent());
    ParsePrint(PowerContent(creator));
  }

  lemma TwoMembers(a: string, x: Json, b: string, y: Json)
    requires WellFormed(x) && WellFormed(y) && StrLess(a, b)
    ensures WellFormed(Object([Member(a, x), Member(b, y)]))
    ensures Height(Object([Member(a, x), Member(b, y)])) == 1 + Max(Height(x), Height(y))
  {
    hide StrLess;
    var members := [Member(a, x), Member(b, y)];
    assert MembersHeight(members, 2) == 0;
    assert MembersHeight(members, 1) == Max(MemberHeight(members[1]), MembersHeight(members, 2));
    assert MembersHeight(members, 0) == Max(MemberHeight(members[0]), MembersHeight(members, 1));
    assert forall m | m in members :: m == members[0] || m == members[1];
  }

  lemma FlatContents(creator: string)
    ensures WellFormed(CreateContent(creator)) && Height(CreateContent(creator)) <= 2
    ensures WellFormed(JoinContent()) && Height(JoinContent()) <= 2
    ensures WellFormed(PowerContent(creator)) && Height(PowerContent(creator)) <= 2
  {
    assert "users_default" == "users" + "_default" && "users" == "users" + "";
    StrLessTotal("users", "users");
    StrLessOnSplit("users", "users", "", "_default");
    TwoMembers("creator", Str(creator), "room_version", Str("12"));
    OneMember("membership", Str("join"));
    OneMember(creator, Number(100));
    TwoMembers("users", Object([Member(creator, Number(100))]), "users_default", Number(0));
  }

  // ---------------------------------------------------------------------------
  // State events in slot order are their own state
  // ---------------------------------------------------------------------------

  function OwnSlots(events: seq<Pdu>): seq<Slot>
    requires forall p | p in events :: SlotOf(p).Some?
  {
    if events == [] then [] else OwnSlots(events[..|events| - 1]) + [SlotOf(events[|events| - 1]).value]
  }

  /** State events in strictly ascending slot order. */
  ghost predicate InSlotOrder(events: seq<Pdu>) {
    && (forall p | p in events :: SlotOf(p).Some?)
    && IsAscending(SlotLess, OwnSlots(events))
  }

  lemma {:induction false} OwnSlotsAre(events: seq<Pdu>)
    requires forall p | p in events :: SlotOf(p).Some?
    ensures |OwnSlots(events)| == |events|
    ensures forall i | 0 <= i < |events| :: OwnSlots(events)[i] == SlotOf(events[i]).value
  {
    hide SlotOf;
    if events != [] {
      OwnSlotsAre(events[..|events| - 1]);
    }
  }

  lemma SlotsDiffer(events: seq<Pdu>, i: nat, j: nat)
    requires InSlotOrder(events) && i < j < |events|
    ensures SlotOf(events[i]).value != SlotOf(events[j]).value
  {
    hide SlotLess;
    OwnSlotsAre(events);
    SlotLessIsStrictTotal();
    assert SlotLess(OwnSlots(events)[i], OwnSlots(events)[j]);
  }

  ghost predicate HoldsAll(state: RoomState, events: seq<Pdu>)
    requires forall p | p in events :: SlotOf(p).Some?
  {
    && (forall slot :: slot in state <==> slot in OwnSlots(events))
    && (forall i | 0 <= i < |events| :: SlotOf(events[i]).value in state && state[SlotOf(events[i]).value] == events[i])
  }

  lemma FrontInOrder(events: seq<Pdu>, n: nat)
    requires InSlotOrder(events) && n <= |events|
    ensures InSlotOrder(events[..n])
  {
    hide SlotLess, SlotOf;
    OwnSlotsAre(events);
    OwnSlotsAre(events[..n]);
  }

  lemma HoldsOneMore(state: RoomState, events: seq<Pdu>)
    requires InSlotOrder(events) && events != [] && HoldsAll(state, events[..|events| - 1])
    ensures HoldsAll(AfterEvent(state, events[|events| - 1]), events)
  {
    hide SlotLess, IsAscending;
    var n := |events| - 1;
    var init := events[..n];
    forall i | 0 <= i < n ensures SlotOf(init[i]).value != SlotOf(events[n]).value {
      SlotsDiffer(events, i, n);
    }
    assert events[n] in events;
  }

  lemma {:induction false} OwnState(events: seq<Pdu>)
    requires InSlotOrder(events)
    ensures HoldsAll(StateAfter(events), events)
  {
    hide SlotLess, IsAscending, SlotOf, AfterEvent;
    if events != [] {
      FrontInOrder(events, |events| - 1);
      OwnState(events[..|events| - 1]);
      HoldsOneMore(StateAfter(events[..|events| - 1]), events);
    }
  }

  lemma {:induction false} EventsAtSlots(slots: seq<Slot>, state: RoomState, events: seq<Pdu>)
    requires |slots| == |events| && forall i | 0 <= i < |slots| :: slots[i] in state && state[slots[i]] == events[i]
    ensures EventsAt(slots, state) == events
  {
    if slots != [] {
      EventsAtSlots(slots[1..], state, events[1..]);
    }
  }

  lemma SlotOrderIsState(events: seq<Pdu>)
    requires InSlotOrder(events)
    ensures StateEvents(StateAfter(events)) == events
  {
    hide SlotLess, StateAfter, EventsAt, SlotOf;
    OwnSlotsAre(events);
    OwnState(events);
    SlotLessIsStrictTotal();
    var state := StateAfter(events);
    AscendingIsUnique(SlotLess, state.Keys, OwnSlots(events));
    forall i | 0 <= i < |events| ensures OwnSlots(events)[i] in state && state[OwnSlots(events)[i]] == events[i] {
      assert OwnSlots(events)[i] == SlotOf(events[i]).value;
    }
    EventsAtSlots(OwnSlots(events), state, events);
  }

  // ---------------------------------------------------------------------------
  // State events the view does not look at
  // ---------------------------------------------------------------------------

  predicate Inert(kind: string) {
    kind !in {ROOM_CREATE, ROOM_MEMBER, ROOM_POWER_LEVELS, ROOM_JOIN_RULES, ROOM_THIRD_PARTY_INVITE}
  }

  function Seen(slots: seq<Slot>): seq<Slot> {
    if slots == [] then []
    else if Inert(slots[0].kind) then Seen(slots[1..])
    else [slots[0]] + Seen(slots[1..])
  }

  lemma {:induction false} SeenIs(slots: seq<Slot>)
    requires IsAscending(SlotLess, slots)
    ensures forall slot :: slot in Seen(slots) <==> slot in slots && !Inert(slot.kind)
    ensures IsAscending(SlotLess, Seen(slots))
  {
    hide SlotLess, Inert;
    if slots != [] {
      SeenIs(slots[1..]);
      assert forall slot :: slot in slots <==> slot == slots[0] || slot in slots[1..];
      var rest := Seen(slots[1..]);
      forall j | 0 <= j < |rest| ensures SlotLess(slots[0], rest[j]) {
        assert rest[j] in rest;
        var k :| 0 <= k < |slots[1..]| && slots[1..][k] == rest[j];
        assert slots[k + 1] == rest[j];
      }
    }
  }

  /** The view of events in turn, from a view already built. */
  function ViewFrom(view: AuthView, events: seq<Pdu>): AuthView
    decreases |events|
  {
    if events == [] then view else ViewFrom(Observe(view, events[0]), events[1..])
  }

  lemma {:induction false} ViewFromSnoc(view: AuthView, events: seq<Pdu>, p: Pdu)
    ensures ViewFrom(view, events + [p]) == Observe(ViewFrom(view, events), p)
    decreases |events|
  {
    hide Observe;
    if events == [] {
      assert [p][1..] == [];
      assert events + [p] == [p];
    } else {
      assert (events + [p])[1..] == events[1..] + [p];
      ViewFromSnoc(Observe(view, events[0]), events[1..], p);
    }
  }

  lemma {:induction false} ViewOfIs(events: seq<Pdu>)
    ensures ViewOf(events) == ViewFrom(EMPTY_VIEW, events)
  {
    hide Observe;
    if events != [] {
      ViewOfIs(events[..|events| - 1]);
      ViewFromSnoc(EMPTY_VIEW, events[..|events| - 1], events[|events| - 1]);
      assert events == events[..|events| - 1] + [events[|events| - 1]];
    }
  }

  lemma InertUnseen(view: AuthView, p: Pdu)
    requires Inert(p.kind)
    ensures Observe(view, p) == view
  {
  }

  lemma {:induction false} ViewOfSeen(view: AuthView, slots: seq<Slot>, state: RoomState)
    requires Coherent(state) && forall slot | slot in slots :: slot in state
    ensures ViewFrom(view, EventsAt(slots, state)) == ViewFrom(view, EventsAt(Seen(slots), state))
    decreases |slots|
  {
    hide Observe, Inert;
    if slots != [] {
      var p := state[slots[0]];
      assert SlotOf(p) == Some(slots[0]);
      if Inert(slots[0].kind) {
        InertUnseen(view, p);
        ViewOfSeen(view, slots[1..], state);
        assert EventsAt(slots, state) == [p] + EventsAt(slots[1..], state);
      } else {
        ViewOfSeen(Observe(view, p), slots[1..], state);
        var seen := Seen(slots[1..]);
        assert ([slots[0]] + seen)[1..] == seen;
        assert EventsAt(slots, state) == [p] + EventsAt(slots[1..], state);
        assert EventsAt([slots[0]] + seen, state) == [p] + EventsAt(seen, state);
      }
    }
  }

  lemma {:induction false} SameEventsAt(slots: seq<Slot>, a: RoomState, b: RoomState)
    requires forall slot | slot in slots :: slot in a && slot in b && a[slot] == b[slot]
    ensures EventsAt(slots, a) == EventsAt(slots, b)
  {
    if slots != [] {
      SameEventsAt(slots[1..], a, b);
    }
  }

  function SeenKeys(state: RoomState): set<Slot> {
    set slot | slot in state.Keys && !Inert(slot.kind)
  }

  /** The view of a state is that of its events the view looks at, in slot order. */
  lemma SeenView(state: RoomState)
    requires Coherent(state) && StrictTotal(SlotLess)
    ensures ViewOf(StateEvents(state)) == ViewFrom(EMPTY_VIEW, EventsAt(Ascending(SlotLess, SeenKeys(state)), state))
  {
    hide SlotLess, Inert, EventsAt, ViewFrom, Seen, ViewOf, StrictTotal;
    var slots := Ascending(SlotLess, state.Keys);
    AscendingIsSorted(SlotLess, state.Keys);
    SeenIs(slots);
    AscendingIsUnique(SlotLess, SeenKeys(state), Seen(slots));
    ViewOfIs(StateEvents(state));
    ViewOfSeen(EMPTY_VIEW, slots, state);
  }

  /** An inert state event leaves the view of the state as it was. */
  lemma InertKeepsView(state: RoomState, p: Pdu)
    requires Coherent(state) && SlotOf(p).Some? && Inert(p.kind)
    ensures ViewOf(StateEvents(AfterEvent(state, p))) == ViewOf(StateEvents(state))
  {
    hide SlotLess, Inert, EventsAt, ViewFrom, ViewOf, StateEvents, StrictTotal;
    var state' := AfterEvent(state, p);
    SlotLessIsStrictTotal();
    SeenView(state);
    SeenView(state');
    assert SeenKeys(state') == SeenKeys(state);
    AscendingIsSorted(SlotLess, SeenKeys(state));
    SameEventsAt(Ascending(SlotLess, SeenKeys(state)), state, state');
  }

  // ---------------------------------------------------------------------------
  // The room's opening events, and what the rules make of them
  // ---------------------------------------------------------------------------

  function Opening(hash: RefHash, room: string, creator: string, labels: Labels, clock: Clock): seq<Pdu> {
    Created(hash, room, creator, InitialState(creator, labels, clock))
  }

  predicate IsLabel(p: Pdu, creator: string) {
    p.sender == creator && p.stateKey.Some? && (p.kind == ROOM_NAME || p.kind == ROOM_TOPIC)
  }

  lemma OpeningEvents(hash: RefHash, room: string, creator: string, labels: Labels, clock: Clock)
    ensures var first := Opening(hash, room, creator, labels, clock);
      && |first| >= 3 && Linear(first)
      && IsInitial(first[0], room, creator, NewState(ROOM_CREATE, "", Print(CreateContent(creator)), clock(0)))
      && IsInitial(first[1], room, creator, NewState(ROOM_MEMBER, creator, Print(JoinContent()), clock(1)))
      && IsInitial(first[2], room, creator, NewState(ROOM_POWER_LEVELS, "", Print(PowerContent(creator)), clock(2)))
      && forall i | 3 <= i < |first| :: IsLabel(first[i], creator)
  {
    hide Print, Linear, Created;
    var initial := InitialState(creator, labels, clock);
    CreatedIs(hash, room, creator, initial);
    var first := Opening(hash, room, creator, labels, clock);
    forall i | 3 <= i < |first| ensures IsLabel(first[i], creator) {
      assert IsInitial(first[i], room, creator, initial[i]);
      assert initial[i] == LabelState(labels, clock)[i - 3];
    }
  }

  /** The first three are in slot order, and so is every part of them. */
  lemma OpeningIsOrdered(hash: RefHash, room: string, creator: string, labels: Labels, clock: Clock, n: nat)
    requires n <= 3 <= |Opening(hash, room, creator, labels, clock)|
    ensures InSlotOrder(Opening(hash, room, creator, labels, clock)[..n])
  {
    hide Print, Linear, StrLess, Opening;
    var first := Opening(hash, room, creator, labels, clock);
    OpeningEvents(hash, room, creator, labels, clock);
    KindOrder();
    forall p | p in first[..n] ensures SlotOf(p).Some? {
      assert p == first[0] || p == first[1] || p == first[2];
    }
    OwnSlotsAre(first[..n]);
  }

  /** The view of the opening events, as far as they have been written. */
  function ViewSoFar(first: seq<Pdu>, creator: string, n: nat): AuthView
    requires |first| >= 3
  {
    AuthView(
      if n > 0 then Some(first[0]) else None,
      if n > 2 then Some(PowerContent(creator)) else None,
      None,
      if n > 1 then [(creator, "join")] else [],
      [])
  }

  lemma {:induction false} OpeningView(hash: RefHash, room: string, creator: string, labels: Labels, clock: Clock, n: nat)
    requires n <= |Opening(hash, room, creator, labels, clock)| && |Opening(hash, room, creator, labels, clock)| >= 3
    ensures var first := Opening(hash, room, creator, labels, clock);
      ViewAt(first[..n]) == ViewSoFar(first, creator, n)
    decreases n
  {
    hide Print, Parse, Opening, Linear, StateEvents, StateAfter, PowerContent, InSlotOrder, ViewOf, Inert;
    if n <= 3 {
      BaseView(hash, room, creator, labels, clock, n);
    } else {
      var first := Opening(hash, room, creator, labels, clock);
      OpeningEvents(hash, room, creator, labels, clock);
      OpeningView(hash, room, creator, labels, clock, n - 1);
      assert first[..n] == first[..n - 1] + [first[n - 1]];
      StateGrows(first[..n - 1], first[n - 1]);
      StateIsCoherent(first[..n - 1]);
      LabelsAreInert(first[n - 1], creator);
      InertKeepsView(StateAfter(first[..n - 1]), first[n - 1]);
    }
  }

  lemma LabelsAreInert(p: Pdu, creator: string)
    requires IsLabel(p, creator)
    ensures Inert(p.kind) && p.kind != ROOM_REDACTION && SlotOf(p).Some?
  {
    assert ROOM_NAME[7] == 'n' && ROOM_TOPIC[7] == 't' && ROOM_THIRD_PARTY_INVITE[8] == 'h' && ROOM_TOPIC[8] == 'o';
  }

  lemma BaseView(hash: RefHash, room: string, creator: string, labels: Labels, clock: Clock, n: nat)
    requires n <= 3 <= |Opening(hash, room, creator, labels, clock)|
    ensures var first := Opening(hash, room, creator, labels, clock);
      ViewAt(first[..n]) == ViewSoFar(first, creator, n)
  {
    hide Print, Parse, Opening, Linear, StateEvents, StateAfter, PowerContent, InSlotOrder;
    var first := Opening(hash, room, creator, labels, clock);
    OpeningEvents(hash, room, creator, labels, clock);
    OpeningIsOrdered(hash, room, creator, labels, clock, n);
    SlotOrderIsState(first[..n]);
    ContentsReadBack(creator);
    assert first[..1][..0] == first[..0] && first[..2][..1] == first[..1] && first[..3][..2] == first[..2];
    assert MembershipOf(first[1]) == Some("join");
    assert ViewOf(first[..1]) == ViewSoFar(first, creator, 1);
    assert ViewOf(first[..2]) == ViewSoFar(first, creator, 2);
    assert ViewOf(first[..3]) == ViewSoFar(first, creator, 3);
  }

  lemma CreatorIs(hash: RefHash, room: string, creator: string, labels: Labels, clock: Clock)
    ensures |Opening(hash, room, creator, labels, clock)| >= 3
    ensures CreatorOf(Opening(hash, room, creator, labels, clock)[0]) == Some(creator)
  {
    hide Print, Parse, Opening, Linear, RoomVersionOf;
    OpeningEvents(hash, room, creator, labels, clock);
    ContentsReadBack(creator);
  }

  /** Every opening event passes the rules against the ones before it. */
  lemma OpeningIsAuthorized(hash: RefHash, sig: SigCheck, room: string, creator: string, labels: Labels, clock: Clock)
    ensures Authorized(Opening(hash, room, creator, labels, clock), sig)
  {
    hide Print, Parse, Opening, Linear, ViewAt, CreatorOf, UserLevel, PowerContent, Inert;
    var first := Opening(hash, room, creator, labels, clock);
    OpeningEvents(hash, room, creator, labels, clock);
    CreatorIs(hash, room, creator, labels, clock);
    ContentsReadBack(creator);
    assert MembershipOf(first[1]) == Some("join");
    forall i | 0 <= i < |first| ensures CheckAuthIn(first[i], ViewAt(first[..i]), sig).Ok? {
      OpeningView(hash, room, creator, labels, clock, i);
      if i >= 3 {
        LabelsAreInert(first[i], creator);
        CreatorMayLabel(ViewAt(first[..i]), creator, first[i], sig);
      }
    }
  }

  lemma CreatorMayLabel(view: AuthView, creator: string, p: Pdu, sig: SigCheck)
    requires view.create.Some? && view.powerLevels == Some(PowerContent(creator)) && view.members == [(creator, "join")]
    requires IsLabel(p, creator)
    ensures CheckAuthIn(p, view, sig).Ok?
  {
    hide PowerContent;
    LabelsAreInert(p, creator);
    CreatorLevel(view, creator, p.kind);
    assert view.Membership(creator) == Some("join");
  }

  /** So whatever its writers do, a created room's timeline is an authorized history. */
  lemma CreatedRoomIsAuthorized(
    hash: RefHash, sig: SigCheck, room: string, creator: string, labels: Labels, clock: Clock, schedule: seq<Turn>)
    ensures Authorized(Run(hash, sig, room, Opened(Opening(hash, room, creator, labels, clock)), schedule).timeline, sig)
  {
    hide Run, Authorized, Linear, Opening;
    OpeningEvents(hash, room, creator, labels, clock);
    OpeningIsAuthorized(hash, sig, room, creator, labels, clock);
    EveryInterleavingIsAuthorized(hash, sig, room, Opening(hash, room, creator, labels, clock), schedule);
  }

  lemma CreatorLevel(view: AuthView, creator: string, kind: string)
    requires view.powerLevels == Some(PowerContent(creator))
    ensures view.PowerLevel(creator) == 100 && view.EventLevel(kind, false) == 0 && view.EventLevel(kind, true) == 50
  {
    var members := PowerContent(creator).members;
    assert members[1..] == [members[1]] && members[1..][1..] == [];
    NoLevel(creator, "events");
    NoLevel(creator, "events_default");
    NoLevel(creator, "state_default");
  }

  lemma NoLevel(creator: string, key: string)
    requires key == "events" || key == "events_default" || key == "state_default"
    ensures Lookup(PowerContent(creator).members, key) == None
  {
    var members := PowerContent(creator).members;
    assert members[1..] == [members[1]] && members[1..][1..] == [];
    assert "events"[0] == 'e' && "events_default"[0] == 'e' && "state_default"[0] == 's';
    assert "users"[0] == 'u' && "users_default"[0] == 'u';
    assert Lookup(members[1..], key) == None;
  }

  /** The creator may send messages there. */
  lemma CreatorMaySend(hash: RefHash, sig: SigCheck, room: string, creator: string, labels: Labels, clock: Clock, p: Pdu)
    requires p.kind == ROOM_MESSAGE && p.sender == creator && p.stateKey == None
    ensures CheckAuth(p, StateEvents(StateAfter(Opening(hash, room, creator, labels, clock))), sig).Ok?
  {
    hide ViewOf, StateEvents, StateAfter, Opening, PowerContent, Linear, Print;
    var first := Opening(hash, room, creator, labels, clock);
    OpeningEvents(hash, room, creator, labels, clock);
    OpeningView(hash, room, creator, labels, clock, |first|);
    assert first[..|first|] == first;
    CreatorLevel(ViewAt(first), creator, ROOM_MESSAGE);
    assert ViewAt(first).Membership(creator) == Some("join");
  }

  /**
   On every room as it is created, two racing sends of one message by its creator leave it in the
   timeline twice, whatever the hash and the signature check.
   */
  lemma CreatorCanSendTwice(
    hash: RefHash, sig: SigCheck, room: string, creator: string, labels: Labels, clock: Clock, a: Turn, b: Turn)
    requires a.thread != b.thread && a.req == b.req
    requires a.req.Message? && a.req.kind == ROOM_MESSAGE && a.req.sender == creator
    ensures var first := Opening(hash, room, creator, labels, clock);
      var end := Run(hash, sig, room, Opened(first), Race(a, b));
      && |end.timeline| == |first| + 2 && first <= end.timeline
      && Carries(a.req, end.timeline[|first|]) && Carries(a.req, end.timeline[|first| + 1])
  {
    hide CheckAuth, StateEvents, StateAfter, Opening, Run, Race, Linear, Print;
    var first := Opening(hash, room, creator, labels, clock);
    OpeningEvents(hash, room, creator, labels, clock);
    CreatorMaySend(hash, sig, room, creator, labels, clock, Built(hash, room, Opened(first), a.req, a.ts));
    RacingSendsBothAppend(hash, sig, room, Opened(first), a, b);
  }

  /**
   And on every such room, any threads sending one message by its creator, in any interleaving that
   lets them all return, leave it there as often as it was checked while unrecorded.
   */
  lemma CreatorSendsByPassed(
    hash: RefHash, sig: SigCheck, room: string, creator: string, labels: Labels, clock: Clock,
    schedule: seq<Turn>, req: Request)
    requires req.Message? && req.kind == ROOM_MESSAGE && req.sender == creator && AllSend(schedule, req)
    requires Quiet(Run(hash, sig, room, Opened(Opening(hash, room, creator, labels, clock)), schedule), KeyOf(req).value)
    ensures var s := Opened(Opening(hash, room, creator, labels, clock));
      |Run(hash, sig, room, s, schedule).timeline|
        == |s.timeline| + Total(hash, sig, room, s, schedule, KeyOf(req).value).passed
  {
    hide CheckAuth, StateEvents, StateAfter, Opening, Run, Linear, Print, Total, Quiet;
    var first := Opening(hash, room, creator, labels, clock);
    CreatorMaySend(hash, sig, room, creator, labels, clock, Built(hash, room, Opened(first), req, 0));
    SendsGrowByPassed(hash, sig, room, Opened(first), schedule, req, 0);
  }

  lemma {:induction false} CreatedIsMinted(hash: RefHash, room: string, creator: string, initial: seq<NewState>)
    requires forall e | e in initial :: Audit.Clean(e.kind)
    ensures forall p | p in Created(hash, room, creator, initial) :: MintedBy(hash, room, p)
  {
    hide Audit.Clean;
    if initial != [] {
      CreatedIsMinted(hash, room, creator, initial[..|initial| - 1]);
    }
  }

  lemma KindsAreClean(creator: string, labels: Labels, clock: Clock)
    ensures |InitialState(creator, labels, clock)| <= 5
    ensures forall e | e in InitialState(creator, labels, clock) :: Audit.Clean(e.kind)
  {
    hide Print;
    assert Audit.Clean(ROOM_CREATE) && Audit.Clean(ROOM_MEMBER) && Audit.Clean(ROOM_POWER_LEVELS);
    assert Audit.Clean(ROOM_NAME) && Audit.Clean(ROOM_TOPIC);
  }

  /** Whatever its writers send, a created room's columns hold its timeline and its state whenever the lock is free. */
  lemma CreatedRoomIsStored(
    hash: RefHash, sig: SigCheck, room: string, creator: string, labels: Labels, clock: Clock, schedule: seq<Turn>)
    requires GoodHash(hash) && RoomStore.RoomIdOk(room) && Audit.Clean(room)
    requires |schedule| + 6 < Audit.U64_LIMIT && forall turn | turn in schedule :: CleanRequest(turn.req)
    ensures var s := Run(hash, sig, room, Opened(Opening(hash, room, creator, labels, clock)), schedule);
      s.lock == None ==>
        && RoomStore.Timeline(RoomStore.After(s.timeline), room) == s.timeline
        && RoomStore.CurrentStatePdus(RoomStore.After(s.timeline), room) == StateEvents(s.state)
  {
    hide Run, Linear, StateEvents, RoomStore.Timeline, RoomStore.After, RoomStore.CurrentStatePdus, RoomStore.Sound,
         RoomStore.RoomIdOk, GoodHash, CleanRequest, Audit.Clean, MintedBy, InitialState;
    KindsAreClean(creator, labels, clock);
    CreatedIs(hash, room, creator, InitialState(creator, labels, clock));
    CreatedIsMinted(hash, room, creator, InitialState(creator, labels, clock));
    EveryInterleavingIsStored(hash, sig, room, Opening(hash, room, creator, labels, clock), schedule);
  }
}
