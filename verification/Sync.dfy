/**
 Sync over the room columns, and the client that follows it: in every run of appends and syncs the
 client's overlay of what it is sent is the server's state of each room it is joined to.
 */
module Sync {
  import opened Audit
  import opened Columns
  import opened Events
  import opened InviteChain
  import opened Orders
  import opened RoomStore
  import opened Text

  datatype JoinedRoom = JoinedRoom(state: seq<Pdu>, timeline: seq<Pdu>)

  datatype View = View(nextBatch: string, joined: map<string, JoinedRoom>, left: map<string, seq<Pdu>>)

  // ---------------------------------------------------------------------------
  // What sync answers
  // ---------------------------------------------------------------------------

  predicate IsMemberEvent(p: Pdu, user: string, membership: string) {
    p.kind == ROOM_MEMBER && p.stateKey == Some(user) && MembershipOf(p) == Some(membership)
  }

  predicate JoinedInDelta(delta: seq<Pdu>, user: string) {
    exists p | p in delta :: IsMemberEvent(p, user, "join")
  }

  predicate LeftInDelta(delta: seq<Pdu>, user: string) {
    exists p | p in delta :: IsMemberEvent(p, user, "leave") || IsMemberEvent(p, user, "ban")
  }

  /** is_joined: the membership in the content of the event filling the user's slot. */
  predicate IsJoined(c: Rooms, room: string, user: string) {
    var key := StateKey(room, Slot(ROOM_MEMBER, user));
    key in c.state && EventIdOk(c.state[key]) &&
    match EventOf(c, room, c.state[key])
    case Some(p) => MembershipOf(p) == Some("join")
    case None => false
  }

  function StateOnly(events: seq<Pdu>): seq<Pdu> {
    if events == [] then []
    else
      StateOnly(events[..|events| - 1]) + if events[|events| - 1].stateKey.Some? then [events[|events| - 1]] else []
  }

  function RoomsIn(events: seq<Pdu>): set<string> {
    set p | p in events :: p.roomId
  }

  /** The rooms of the events column. */
  function AllRooms(c: Rooms): set<string> {
    set k | k in c.events && KeyRoom(k).Some? :: KeyRoom(k).value
  }

  function KeyRoom(key: string): Option<string> {
    match SplitOnce(key, SEP)
    case Some((room, _)) => if RoomIdOk(room) then Some(room) else None
    case None => None
  }

  /** The stream position of a token "s{N}"; anything else asks for an initial sync. */
  function Position(since: Option<string>): Option<nat> {
    match since
    case Some(token) => if token != "" && token[0] == 's' then ParseU64(token[1..]) else None
    case None => None
  }

  function Token(position: nat): string {
    "s" + Decimal(position)
  }

  function Entry(c: Rooms, room: string, user: string, timeline: seq<Pdu>): JoinedRoom {
    JoinedRoom(if JoinedInDelta(timeline, user) then CurrentStatePdus(c, room) else StateOnly(timeline), timeline)
  }

  function JoinedPart(c: Rooms, user: string, delta: seq<Pdu>, rooms: set<string>): map<string, JoinedRoom> {
    map room | room in rooms && IsJoined(c, room, user) :: Entry(c, room, user, RoomEvents(delta, room))
  }

  function LeftPart(c: Rooms, user: string, delta: seq<Pdu>, rooms: set<string>): map<string, seq<Pdu>> {
    map room | room in rooms && !IsJoined(c, room, user) && LeftInDelta(RoomEvents(delta, room), user) ::
      RoomEvents(delta, room)
  }

  function WholeRooms(c: Rooms, user: string, rooms: set<string>): map<string, JoinedRoom> {
    map room | room in rooms && IsJoined(c, room, user) :: JoinedRoom(CurrentStatePdus(c, room), Timeline(c, room))
  }

  /** What an incremental sync says about the rooms of its delta. */
  function Incremental(c: Rooms, user: string, delta: seq<Pdu>): View {
    View(Token(|c.stream|), JoinedPart(c, user, delta, RoomsIn(delta)), LeftPart(c, user, delta, RoomsIn(delta)))
  }

  function Initial(c: Rooms, user: string): View {
    View(Token(|c.stream|), WholeRooms(c, user, AllRooms(c)), map[])
  }

  function Answer(c: Rooms, user: string, since: Option<string>): View {
    match Position(since)
    case None => Initial(c, user)
    case Some(pos) => Incremental(c, user, EventsSince(c, pos))
  }

  /** The delta's events, grouped per room. */
  method GroupByRoom(delta: seq<Pdu>) returns (byRoom: map<string, seq<Pdu>>)
    ensures byRoom.Keys == RoomsIn(delta)
    ensures forall room | room in byRoom :: byRoom[room] == RoomEvents(delta, room)
  {
    byRoom := map[];
    for i := 0 to |delta|
      invariant byRoom.Keys == RoomsIn(delta[..i])
      invariant forall room | room in byRoom :: byRoom[room] == RoomEvents(delta[..i], room)
    {
      var p := delta[i];
      assert delta[..i + 1] == delta[..i] + [p];
      RoomsSnoc(delta[..i], p);
      forall room ensures RoomEvents(delta[..i + 1], room) ==
        RoomEvents(delta[..i], room) + (if p.roomId == room then [p] else [])
      {
        RoomEventsSnoc(delta[..i], p, room);
      }
      NoRoomNoEvents(delta[..i], p.roomId);
      var sofar := if p.roomId in byRoom then byRoom[p.roomId] else [];
      byRoom := byRoom[p.roomId := sofar + [p]];
    }
    assert delta[..|delta|] == delta;
  }

  lemma RoomsSnoc(events: seq<Pdu>, p: Pdu)
    ensures RoomsIn(events + [p]) == RoomsIn(events) + {p.roomId}
  {
    assert forall q :: q in events + [p] <==> q in events || q == p;
    assert p in events + [p];
  }

  lemma RoomEventsSnoc(events: seq<Pdu>, p: Pdu, room: string)
    ensures RoomEvents(events + [p], room) == RoomEvents(events, room) + if p.roomId == room then [p] else []
  {
    assert (events + [p])[..|events|] == events;
  }

  lemma NoRoomNoEvents(events: seq<Pdu>, room: string)
    ensures room !in RoomsIn(events) <==> RoomEvents(events, room) == []
  {
    RoomEventsAre(events, room);
    if RoomEvents(events, room) != [] {
      assert RoomEvents(events, room)[0] in RoomEvents(events, room);
    }
    if room in RoomsIn(events) {
      var p :| p in events && p.roomId == room;
      assert p in RoomEvents(events, room);
    }
  }

  /** The rooms looked at after one more. */
  lemma OneMoreRoom(all: set<string>, rooms: set<string>, room: string)
    requires room in rooms && rooms <= all
    ensures all - (rooms - {room}) == (all - rooms) + {room}
  {
  }

  lemma JoinedOneMore(c: Rooms, user: string, delta: seq<Pdu>, rooms: set<string>, room: string)
    ensures JoinedPart(c, user, delta, rooms + {room}) ==
      if IsJoined(c, room, user) then JoinedPart(c, user, delta, rooms)[room := Entry(c, room, user, RoomEvents(delta, room))]
      else JoinedPart(c, user, delta, rooms)
  {
    hide IsJoined, Entry, RoomEvents;
  }

  lemma LeftOneMore(c: Rooms, user: string, delta: seq<Pdu>, rooms: set<string>, room: string)
    ensures LeftPart(c, user, delta, rooms + {room}) ==
      if !IsJoined(c, room, user) && LeftInDelta(RoomEvents(delta, room), user)
      then LeftPart(c, user, delta, rooms)[room := RoomEvents(delta, room)]
      else LeftPart(c, user, delta, rooms)
  {
    hide IsJoined, LeftInDelta, RoomEvents;
  }

  lemma WholeOneMore(c: Rooms, user: string, rooms: set<string>, room: string)
    ensures WholeRooms(c, user, rooms + {room}) ==
      if IsJoined(c, room, user)
      then WholeRooms(c, user, rooms)[room := JoinedRoom(CurrentStatePdus(c, room), Timeline(c, room))]
      else WholeRooms(c, user, rooms)
  {
    hide IsJoined, CurrentStatePdus, Timeline;
  }

  method RespondWhole(c: Rooms, user: string) returns (joined: map<string, JoinedRoom>)
    ensures joined == WholeRooms(c, user, AllRooms(c))
  {
    hide IsJoined, CurrentStatePdus, Timeline, WholeRooms, AllRooms;
    var rooms := AllRooms(c);
    ghost var all := rooms;
    joined := map[];
    NothingYet(c, user, []);
    assert all - rooms == {};
    while rooms != {}
      invariant rooms <= all
      invariant joined == WholeRooms(c, user, all - rooms)
      decreases |rooms|
    {
      var room :| room in rooms;
      OneMoreRoom(all, rooms, room);
      WholeOneMore(c, user, all - rooms, room);
      if IsJoined(c, room, user) {
        joined := joined[room := JoinedRoom(CurrentStatePdus(c, room), Timeline(c, room))];
      }
      rooms := rooms - {room};
    }
    assert all - rooms == all;
  }

  lemma NothingYet(c: Rooms, user: string, delta: seq<Pdu>)
    ensures WholeRooms(c, user, {}) == map[] && JoinedPart(c, user, delta, {}) == map[] && LeftPart(c, user, delta, {}) == map[]
  {
    hide IsJoined, CurrentStatePdus, Timeline, Entry, LeftInDelta, RoomEvents;
  }

  method RespondDelta(c: Rooms, user: string, delta: seq<Pdu>) returns (joined: map<string, JoinedRoom>, left: map<string, seq<Pdu>>)
    ensures joined == JoinedPart(c, user, delta, RoomsIn(delta))
    ensures left == LeftPart(c, user, delta, RoomsIn(delta))
  {
    hide IsJoined, Entry, LeftInDelta, JoinedPart, LeftPart, RoomEvents, RoomsIn;
    var byRoom := GroupByRoom(delta);
    var rooms := byRoom.Keys;
    ghost var all := rooms;
    joined, left := map[], map[];
    NothingYet(c, user, delta);
    assert all - rooms == {};
    while rooms != {}
      invariant rooms <= all
      invariant joined == JoinedPart(c, user, delta, all - rooms)
      invariant left == LeftPart(c, user, delta, all - rooms)
      decreases |rooms|
    {
      var room :| room in rooms;
      OneMoreRoom(all, rooms, room);
      JoinedOneMore(c, user, delta, all - rooms, room);
      LeftOneMore(c, user, delta, all - rooms, room);
      var timeline := byRoom[room];
      if IsJoined(c, room, user) {
        joined := joined[room := Entry(c, room, user, timeline)];
      } else if LeftInDelta(timeline, user) {
        left := left[room := timeline];
      }
      rooms := rooms - {room};
    }
    assert all - rooms == all;
  }

  /** sync: every joined room whole, or the delta's rooms joined, left or passed over. */
  method Respond(c: Rooms, user: string, since: Option<string>) returns (view: View)
    ensures view == Answer(c, user, since)
  {
    hide JoinedPart, LeftPart, WholeRooms, AllRooms, RoomsIn, EventsSince, ParseU64;
    var nextBatch := Token(|c.stream|);
    var from := Position(since);
    if from.None? {
      var joined := RespondWhole(c, user);
      view := View(nextBatch, joined, map[]);
    } else {
      var joined, left := RespondDelta(c, user, EventsSince(c, from.value));
      view := View(nextBatch, joined, left);
    }
  }

  lemma TokenReadsBack(n: nat)
    requires n < U64_LIMIT
    ensures Position(Some(Token(n))) == Some(n)
  {
    ParsesBack(n);
    assert Token(n)[1..] == Decimal(n);
  }

  // ---------------------------------------------------------------------------
  // The answer in terms of the history
  // ---------------------------------------------------------------------------

  /** The user's membership in the server's state is join. */
  predicate Member(h: seq<Pdu>, room: string, user: string) {
    var slot := Slot(ROOM_MEMBER, user);
    slot in ServerState(h, room) && MembershipOf(ServerState(h, room)[slot]) == Some("join")
  }

  lemma IsJoinedIs(h: seq<Pdu>, room: string, user: string)
    requires Sound(h) && Clean(room)
    ensures IsJoined(After(h), room, user) <==> Member(h, room, user)
  {
    hide EventOf, MembershipOf, ServerState, StateKey, After, RoomIdOk;
    var slot := Slot(ROOM_MEMBER, user);
    assert Clean(ROOM_MEMBER);
    StateIsHeld(h, room);
    StateEventsAreHistory(h, room);
    if slot in ServerState(h, room) {
      EventIsFound(h, ServerState(h, room)[slot]);
      NamedIsClean(ServerState(h, room)[slot]);
    }
  }

  /** The rooms of a history are those its keys name. */
  lemma AllRoomsAre(h: seq<Pdu>)
    requires Sound(h)
    ensures AllRooms(After(h)) == RoomsIn(h)
  {
    hide Padded, RoomIdOk, After;
    var events := After(h).events;
    EventsHeld(h);
    forall p | p in h ensures KeyRoom(TimelineKey(p)) == Some(p.roomId) {
      SplitOnceAt(p.roomId, SEP, Padded(p.depth) + [SEP] + p.eventId);
    }
    forall room ensures room in AllRooms(After(h)) <==> room in RoomsIn(h) {
      if room in AllRooms(After(h)) {
        var k :| k in events && KeyRoom(k) == Some(room);
        assert events[k] in h;
      }
      if room in RoomsIn(h) {
        var p :| p in h && p.roomId == room;
        assert TimelineKey(p) in events;
      }
    }
  }

  // ---------------------------------------------------------------------------
  // Overlaying
  // ---------------------------------------------------------------------------

  /** Overlaying events on a state, in order. */
  function Overlay(state: RoomState, events: seq<Pdu>): RoomState {
    if events == [] then state else AfterEvent(Overlay(state, events[..|events| - 1]), events[|events| - 1])
  }

  /** An overlaid slot holds the last event for it, or what was there. */
  lemma {:induction false} OverlaySlot(state: RoomState, events: seq<Pdu>, slot: Slot)
    ensures var after := Overlay(state, events);
      (slot in after ==> (after[slot] in events && SlotOf(after[slot]) == Some(slot)) || (slot in state && after[slot] == state[slot]))
      && (slot in state ==> slot in after)
      && ((exists e | e in events :: SlotOf(e) == Some(slot)) ==> slot in after && after[slot] in events && SlotOf(after[slot]) == Some(slot))
  {
    if events != [] {
      OverlaySlot(state, events[..|events| - 1], slot);
      assert forall e :: e in events <==> e in events[..|events| - 1] || e == events[|events| - 1];
    }
  }

  /** Overlaying a whole state on part of an older one gives that state. */
  lemma OverlayWhole(held: RoomState, state: RoomState, events: seq<Pdu>)
    requires held.Keys <= state.Keys
    requires forall e | e in events :: exists s :: s in state && SlotOf(e) == Some(s) && state[s] == e
    requires forall s | s in state :: state[s] in events && SlotOf(state[s]) == Some(s)
    ensures Overlay(held, events) == state
  {
    hide Overlay, SlotOf;
    var after := Overlay(held, events);
    forall slot ensures slot in after <==> slot in state {
      OverlaySlot(held, events, slot);
    }
    forall slot | slot in state ensures after[slot] == state[slot] {
      OverlaySlot(held, events, slot);
    }
  }

  lemma {:induction false} OverlayStateOnly(state: RoomState, events: seq<Pdu>)
    ensures Overlay(state, StateOnly(events)) == Overlay(state, events)
  {
    if events != [] {
      var init, last := events[..|events| - 1], events[|events| - 1];
      OverlayStateOnly(state, init);
      if last.stateKey.Some? {
        var r := StateOnly(init) + [last];
        assert r[..|r| - 1] == StateOnly(init);
      } else {
        assert StateOnly(init) + [] == StateOnly(init);
      }
    }
  }

  /** The server's own state is the overlay of what was appended since. */
  lemma {:induction false} StateSince(h: seq<Pdu>, more: seq<Pdu>, room: string)
    ensures ServerState(h + more, room) == Overlay(ServerState(h, room), RoomEvents(more, room))
    decreases |more|
  {
    hide ServerState, AfterEvent;
    if more == [] {
      assert h + more == h;
    } else {
      var init, last := more[..|more| - 1], more[|more| - 1];
      assert h + more == (h + init) + [last];
      StateSince(h, init, room);
      ServerStateStep(h + init, last, room);
      assert more == init + [last];
      RoomEventsSnoc(init, last, room);
      var events := RoomEvents(init, room);
      if last.roomId == room {
        assert (events + [last])[..|events|] == events;
      } else {
        assert events + [] == events;
      }
    }
  }

  /** State events in slot order overlay to the state they list. */
  lemma OverlayCurrent(h: seq<Pdu>, room: string, held: RoomState)
    requires held.Keys <= ServerState(h, room).Keys
    ensures Overlay(held, StateEvents(ServerState(h, room))) == ServerState(h, room)
  {
    hide ServerState, StateEvents, SlotOf, Overlay;
    var state := ServerState(h, room);
    StateEventsAreHistory(h, room);
    forall p ensures p in StateEvents(state) <==> exists s :: s in state && state[s] == p {
      StateEventsAreState(state, p);
    }
    OverlayWhole(held, state, StateEvents(state));
  }

  /** A user joined at the end of a window joined within it, or was joined before it and all along. */
  lemma JoinedThroughout(h: seq<Pdu>, more: seq<Pdu>, room: string, user: string)
    requires Member(h + more, room, user)
    ensures JoinedInDelta(RoomEvents(more, room), user) || Member(h, room, user)
  {
    hide ServerState, Overlay, MembershipOf, RoomEvents;
    var slot := Slot(ROOM_MEMBER, user);
    StateSince(h, more, room);
    OverlaySlot(ServerState(h, room), RoomEvents(more, room), slot);
    var e := ServerState(h + more, room)[slot];
    if e in RoomEvents(more, room) && SlotOf(e) == Some(slot) {
      assert IsMemberEvent(e, user, "join");
    }
  }

  // ---------------------------------------------------------------------------
  // The client
  // ---------------------------------------------------------------------------

  /** What a client holds; `forgets` is whether it drops rooms it is told it left. */
  datatype Client = Client(since: Option<string>, held: map<string, RoomState>, forgets: bool)

  function Held(client: Client, room: string): RoomState {
    if room in client.held then client.held[room] else map[]
  }

  function Applied(client: Client, view: View): Client {
    var kept := if client.forgets then client.held - view.left.Keys else client.held;
    Client(Some(view.nextBatch),
      map room | room in kept.Keys + view.joined.Keys ::
        if room in view.joined then Overlay(Held(client, room), view.joined[room].state) else kept[room],
      client.forgets)
  }

  datatype Action = Send(event: Pdu) | DoSync

  datatype World = World(history: seq<Pdu>, client: Client)

  function Next(w: World, user: string, action: Action): World {
    match action
    case Send(p) => w.(history := w.history + [p])
    case DoSync => w.(client := Applied(w.client, Answer(After(w.history), user, w.client.since)))
  }

  function Run(w: World, user: string, actions: seq<Action>): World
    decreases |actions|
  {
    if actions == [] then w else Run(Next(w, user, actions[0]), user, actions[1..])
  }

  function Sent(actions: seq<Action>): seq<Pdu> {
    if actions == [] then []
    else (match actions[0] case Send(p) => [p] case DoSync => []) + Sent(actions[1..])
  }

  /** The client is up to date with the first `pos` events of the history. */
  ghost predicate UpToDate(client: Client, h: seq<Pdu>, user: string) {
    && client.since == Some(Token(|h|))
    && (forall room | Clean(room) && Member(h, room, user) :: Held(client, room) == ServerState(h, room))
    && (forall room | Clean(room) :: Held(client, room).Keys <= ServerState(h, room).Keys)
  }

  lemma AnsweredRoom(h: seq<Pdu>, pos: nat, user: string, room: string)
    requires Sound(h) && pos <= |h| && Clean(room)
    ensures var view, timeline := Incremental(After(h), user, h[pos..]), RoomEvents(h[pos..], room);
      && (room in view.joined <==> timeline != [] && Member(h, room, user))
      && (room in view.joined ==> view.joined[room].timeline == timeline)
      && (room in view.joined && JoinedInDelta(timeline, user) ==> view.joined[room].state == StateEvents(ServerState(h, room)))
      && (room in view.joined && !JoinedInDelta(timeline, user) ==> view.joined[room].state == StateOnly(timeline))
      && (room in view.left <==> timeline != [] && !Member(h, room, user) && LeftInDelta(timeline, user))
      && (room in view.left ==> view.left[room] == timeline)
  {
    hide IsJoined, Member, RoomEvents, JoinedInDelta, LeftInDelta, CurrentStatePdus, StateEvents, ServerState, After, RoomsIn;
    IsJoinedIs(h, room, user);
    NoRoomNoEvents(h[pos..], room);
    CurrentStatePdusAre(h, room);
  }

  /** What applying an answer leaves the client holding for a room. */
  lemma AppliedRoom(client: Client, view: View, room: string)
    ensures Held(Applied(client, view), room) ==
      if room in view.joined then Overlay(Held(client, room), view.joined[room].state)
      else if client.forgets && room in view.left then map[]
      else Held(client, room)
  {
    hide Overlay;
  }

  lemma HeldBefore(client: Client, h: seq<Pdu>, user: string, room: string)
    requires UpToDate(client, h, user) && Clean(room)
    ensures Member(h, room, user) ==> Held(client, room) == ServerState(h, room)
    ensures Held(client, room).Keys <= ServerState(h, room).Keys
  {
    hide Member, ServerState, Held;
  }

  /** What an incremental sync leaves the client holding for a room. */
  lemma SyncedRoom(h: seq<Pdu>, pos: nat, user: string, client: Client, room: string)
    requires Sound(h) && pos <= |h| && Clean(room) && UpToDate(client, h[..pos], user)
    ensures var client' := Applied(client, Incremental(After(h), user, h[pos..]));
      && (Member(h, room, user) ==> Held(client', room) == ServerState(h, room))
      && Held(client', room).Keys <= ServerState(h, room).Keys
  {
    hide Member, RoomEvents, JoinedInDelta, StateEvents, ServerState, After, Incremental, Overlay, StateOnly, Applied, Held,
         UpToDate, Sound;
    var before, more := h[..pos], h[pos..];
    var timeline := RoomEvents(more, room);
    var held := Held(client, room);
    assert h == before + more;
    HeldBefore(client, before, user, room);
    AppliedRoom(client, Incremental(After(h), user, more), room);
    AnsweredRoom(h, pos, user, room);
    StateSince(before, more, room);
    KeysGrow(ServerState(before, room), timeline);
    if timeline == [] {
      NothingNew(before, more, room, user);
    } else if Member(h, room, user) {
      OverlayCurrent(h, room, held);
      JoinedThroughout(before, more, room, user);
      OverlayStateOnly(held, timeline);
    }
  }

  lemma KeysGrow(state: RoomState, events: seq<Pdu>)
    ensures state.Keys <= Overlay(state, events).Keys
  {
    hide Overlay;
    forall slot | slot in state ensures slot in Overlay(state, events) {
      OverlaySlot(state, events, slot);
    }
  }

  lemma NothingNew(h: seq<Pdu>, more: seq<Pdu>, room: string, user: string)
    requires RoomEvents(more, room) == []
    ensures ServerState(h + more, room) == ServerState(h, room)
    ensures Member(h + more, room, user) <==> Member(h, room, user)
  {
    hide ServerState, MembershipOf;
    StateSince(h, more, room);
  }

  /** What an initial sync leaves a client that held nothing holding. */
  lemma FirstSyncedRoom(h: seq<Pdu>, user: string, client: Client, room: string)
    requires Sound(h) && Clean(room) && client.held == map[]
    ensures var client' := Applied(client, Initial(After(h), user));
      && (Member(h, room, user) ==> Held(client', room) == ServerState(h, room))
      && Held(client', room).Keys <= ServerState(h, room).Keys
  {
    hide Member, IsJoined, StateEvents, ServerState, After, Overlay, CurrentStatePdus, Timeline, AllRooms;
    AllRoomsAre(h);
    IsJoinedIs(h, room, user);
    CurrentStatePdusAre(h, room);
    OverlayCurrent(h, room, map[]);
    MemberRoomExists(h, room, user);
  }

  lemma MemberRoomExists(h: seq<Pdu>, room: string, user: string)
    ensures Member(h, room, user) ==> room in RoomsIn(h)
  {
    hide ServerState, MembershipOf;
    StateEventsAreHistory(h, room);
  }

  /** A client that has not synced yet, or is up to date with a prefix of the history. */
  ghost predicate Following(client: Client, h: seq<Pdu>, user: string, pos: nat) {
    pos <= |h| && (UpToDate(client, h[..pos], user) || (client.since == None && client.held == map[]))
  }

  lemma SyncCatchesUp(client: Client, h: seq<Pdu>, user: string, pos: nat)
    requires Sound(h) && Following(client, h, user, pos)
    ensures UpToDate(Applied(client, Answer(After(h), user, client.since)), h, user)
  {
    hide Member, ServerState, After, Held, Initial, Incremental, Applied;
    StreamLength(h);
    var client' := Applied(client, Answer(After(h), user, client.since));
    NextToken(client, h, user);
    if client.since == None && client.held == map[] {
      forall room | Clean(room)
        ensures (Member(h, room, user) ==> Held(client', room) == ServerState(h, room))
          && Held(client', room).Keys <= ServerState(h, room).Keys
      {
        FirstSyncedRoom(h, user, client, room);
      }
    } else {
      TokenReadsBack(pos);
      EventsSinceIs(h, pos);
      forall room | Clean(room)
        ensures (Member(h, room, user) ==> Held(client', room) == ServerState(h, room))
          && Held(client', room).Keys <= ServerState(h, room).Keys
      {
        SyncedRoom(h, pos, user, client, room);
      }
    }
  }

  lemma StreamLength(h: seq<Pdu>)
    requires Sound(h)
    ensures |After(h).stream| == |h|
  {
    hide After;
    StreamIs(h);
  }

  lemma NextToken(client: Client, h: seq<Pdu>, user: string)
    requires Sound(h)
    ensures Applied(client, Answer(After(h), user, client.since)).since == Some(Token(|h|))
  {
    hide After, JoinedPart, LeftPart, WholeRooms, Overlay, EventsSince;
    StreamLength(h);
  }

  lemma {:induction false} RunFollows(w: World, user: string, actions: seq<Action>, pos: nat) returns (pos': nat)
    requires Sound(w.history + Sent(actions)) && Following(w.client, w.history, user, pos)
    ensures var w' := Run(w, user, actions);
      w'.history == w.history + Sent(actions) && Following(w'.client, w'.history, user, pos')
    decreases |actions|
  {
    hide Sound, UpToDate, Applied, Answer, After;
    if actions == [] {
      assert w.history + [] == w.history;
      pos' := pos;
    } else {
      var w1 := Next(w, user, actions[0]);
      var rest := actions[1..];
      if actions[0].DoSync? {
        assert [] + Sent(rest) == Sent(rest);
        assert (w.history + Sent(rest))[..|w.history|] == w.history;
        SoundPrefix(w.history + Sent(rest), |w.history|);
        SyncCatchesUp(w.client, w.history, user, pos);
        assert w.history[..|w.history|] == w.history;
        pos' := RunFollows(w1, user, rest, |w.history|);
      } else {
        var p := actions[0].event;
        assert w.history + ([p] + Sent(rest)) == (w.history + [p]) + Sent(rest);
        assert (w.history + [p])[..pos] == w.history[..pos];
        pos' := RunFollows(w1, user, rest, pos);
      }
    }
  }

  /**
   In every run of appends and syncs, after a sync the client holds, for each room its user is
   joined to, exactly the server's state.
   */
  lemma ClientFollowsServer(user: string, forgets: bool, actions: seq<Action>, room: string)
    requires Sound(Sent(actions))
    ensures var w := Next(Run(World([], Client(None, map[], forgets)), user, actions), user, DoSync);
      && w.history == Sent(actions)
      && (Member(w.history, room, user) ==> Held(w.client, room) == ServerState(w.history, room))
  {
    hide Sound, Applied, Answer, After, Run, Member, ServerState, Held;
    var start := World([], Client(None, map[], forgets));
    assert [] + Sent(actions) == Sent(actions);
    var pos := RunFollows(start, user, actions, 0);
    var w := Run(start, user, actions);
    SyncCatchesUp(w.client, w.history, user, pos);
    MemberRoomIsClean(w.history, room, user);
  }

  lemma MemberRoomIsClean(h: seq<Pdu>, room: string, user: string)
    requires Sound(h)
    ensures Member(h, room, user) ==> Clean(room)
  {
    hide ServerState, MembershipOf;
    StateEventsAreHistory(h, room);
  }

  // ---------------------------------------------------------------------------
  // Delta timelines
  // ---------------------------------------------------------------------------

  /** The timeline an incremental answer carries for a room, if it lists the room as joined. */
  function TimelineIn(view: View, room: string): seq<Pdu> {
    if room in view.joined then view.joined[room].timeline else []
  }

  /** The delta timelines of a room over a run, one after another. */
  function Deltas(w: World, user: string, room: string, actions: seq<Action>): seq<Pdu>
    decreases |actions|
  {
    if actions == [] then []
    else
      (if actions[0].DoSync? then TimelineIn(Answer(After(w.history), user, w.client.since), room) else [])
      + Deltas(Next(w, user, actions[0]), user, room, actions[1..])
  }

  /** The user is joined to the room at every sync of the run. */
  predicate JoinedAtSyncs(w: World, user: string, room: string, actions: seq<Action>)
    decreases |actions|
  {
    actions == [] ||
    ((actions[0].DoSync? ==> Member(w.history, room, user)) && JoinedAtSyncs(Next(w, user, actions[0]), user, room, actions[1..]))
  }

  lemma {:induction false} RoomEventsConcat(a: seq<Pdu>, b: seq<Pdu>, room: string)
    ensures RoomEvents(a + b, room) == RoomEvents(a, room) + RoomEvents(b, room)
    decreases |b|
  {
    if b == [] {
      assert a + b == a && RoomEvents(a, room) + [] == RoomEvents(a, room);
    } else {
      var init, last := b[..|b| - 1], b[|b| - 1];
      assert a + b == (a + init) + [last] && b == init + [last];
      RoomEventsConcat(a, init, room);
      RoomEventsSnoc(a + init, last, room);
      RoomEventsSnoc(init, last, room);
    }
  }

  /**
   From an up-to-date client on, the delta timelines of a room the user stays joined to are exactly
   the events appended to it up to the last sync, each once and in order.
   */
  lemma {:induction false} DeltasPartition(w: World, user: string, room: string, actions: seq<Action>, pos: nat)
    returns (end: nat)
    requires Sound(w.history + Sent(actions)) && pos <= |w.history| && UpToDate(w.client, w.history[..pos], user)
    requires JoinedAtSyncs(w, user, room, actions) && Clean(room)
    ensures var w' := Run(w, user, actions);
      && pos <= end <= |w'.history| && w'.client.since == Some(Token(end))
      && w'.history == w.history + Sent(actions)
      && Deltas(w, user, room, actions) == RoomEvents(w'.history[pos..end], room)
    decreases |actions|
  {
    hide Sound, Applied, Answer, After, Member, RoomEvents, TimelineIn, Token;
    var rest := if actions == [] then [] else actions[1..];
    if actions == [] {
      end := pos;
      assert w.history + [] == w.history && w.history[pos..pos] == [];
      NoEvents(room);
      TokenOf(w.client, w.history, user, pos);
    } else if actions[0].DoSync? {
      var w1 := Next(w, user, actions[0]);
      var n := |w.history|;
      assert [] + Sent(rest) == Sent(rest);
      assert (w.history + Sent(rest))[..n] == w.history && w.history[..n] == w.history;
      SoundPrefix(w.history + Sent(rest), n);
      SyncCatchesUp(w.client, w.history, user, pos);
      end := DeltasPartition(w1, user, room, rest, n);
      SyncTimeline(w.client, w.history, user, room, pos);
      var h' := w.history + Sent(rest);
      assert h'[pos..end] == w.history[pos..] + h'[n..end];
      RoomEventsConcat(w.history[pos..], h'[n..end], room);
    } else {
      var w1 := Next(w, user, actions[0]);
      var p := actions[0].event;
      assert w.history + ([p] + Sent(rest)) == (w.history + [p]) + Sent(rest);
      assert (w.history + [p])[..pos] == w.history[..pos];
      end := DeltasPartition(w1, user, room, rest, pos);
      assert [] + Deltas(w1, user, room, rest) == Deltas(w1, user, room, rest);
    }
  }

  lemma NoEvents(room: string)
    ensures RoomEvents([], room) == []
  {
  }

  lemma TokenOf(client: Client, h: seq<Pdu>, user: string, pos: nat)
    requires pos <= |h| && UpToDate(client, h[..pos], user)
    ensures client.since == Some(Token(pos))
  {
  }

  lemma SyncTimeline(client: Client, h: seq<Pdu>, user: string, room: string, pos: nat)
    requires Sound(h) && pos <= |h| && UpToDate(client, h[..pos], user) && Clean(room) && Member(h, room, user)
    ensures TimelineIn(Answer(After(h), user, client.since), room) == RoomEvents(h[pos..], room)
  {
    hide After, Member, RoomEvents, Incremental, ServerState, JoinedInDelta, StateEvents, StateOnly;
    TokenReadsBack(pos);
    EventsSinceIs(h, pos);
    AnsweredRoom(h, pos, user, room);
  }
}
