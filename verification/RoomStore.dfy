/**
 The room service over its three columns: events by room and depth, current state by slot, and the
 global stream. Appending a history leaves columns whose views are the history's own. Event values
 are PDUs; PduCodec is about their bytes.
 */
module RoomStore {
  import opened Audit
  import opened Columns
  import opened Events
  import opened InviteChain
  import opened Orders
  import opened Text

  datatype Rooms = Rooms(events: map<string, Pdu>, state: Column, stream: Column)

  const NO_ROOMS := Rooms(map[], map[], map[])

  // ---------------------------------------------------------------------------
  // Identifiers and keys
  // ---------------------------------------------------------------------------

  predicate RoomIdOk(s: string) {
    s != "" && s[0] == '!' &&
    match SplitOnce(s[1..], ':')
    case Some((local, server)) => local != "" && server != ""
    case None => false
  }

  predicate EventIdOk(s: string) {
    |s| > 1 && s[0] == '$'
  }

  /** "{room}{SEP}{depth:020}{SEP}{event_id}" */
  function TimelineKey(p: Pdu): string {
    p.roomId + [SEP] + (Padded(p.depth) + [SEP] + p.eventId)
  }

  function StateKey(room: string, slot: Slot): string {
    room + [SEP] + (slot.kind + [SEP] + slot.stateKey)
  }

  function StreamEntry(p: Pdu): string {
    p.roomId + [SEP] + p.eventId
  }

  function RoomPrefix(room: string): string {
    room + [SEP]
  }

  // ---------------------------------------------------------------------------
  // The service
  // ---------------------------------------------------------------------------

  /** append: the timeline, the state slot of a state event, the stream. */
  function Append(c: Rooms, p: Pdu): Rooms {
    Rooms(
      c.events[TimelineKey(p) := p],
      match SlotOf(p)
      case Some(slot) => c.state[StateKey(p.roomId, slot) := p.eventId]
      case None => c.state,
      c.stream[Padded(|c.stream|) := StreamEntry(p)])
  }

  function EventKeys(events: map<string, Pdu>): seq<string> {
    StrLessIsStrictTotal();
    Ascending(StrLess, events.Keys)
  }

  /** The events of the keys that start with a prefix. */
  function WithPrefix(keys: seq<string>, events: map<string, Pdu>, prefix: string): seq<Pdu> {
    if keys == [] then []
    else
      var rest := WithPrefix(keys[1..], events, prefix);
      if StartsWith(keys[0], prefix) && keys[0] in events then [events[keys[0]]] + rest else rest
  }

  function Timeline(c: Rooms, room: string): seq<Pdu> {
    WithPrefix(EventKeys(c.events), c.events, RoomPrefix(room))
  }

  function FindEvent(timeline: seq<Pdu>, id: EventId): Option<Pdu> {
    if timeline == [] then None
    else if timeline[0].eventId == id then Some(timeline[0])
    else FindEvent(timeline[1..], id)
  }

  /** pdu: the first event of the room's timeline with that id. */
  function EventOf(c: Rooms, room: string, id: EventId): Option<Pdu> {
    FindEvent(Timeline(c, room), id)
  }

  /** The event a stream entry refers to. */
  function Referred(c: Rooms, entry: string): Option<Pdu> {
    match SplitOnce(entry, SEP)
    case None => None
    case Some((room, id)) => if RoomIdOk(room) && EventIdOk(id) then EventOf(c, room, id) else None
  }

  function Since(c: Rooms, scan: seq<(string, string)>, since: nat): seq<Pdu> {
    if scan == [] then []
    else
      var rest := Since(c, scan[..|scan| - 1], since);
      var (key, entry) := scan[|scan| - 1];
      match ParseU64(key)
      case Some(position) =>
        if position < since then rest
        else (match Referred(c, entry) case Some(p) => rest + [p] case None => rest)
      case None => rest
  }

  function EventsSince(c: Rooms, since: nat): seq<Pdu> {
    Since(c, Scan(c.stream), since)
  }

  /** The slot a state key of the room names. */
  function SlotOfKey(key: string, room: string): Option<Slot> {
    if !StartsWith(key, RoomPrefix(room)) then None
    else
      match SplitOnce(key[|room| + 1..], SEP)
      case Some((kind, stateKey)) => Some(Slot(kind, stateKey))
      case None => None
  }

  function StateOf(scan: seq<(string, string)>, room: string): map<Slot, EventId> {
    if scan == [] then map[]
    else
      var rest := StateOf(scan[..|scan| - 1], room);
      var (key, id) := scan[|scan| - 1];
      match SlotOfKey(key, room)
      case Some(slot) => if EventIdOk(id) then rest[slot := id] else rest
      case None => rest
  }

  function CurrentState(c: Rooms, room: string): map<Slot, EventId> {
    StateOf(Scan(c.state), room)
  }

  /** The events filling the slots, in slot order; an id without an event is left out. */
  function EventsOf(c: Rooms, room: string, slots: seq<Slot>, state: map<Slot, EventId>): seq<Pdu> {
    if slots == [] then []
    else
      var rest := EventsOf(c, room, slots[1..], state);
      if slots[0] !in state then rest
      else
        match EventOf(c, room, state[slots[0]])
        case Some(p) => [p] + rest
        case None => rest
  }

  function CurrentStatePdus(c: Rooms, room: string): seq<Pdu> {
    SlotLessIsStrictTotal();
    var state := CurrentState(c, room);
    EventsOf(c, room, Ascending(SlotLess, state.Keys), state)
  }

  // ---------------------------------------------------------------------------
  // Histories
  // ---------------------------------------------------------------------------

  /** The columns after a history of appends. */
  function After(h: seq<Pdu>): Rooms {
    if h == [] then NO_ROOMS else Append(After(h[..|h| - 1]), h[|h| - 1])
  }

  predicate Named(p: Pdu) {
    && RoomIdOk(p.roomId) && EventIdOk(p.eventId)
    && Clean(p.roomId) && Clean(p.eventId) && Clean(p.kind)
    && p.depth < U64_LIMIT
  }

  /** Separator-free names, and ids that determine events. */
  ghost predicate Sound(h: seq<Pdu>) {
    && |h| < U64_LIMIT
    && (forall p | p in h :: Named(p))
    && (forall p, q | p in h && q in h && p.eventId == q.eventId :: p == q)
  }

  function RoomEvents(h: seq<Pdu>, room: string): seq<Pdu> {
    if h == [] then []
    else
      RoomEvents(h[..|h| - 1], room) + if h[|h| - 1].roomId == room then [h[|h| - 1]] else []
  }

  lemma SoundPrefix(h: seq<Pdu>, n: nat)
    requires Sound(h) && n <= |h|
    ensures Sound(h[..n])
  {
    forall p | p in h[..n] ensures p in h {}
  }

  /** A prefix up to a separator decides the first field. */
  lemma PrefixDecides(room: string, other: string, rest: string)
    requires Clean(room) && Clean(other)
    ensures StartsWith(other + [SEP] + rest, RoomPrefix(room)) <==> other == room
  {
    var key := other + [SEP] + rest;
    SplitOnceAt(other, SEP, rest);
    if StartsWith(key, RoomPrefix(room)) {
      var tail := key[|room| + 1..];
      assert key == room + [SEP] + tail;
      SplitOnceAt(room, SEP, tail);
    }
    if other == room {
      assert key[..|room| + 1] == RoomPrefix(room);
    }
  }

  lemma PaddedIsClean(n: nat)
    ensures Clean(Padded(n))
  {
    assert !IsDigit(SEP);
  }

  /** Equal timeline keys name one event. */
  lemma TimelineKeysDiffer(p: Pdu, q: Pdu)
    requires Clean(p.roomId) && Clean(q.roomId) && TimelineKey(p) == TimelineKey(q)
    ensures p.roomId == q.roomId && p.eventId == q.eventId
  {
    hide Padded;
    SplitOnceAt(p.roomId, SEP, Padded(p.depth) + [SEP] + p.eventId);
    SplitOnceAt(q.roomId, SEP, Padded(q.depth) + [SEP] + q.eventId);
    PaddedIsClean(p.depth);
    PaddedIsClean(q.depth);
    SplitOnceAt(Padded(p.depth), SEP, p.eventId);
    SplitOnceAt(Padded(q.depth), SEP, q.eventId);
  }

  // ---------------------------------------------------------------------------
  // The events column
  // ---------------------------------------------------------------------------

  /** The column holds exactly the history's events, each under its own key. */
  ghost predicate Holds(events: map<string, Pdu>, h: seq<Pdu>) {
    && (forall p | p in h :: TimelineKey(p) in events && events[TimelineKey(p)] == p)
    && (forall k | k in events :: events[k] in h && TimelineKey(events[k]) == k)
  }

  lemma HoldsOneMore(events: map<string, Pdu>, h: seq<Pdu>, last: Pdu)
    requires Holds(events, h)
    requires forall p | p in h && TimelineKey(p) == TimelineKey(last) :: p == last
    ensures Holds(events[TimelineKey(last) := last], h + [last])
  {
    hide TimelineKey;
    assert forall p :: p in h + [last] <==> p in h || p == last;
  }

  lemma {:induction false} EventsHeld(h: seq<Pdu>)
    requires Sound(h)
    ensures Holds(After(h).events, h)
  {
    hide TimelineKey, Holds, Named;
    if h == [] {
      NothingHeld();
    } else {
      var init, last := h[..|h| - 1], h[|h| - 1];
      SoundPrefix(h, |h| - 1);
      EventsHeld(init);
      assert h == init + [last];
      forall p | p in init && TimelineKey(p) == TimelineKey(last) ensures p == last {
        assert p in h && last in h;
        NamedIsClean(p);
        NamedIsClean(last);
        TimelineKeysDiffer(p, last);
      }
      HoldsOneMore(After(init).events, init, last);
    }
  }

  lemma NothingHeld()
    ensures Holds(map[], [])
  {
  }

  lemma NamedIsClean(p: Pdu)
    requires Named(p)
    ensures Clean(p.roomId) && Clean(p.eventId) && Clean(p.kind) && EventIdOk(p.eventId)
  {
  }

  lemma {:induction false} WithPrefixIs(keys: seq<string>, events: map<string, Pdu>, prefix: string)
    ensures forall p :: p in WithPrefix(keys, events, prefix) <==>
      exists k | k in keys :: k in events && events[k] == p && StartsWith(k, prefix)
  {
    if keys != [] {
      WithPrefixIs(keys[1..], events, prefix);
      assert forall k :: k in keys <==> k == keys[0] || k in keys[1..];
      assert forall k | k in keys[1..] :: k in keys;
    }
  }

  /** Timeline order: by depth, then id. */
  predicate Earlier(p: Pdu, q: Pdu) {
    p.depth < q.depth || (p.depth == q.depth && StrLess(p.eventId, q.eventId))
  }

  /** Within a room, timeline keys sort by depth and then id. */
  lemma KeysSortByDepth(p: Pdu, q: Pdu)
    requires p.roomId == q.roomId && p.depth < PAD_LIMIT && q.depth < PAD_LIMIT
    ensures StrLess(TimelineKey(p), TimelineKey(q)) <==> Earlier(p, q)
  {
    hide Padded, StrLess;
    var a, b := Padded(p.depth), Padded(q.depth);
    assert TimelineKey(p) == RoomPrefix(p.roomId) + (a + [SEP] + p.eventId);
    assert TimelineKey(q) == RoomPrefix(q.roomId) + (b + [SEP] + q.eventId);
    StrLessOnSplit(RoomPrefix(p.roomId), RoomPrefix(q.roomId), a + [SEP] + p.eventId, b + [SEP] + q.eventId);
    StrLessTotal(RoomPrefix(p.roomId), RoomPrefix(p.roomId));
    assert a + [SEP] + p.eventId == a + ([SEP] + p.eventId) && b + [SEP] + q.eventId == b + ([SEP] + q.eventId);
    PaddedReadsBack(p.depth);
    PaddedReadsBack(q.depth);
    StrLessOnSplit(a, b, [SEP] + p.eventId, [SEP] + q.eventId);
    StrLessOnSplit([SEP], [SEP], p.eventId, q.eventId);
    StrLessTotal([SEP], [SEP]);
    PaddedOrder(p.depth, q.depth);
  }

  predicate KeysAscend(timeline: seq<Pdu>) {
    forall i, j | 0 <= i < j < |timeline| :: StrLess(TimelineKey(timeline[i]), TimelineKey(timeline[j]))
  }

  lemma {:induction false} WithPrefixAscends(keys: seq<string>, events: map<string, Pdu>, prefix: string)
    requires IsAscending(StrLess, keys) && forall k | k in keys && k in events :: TimelineKey(events[k]) == k
    ensures KeysAscend(WithPrefix(keys, events, prefix))
  {
    hide TimelineKey, StrLess;
    if keys != [] {
      assert forall k | k in keys[1..] :: k in keys;
      WithPrefixAscends(keys[1..], events, prefix);
      WithPrefixIs(keys[1..], events, prefix);
      var rest := WithPrefix(keys[1..], events, prefix);
      forall j | 0 <= j < |rest| ensures StrLess(keys[0], TimelineKey(rest[j])) {
        assert rest[j] in rest;
        var k :| k in keys[1..] && k in events && events[k] == rest[j];
        var i :| 1 <= i < |keys| && keys[i] == k;
      }
    }
  }

  lemma TimelineHolds(h: seq<Pdu>, room: string)
    requires Sound(h) && Clean(room)
    ensures forall p :: p in Timeline(After(h), room) <==> p in h && p.roomId == room
    ensures KeysAscend(Timeline(After(h), room))
  {
    hide Padded, WithPrefix, RoomPrefix, StrLess, Named;
    var events := After(h).events;
    EventsHeld(h);
    StrLessIsStrictTotal();
    AscendingIsSorted(StrLess, events.Keys);
    WithPrefixIs(EventKeys(events), events, RoomPrefix(room));
    WithPrefixAscends(EventKeys(events), events, RoomPrefix(room));
    forall p ensures p in Timeline(After(h), room) <==> p in h && p.roomId == room {
      if p in h {
        NamedIsClean(p);
        PrefixDecides(room, p.roomId, Padded(p.depth) + [SEP] + p.eventId);
        assert TimelineKey(p) in EventKeys(events);
      }
    }
  }

  /** The timeline of a room lists the room's part of the history, each event once, by depth and then id. */
  lemma TimelineIs(h: seq<Pdu>, room: string)
    requires Sound(h) && Clean(room)
    ensures forall p :: p in Timeline(After(h), room) <==> p in h && p.roomId == room
    ensures IsAscending(Earlier, Timeline(After(h), room)) && NoRepeats(Timeline(After(h), room))
  {
    hide Timeline, After, TimelineKey, Padded, Earlier, StrLess;
    TimelineHolds(h, room);
    var timeline := Timeline(After(h), room);
    forall i, j | 0 <= i < j < |timeline| ensures Earlier(timeline[i], timeline[j]) && timeline[i] != timeline[j] {
      assert timeline[i] in timeline && timeline[j] in timeline;
      KeysSortByDepth(timeline[i], timeline[j]);
      EarlierIsStrict(timeline[i], timeline[j]);
    }
  }

  lemma EarlierIsStrict(p: Pdu, q: Pdu)
    ensures !(Earlier(p, q) && Earlier(q, p)) && !Earlier(p, p)
  {
    StrLessTotal(p.eventId, q.eventId);
    StrLessTotal(p.eventId, p.eventId);
  }

  lemma {:induction false} SameListing(a: seq<Pdu>, b: seq<Pdu>)
    requires IsAscending(Earlier, a) && IsAscending(Earlier, b)
    requires forall p :: p in a <==> p in b
    ensures a == b
  {
    hide Earlier;
    if a == [] {
      NothingListed(b);
    } else {
      assert a[0] in b && b[0] in a;
      EarlierIsStrict(a[0], b[0]);
      assert a[0] == b[0];
      forall p ensures p in a[1..] <==> p in b[1..] {
        EarlierIsStrict(p, p);
        InTail(a, p);
        InTail(b, p);
      }
      SameListing(a[1..], b[1..]);
    }
  }

  lemma NothingListed(a: seq<Pdu>)
    ensures a == [] <==> forall p :: p !in a
  {
    if a != [] {
      assert a[0] in a;
    }
  }

  lemma InTail(a: seq<Pdu>, p: Pdu)
    requires a != [] && IsAscending(Earlier, a)
    ensures p in a[1..] <==> p in a && p != a[0]
  {
    hide Earlier;
    EarlierIsStrict(p, p);
    if p in a[1..] {
      var i :| 1 <= i < |a| && a[i] == p;
    }
  }

  /** It is the only such listing. */
  lemma TimelineIsUnique(h: seq<Pdu>, room: string, listing: seq<Pdu>)
    requires Sound(h) && Clean(room) && IsAscending(Earlier, listing)
    requires forall p :: p in listing <==> p in h && p.roomId == room
    ensures Timeline(After(h), room) == listing
  {
    hide Earlier;
    TimelineIs(h, room);
    SameListing(Timeline(After(h), room), listing);
  }

  lemma {:induction false} FindEventIs(timeline: seq<Pdu>, id: EventId)
    ensures FindEvent(timeline, id).Some? ==> FindEvent(timeline, id).value in timeline && FindEvent(timeline, id).value.eventId == id
    ensures FindEvent(timeline, id).None? ==> forall p | p in timeline :: p.eventId != id
  {
    if timeline != [] {
      FindEventIs(timeline[1..], id);
    }
  }

  /** An event of the history is found by its room and id. */
  lemma EventIsFound(h: seq<Pdu>, p: Pdu)
    requires Sound(h) && p in h
    ensures EventOf(After(h), p.roomId, p.eventId) == Some(p)
  {
    hide Timeline, FindEvent;
    var timeline := Timeline(After(h), p.roomId);
    FindEventIs(timeline, p.eventId);
    TimelineIs(h, p.roomId);
  }

  // ---------------------------------------------------------------------------
  // The stream
  // ---------------------------------------------------------------------------

  function StreamScan(h: seq<Pdu>): seq<(string, string)> {
    if h == [] then [] else StreamScan(h[..|h| - 1]) + [(Padded(|h| - 1), StreamEntry(h[|h| - 1]))]
  }

  lemma {:induction false} StreamIs(h: seq<Pdu>)
    requires |h| <= PAD_LIMIT
    ensures Numbered(After(h).stream) && |After(h).stream| == |h| && Scan(After(h).stream) == StreamScan(h)
  {
    hide Padded, Scan;
    if h == [] {
      EmptyScan();
    } else {
      StreamIs(h[..|h| - 1]);
      NumberedAppend(After(h[..|h| - 1]).stream, StreamEntry(h[|h| - 1]));
    }
  }

  lemma EmptyScan()
    ensures Scan(map[]) == [] && Numbered(map[])
  {
    SortedKeysAreKeys(map[]);
  }

  lemma ReferredIs(h: seq<Pdu>, p: Pdu)
    requires Sound(h) && p in h
    ensures Referred(After(h), StreamEntry(p)) == Some(p)
  {
    hide EventOf, RoomIdOk;
    SplitOnceAt(p.roomId, SEP, p.eventId);
    EventIsFound(h, p);
  }

  lemma PositionReadsBack(n: nat)
    requires n < U64_LIMIT
    ensures ParseU64(Padded(n)) == Some(n)
  {
    PaddedReadsBack(n);
    assert Padded(n) != "" by {
      assert |Padded(n)| == PAD_WIDTH;
    }
    assert IsDigit(Padded(n)[0]);
  }

  /** The events since a position are the history from there on. */
  lemma {:induction false} SinceIs(h: seq<Pdu>, part: seq<Pdu>, since: nat)
    requires Sound(h) && |part| <= |h| && part == h[..|part|]
    ensures Since(After(h), StreamScan(part), since) == From(part, since)
    decreases |part|
  {
    hide Referred, Padded, StreamEntry, ParseU64, Named, From, After;
    if part == [] {
      FromSnoc([], since);
    } else {
      var n := |part| - 1;
      var init := part[..n];
      assert init == h[..n] && part == init + [part[n]];
      SinceIs(h, init, since);
      PositionReadsBack(n);
      assert part[n] in h;
      ReferredIs(h, part[n]);
      StreamSnoc(part);
      FromSnoc(part, since);
    }
  }

  /** The history from a position on. */
  function From(h: seq<Pdu>, since: nat): seq<Pdu> {
    if since <= |h| then h[since..] else []
  }

  lemma FromSnoc(h: seq<Pdu>, since: nat)
    ensures h == [] ==> From(h, since) == []
    ensures h != [] ==> From(h, since) == From(h[..|h| - 1], since) + if since < |h| then [h[|h| - 1]] else []
  {
    if h != [] && since < |h| {
      assert h[..|h| - 1][since..] + [h[|h| - 1]] == h[since..];
    }
  }

  lemma StreamSnoc(h: seq<Pdu>)
    requires h != []
    ensures var scan := StreamScan(h);
      scan != [] && scan[..|scan| - 1] == StreamScan(h[..|h| - 1])
      && scan[|scan| - 1] == (Padded(|h| - 1), StreamEntry(h[|h| - 1]))
  {
    hide Padded;
  }

  lemma EventsSinceIs(h: seq<Pdu>, since: nat)
    requires Sound(h)
    ensures EventsSince(After(h), since) == From(h, since)
  {
    hide Since, StreamScan, Scan;
    StreamIs(h);
    assert h == h[..|h|];
    SinceIs(h, h, since);
  }

  // ---------------------------------------------------------------------------
  // Current state
  // ---------------------------------------------------------------------------

  /** The state of a room after a history: the last event of each slot. */
  function ServerState(h: seq<Pdu>, room: string): RoomState {
    StateAfter(RoomEvents(h, room))
  }

  lemma ServerStateStep(h: seq<Pdu>, p: Pdu, room: string)
    ensures ServerState(h + [p], room) == if p.roomId == room then AfterEvent(ServerState(h, room), p) else ServerState(h, room)
  {
    assert (h + [p])[..|h|] == h;
    var events := RoomEvents(h, room);
    if p.roomId == room {
      assert (events + [p])[..|events|] == events;
    } else {
      assert events + [] == events;
    }
  }

  lemma {:induction false} RoomEventsAre(h: seq<Pdu>, room: string)
    ensures forall p :: p in RoomEvents(h, room) <==> p in h && p.roomId == room
  {
    if h != [] {
      RoomEventsAre(h[..|h| - 1], room);
      assert forall p :: p in h <==> p in h[..|h| - 1] || p == h[|h| - 1];
    }
  }

  lemma {:induction false} StateHasEvents(h: seq<Pdu>)
    ensures forall s | s in StateAfter(h) :: StateAfter(h)[s] in h && SlotOf(StateAfter(h)[s]) == Some(s)
  {
    if h != [] {
      StateHasEvents(h[..|h| - 1]);
    }
  }

  lemma StateEventsAreHistory(h: seq<Pdu>, room: string)
    ensures forall s | s in ServerState(h, room) ::
      ServerState(h, room)[s] in h && ServerState(h, room)[s].roomId == room && SlotOf(ServerState(h, room)[s]) == Some(s)
  {
    StateHasEvents(RoomEvents(h, room));
    RoomEventsAre(h, room);
  }

  /** The state column of a room holds the id of the last event of each slot. */
  ghost predicate StateHeld(state: Column, h: seq<Pdu>, room: string) {
    forall slot: Slot | Clean(slot.kind) ::
      (StateKey(room, slot) in state <==> slot in ServerState(h, room)) &&
      (slot in ServerState(h, room) ==> state[StateKey(room, slot)] == ServerState(h, room)[slot].eventId)
  }

  lemma StateKeysDiffer(room: string, other: string, a: Slot, b: Slot)
    requires Clean(room) && Clean(other) && Clean(a.kind) && Clean(b.kind) && StateKey(room, a) == StateKey(other, b)
    ensures room == other && a == b
  {
    SplitOnceAt(room, SEP, a.kind + [SEP] + a.stateKey);
    SplitOnceAt(other, SEP, b.kind + [SEP] + b.stateKey);
    SplitOnceAt(a.kind, SEP, a.stateKey);
    SplitOnceAt(b.kind, SEP, b.stateKey);
  }

  lemma StateHeldOneMore(state: Column, h: seq<Pdu>, last: Pdu, room: string)
    requires StateHeld(state, h, room) && Clean(room) && Clean(last.roomId) && Clean(last.kind)
    ensures var state' := match SlotOf(last)
        case Some(slot) => state[StateKey(last.roomId, slot) := last.eventId]
        case None => state;
      StateHeld(state', h + [last], room)
  {
    hide StateKey, ServerState, Clean;
    ServerStateStep(h, last, room);
    if last.stateKey.Some? {
      var mine := Slot(last.kind, last.stateKey.value);
      forall slot: Slot | Clean(slot.kind) && StateKey(room, slot) == StateKey(last.roomId, mine)
        ensures slot == mine && last.roomId == room
      {
        StateKeysDiffer(room, last.roomId, slot, mine);
      }
    }
  }

  lemma {:induction false} StateIsHeld(h: seq<Pdu>, room: string)
    requires Sound(h) && Clean(room)
    ensures StateHeld(After(h).state, h, room)
  {
    hide StateKey, StateHeld, Named;
    if h == [] {
      NothingInState(room);
    } else {
      var init, last := h[..|h| - 1], h[|h| - 1];
      SoundPrefix(h, |h| - 1);
      StateIsHeld(init, room);
      assert h == init + [last] && last in h;
      NamedIsClean(last);
      StateHeldOneMore(After(init).state, init, last, room);
    }
  }

  lemma NothingInState(room: string)
    ensures StateHeld(map[], [], room)
  {
  }

  ghost predicate IsStateKey(k: string) {
    exists room: string, slot: Slot :: Clean(room) && Clean(slot.kind) && k == StateKey(room, slot)
  }

  /** Every state key of the column is some room's slot. */
  lemma {:induction false} StateKeysAreSlots(h: seq<Pdu>, k: string)
    requires Sound(h) && k in After(h).state
    ensures IsStateKey(k) && EventIdOk(After(h).state[k])
  {
    hide StateKey, EventIdOk;
    var init, last := h[..|h| - 1], h[|h| - 1];
    SoundPrefix(h, |h| - 1);
    if last.stateKey.Some? && k == StateKey(last.roomId, Slot(last.kind, last.stateKey.value)) {
      assert last in h && Clean(last.roomId);
      assert Clean(Slot(last.kind, last.stateKey.value).kind);
    } else {
      StateKeysAreSlots(init, k);
    }
  }

  lemma SlotReadsBack(room: string, other: string, slot: Slot)
    requires Clean(room) && Clean(other) && Clean(slot.kind)
    ensures SlotOfKey(StateKey(other, slot), room) == if other == room then Some(slot) else None
  {
    PrefixDecides(room, other, slot.kind + [SEP] + slot.stateKey);
    if other == room {
      assert StateKey(other, slot)[|room| + 1..] == slot.kind + [SEP] + slot.stateKey;
      SplitOnceAt(slot.kind, SEP, slot.stateKey);
    }
  }

  /** Scanning distinct keys, each slot gets the id under its own key. */
  ghost predicate Readable(scan: seq<(string, string)>, room: string) {
    && (forall i | 0 <= i < |scan| :: EventIdOk(scan[i].1))
    && (forall i, j | 0 <= i < j < |scan| && SlotOfKey(scan[i].0, room).Some? ::
          SlotOfKey(scan[i].0, room) != SlotOfKey(scan[j].0, room))
  }

  lemma {:induction false} StateOfIs(scan: seq<(string, string)>, room: string)
    requires Readable(scan, room)
    ensures forall slot :: slot in StateOf(scan, room) <==> exists i | 0 <= i < |scan| :: SlotOfKey(scan[i].0, room) == Some(slot)
    ensures forall i | 0 <= i < |scan| && SlotOfKey(scan[i].0, room).Some? ::
      var slot := SlotOfKey(scan[i].0, room).value; slot in StateOf(scan, room) && StateOf(scan, room)[slot] == scan[i].1
  {
    hide SlotOfKey, EventIdOk;
    if scan != [] {
      var init := scan[..|scan| - 1];
      StateOfIs(init, room);
      forall i | 0 <= i < |init| ensures scan[i] == init[i] {}
    }
  }

  lemma ScanReadable(h: seq<Pdu>, room: string)
    requires Sound(h) && Clean(room)
    ensures Readable(Scan(After(h).state), room)
  {
    hide StateKey, SlotOfKey, EventIdOk, After, StrLess;
    var state := After(h).state;
    var scan := Scan(state);
    SortedKeysAreKeys(state);
    forall i | 0 <= i < |scan| ensures IsStateKey(scan[i].0) && EventIdOk(scan[i].1) && scan[i].0 in state {
      StateKeysAreSlots(h, scan[i].0);
    }
    forall i, j | 0 <= i < j < |scan| && SlotOfKey(scan[i].0, room).Some?
      ensures SlotOfKey(scan[i].0, room) != SlotOfKey(scan[j].0, room)
    {
      SlotsDiffer(scan[i].0, scan[j].0, room);
      KeysDiffer(SortedKeys(state), i, j);
    }
  }

  lemma KeysDiffer(keys: seq<string>, i: nat, j: nat)
    requires i < j < |keys| && IsAscending(StrLess, keys)
    ensures keys[i] != keys[j]
  {
    StrLessTotal(keys[i], keys[j]);
  }

  lemma SlotsDiffer(a: string, b: string, room: string)
    requires IsStateKey(a) && IsStateKey(b) && Clean(room) && SlotOfKey(a, room).Some?
    ensures SlotOfKey(a, room) == SlotOfKey(b, room) ==> a == b
  {
    hide StateKey, SlotOfKey;
    var roomA: string, slotA: Slot :| Clean(roomA) && Clean(slotA.kind) && a == StateKey(roomA, slotA);
    var roomB: string, slotB: Slot :| Clean(roomB) && Clean(slotB.kind) && b == StateKey(roomB, slotB);
    SlotReadsBack(room, roomA, slotA);
    SlotReadsBack(room, roomB, slotB);
  }

  /** current_state is the map of each slot to the id of its last event. */
  lemma CurrentStateIs(h: seq<Pdu>, room: string)
    requires Sound(h) && Clean(room)
    ensures var state, server := CurrentState(After(h), room), ServerState(h, room);
      state.Keys == server.Keys && forall slot | slot in state :: state[slot] == server[slot].eventId
  {
    hide StateKey, SlotOfKey, EventIdOk, After, StrLess, ServerState, StateOf;
    var column := After(h).state;
    var scan := Scan(column);
    var state := CurrentState(After(h), room);
    SortedKeysAreKeys(column);
    ScanReadable(h, room);
    StateOfIs(scan, room);
    StateIsHeld(h, room);
    CleanSlots(h, room);
    forall slot: Slot ensures slot in state <==> slot in ServerState(h, room) {
      if slot in state {
        var i :| 0 <= i < |scan| && SlotOfKey(scan[i].0, room) == Some(slot);
        SlotNamesKey(h, scan[i].0, room, slot);
      }
      if slot in ServerState(h, room) {
        var k := StateKey(room, slot);
        assert k in SortedKeys(column);
        var i :| 0 <= i < |SortedKeys(column)| && SortedKeys(column)[i] == k;
        assert scan[i].0 == k;
        SlotReadsBack(room, room, slot);
      }
    }
    forall slot | slot in state ensures state[slot] == ServerState(h, room)[slot].eventId {
      var i :| 0 <= i < |scan| && SlotOfKey(scan[i].0, room) == Some(slot);
      SlotNamesKey(h, scan[i].0, room, slot);
    }
  }

  lemma CleanSlots(h: seq<Pdu>, room: string)
    requires Sound(h)
    ensures forall slot | slot in ServerState(h, room) :: Clean(slot.kind)
  {
    StateEventsAreHistory(h, room);
  }

  lemma SlotNamesKey(h: seq<Pdu>, k: string, room: string, slot: Slot)
    requires Sound(h) && Clean(room) && k in After(h).state && SlotOfKey(k, room) == Some(slot)
    ensures k == StateKey(room, slot) && Clean(slot.kind)
  {
    hide StateKey, SlotOfKey, EventIdOk;
    StateKeysAreSlots(h, k);
    var other: string, mine: Slot :| Clean(other) && Clean(mine.kind) && k == StateKey(other, mine);
    SlotReadsBack(room, other, mine);
  }

  lemma {:induction false} EventsOfAre(h: seq<Pdu>, room: string, slots: seq<Slot>, state: map<Slot, EventId>)
    requires Sound(h) && forall s | s in slots :: s in state && s in ServerState(h, room)
    requires forall s | s in state && s in ServerState(h, room) :: state[s] == ServerState(h, room)[s].eventId
    ensures EventsOf(After(h), room, slots, state) == EventsAt(slots, ServerState(h, room))
  {
    hide EventOf, ServerState, After;
    if slots != [] {
      EventsOfAre(h, room, slots[1..], state);
      StateEventsAreHistory(h, room);
      EventIsFound(h, ServerState(h, room)[slots[0]]);
    }
  }

  /** current_state_pdus is the server's state of the room, in slot order. */
  lemma CurrentStatePdusAre(h: seq<Pdu>, room: string)
    requires Sound(h) && Clean(room)
    ensures CurrentStatePdus(After(h), room) == StateEvents(ServerState(h, room))
  {
    hide CurrentState, ServerState, After, SlotLess;
    CurrentStateIs(h, room);
    SlotLessIsStrictTotal();
    var state := CurrentState(After(h), room);
    AscendingIsSorted(SlotLess, state.Keys);
    EventsOfAre(h, room, Ascending(SlotLess, state.Keys), state);
  }

  // ---------------------------------------------------------------------------
  // The service object
  // ---------------------------------------------------------------------------

  class RoomService {
    var events: map<string, Pdu>
    var state: Column
    var stream: Column
    ghost var history: seq<Pdu>

    ghost predicate Valid()
      reads this
    {
      Snapshot() == After(history)
    }

    ghost function Snapshot(): Rooms
      reads this
    {
      Rooms(events, state, stream)
    }

    constructor ()
      ensures Valid() && history == []
    {
      events := map[];
      state := map[];
      stream := map[];
      history := [];
    }

    /** append: three writes; the stream position is read back as the stream's size. */
    method Record(p: Pdu)
      requires Valid()
      modifies this
      ensures Valid() && history == old(history) + [p]
    {
      hide Padded;
      events := events[TimelineKey(p) := p];
      match SlotOf(p) {
        case Some(slot) => state := state[StateKey(p.roomId, slot) := p.eventId];
        case None =>
      }
      var position := |stream|;
      stream := stream[Padded(position) := StreamEntry(p)];
      history := history + [p];
      assert history[..|history| - 1] == old(history);
    }

    /** current_state: the scan, key by key. */
    method StateIn(room: string) returns (slots: map<Slot, EventId>)
      requires Valid() && Sound(history) && Clean(room)
      ensures slots.Keys == ServerState(history, room).Keys
      ensures forall slot | slot in slots :: slots[slot] == ServerState(history, room)[slot].eventId
    {
      hide SlotOfKey, EventIdOk, Scan, After;
      slots := map[];
      var scan := Scan(state);
      for i := 0 to |scan|
        invariant slots == StateOf(scan[..i], room)
      {
        assert scan[..i + 1][..i] == scan[..i];
        var slot := SlotOfKey(scan[i].0, room);
        if slot.Some? && EventIdOk(scan[i].1) {
          slots := slots[slot.value := scan[i].1];
        }
      }
      assert scan[..|scan|] == scan;
      CurrentStateIs(history, room);
    }

    /** events_since: the stream from a position, each entry looked up in its room's timeline. */
    method EventsFrom(since: nat) returns (delta: seq<Pdu>)
      requires Valid() && Sound(history)
      ensures delta == From(history, since)
    {
      hide Referred, ParseU64, Scan, After;
      delta := [];
      var scan := Scan(stream);
      for i := 0 to |scan|
        invariant delta == Since(Snapshot(), scan[..i], since)
      {
        assert scan[..i + 1][..i] == scan[..i];
        var position := ParseU64(scan[i].0);
        if position.Some? && position.value >= since {
          var p := Referred(Rooms(events, state, stream), scan[i].1);
          if p.Some? {
            delta := delta + [p.value];
          }
        }
      }
      assert scan[..|scan|] == scan;
      EventsSinceIs(history, since);
    }
  }
}
