/**
 Concurrent writers of one locally created room. Each thread's send or membership change is a
 sequence of steps, interleaved in any order; the room's lock is held from reading the tip to the
 last write. The timeline and the state a writer reads are those of RoomStore's columns.
 */
module RoomWriters {
  import opened Audit
  import opened Auth
  import opened Columns
  import opened Events
  import opened InviteChain
  import J = Json
  import opened Orders
  import opened RoomStore
  import opened Text

  /** The reference hash of an event. */
  type RefHash = Pdu -> EventId

  // ---------------------------------------------------------------------------
  // The timeline of a room, in key order
  // ---------------------------------------------------------------------------

  function TipIds(timeline: seq<Pdu>): seq<EventId> {
    if timeline == [] then [] else [timeline[|timeline| - 1].eventId]
  }

  function NextDepth(timeline: seq<Pdu>): nat {
    if timeline == [] then 1 else timeline[|timeline| - 1].depth + 1
  }

  /** Depths exactly 1 to n, each event citing exactly the one before it. */
  predicate Linear(timeline: seq<Pdu>) {
    forall i | 0 <= i < |timeline| :: timeline[i].depth == i + 1 && timeline[i].prevEvents == TipIds(timeline[..i])
  }

  /** An event at the next depth goes to the end of the key order. */
  lemma {:induction false} InsertAtEnd(timeline: seq<Pdu>, p: Pdu)
    requires forall q | q in timeline :: q.depth < p.depth
    ensures Insert(Earlier, p, timeline) == timeline + [p]
  {
    if timeline != [] {
      assert timeline[0] in timeline;
      assert forall q | q in timeline[1..] :: q in timeline;
      InsertAtEnd(timeline[1..], p);
      assert timeline + [p] == [timeline[0]] + (timeline[1..] + [p]);
    }
  }

  lemma LinearGrows(timeline: seq<Pdu>, p: Pdu)
    requires Linear(timeline) && p.depth == NextDepth(timeline) && p.prevEvents == TipIds(timeline)
    ensures Linear(timeline + [p]) && Insert(Earlier, p, timeline) == timeline + [p]
  {
    InsertAtEnd(timeline, p);
    var longer := timeline + [p];
    forall i | 0 <= i < |longer| ensures longer[i].depth == i + 1 && longer[i].prevEvents == TipIds(longer[..i]) {
      if i < |timeline| {
        assert longer[..i] == timeline[..i];
      } else {
        assert longer[..i] == timeline;
      }
    }
  }

  // ---------------------------------------------------------------------------
  // Creating the room
  // ---------------------------------------------------------------------------

  const PLACEHOLDER := "$pending"

  /** An event with its id, the reference hash of the rest. */
  function Build(hash: RefHash, room: string, sender: string, kind: string, stateKey: Option<string>, content: string,
                 ts: nat, depth: nat, prev: seq<EventId>): Pdu {
    var draft := Pdu(PLACEHOLDER, room, sender, kind, stateKey, ts, depth, prev, [], content);
    draft.(eventId := hash(draft))
  }

  /** The content with one string member. */
  function SingleField(field: string, value: string): string {
    J.Print(J.Object([J.Member(field, J.Str(value))]))
  }

  datatype NewState = NewState(kind: string, stateKey: string, content: string, ts: nat)

  /** The initial state events of a room, one on top of the other. */
  function Created(hash: RefHash, room: string, creator: string, initial: seq<NewState>): seq<Pdu> {
    if initial == [] then []
    else
      var n := |initial| - 1;
      var before := Created(hash, room, creator, initial[..n]);
      var e := initial[n];
      before + [Build(hash, room, creator, e.kind, Some(e.stateKey), e.content, e.ts, n + 1, TipIds(before))]
  }

  predicate IsInitial(p: Pdu, room: string, creator: string, e: NewState) {
    p.roomId == room && p.sender == creator && SlotOf(p) == Some(Slot(e.kind, e.stateKey)) && p.contentJson == e.content
  }

  lemma {:induction false} CreatedIs(hash: RefHash, room: string, creator: string, initial: seq<NewState>)
    ensures var timeline := Created(hash, room, creator, initial);
      && |timeline| == |initial| && Linear(timeline)
      && forall i | 0 <= i < |initial| :: IsInitial(timeline[i], room, creator, initial[i])
  {
    hide Linear, Insert;
    if initial == [] {
      NothingIsLinear();
    } else {
      var n := |initial| - 1;
      var before := Created(hash, room, creator, initial[..n]);
      var e := initial[n];
      CreatedIs(hash, room, creator, initial[..n]);
      NextDepthIs(before);
      LinearGrows(before, Build(hash, room, creator, e.kind, Some(e.stateKey), e.content, e.ts, n + 1, TipIds(before)));
      forall i | 0 <= i < n ensures IsInitial(before[i], room, creator, initial[i]) {
        assert initial[..n][i] == initial[i];
      }
    }
  }

  lemma NothingIsLinear()
    ensures Linear([])
  {
  }

  lemma NextDepthIs(timeline: seq<Pdu>)
    requires Linear(timeline)
    ensures NextDepth(timeline) == |timeline| + 1
  {
  }

  /** create_room: writes the initial state events, each linked to the one before it. */
  method CreateRoom(hash: RefHash, room: string, creator: string, initial: seq<NewState>) returns (timeline: seq<Pdu>)
    ensures timeline == Created(hash, room, creator, initial)
    ensures |timeline| == |initial| && Linear(timeline)
    ensures forall i | 0 <= i < |initial| :: IsInitial(timeline[i], room, creator, initial[i])
  {
    hide Linear, IsInitial, Build;
    timeline := [];
    var prev: seq<EventId> := [];
    for i := 0 to |initial|
      invariant |timeline| == i && prev == TipIds(timeline)
      invariant timeline == Created(hash, room, creator, initial[..i])
    {
      var e := initial[i];
      assert initial[..i + 1][..i] == initial[..i];
      var p := Build(hash, room, creator, e.kind, Some(e.stateKey), e.content, e.ts, i + 1, prev);
      timeline := timeline + [p];
      prev := [p.eventId];
    }
    assert initial[..|initial|] == initial;
    CreatedIs(hash, room, creator, initial);
  }

  // ---------------------------------------------------------------------------
  // Writers
  // ---------------------------------------------------------------------------

  datatype Request =
    | Message(sender: string, kind: string, content: string, txnId: string)
    | Membership(actor: string, target: string, membership: string)

  datatype Phase =
    | Idle
    | Checked(req: Request)
    | Locked(req: Request)
    | Linked(req: Request, event: Pdu)
    | Accepted(req: Request, event: Pdu)
    | Stored(req: Request, event: Pdu)
    | Applied(req: Request, event: Pdu)
    | Recorded

  datatype State = State(
    lock: Option<nat>,
    threads: map<nat, Phase>,
    timeline: seq<Pdu>,
    state: RoomState,
    txns: map<(string, string), EventId>)

  /** What a thread does when it is scheduled; the request is used when it is idle. */
  datatype Turn = Turn(thread: nat, req: Request, ts: nat)

  function PhaseOf(s: State, t: nat): Phase {
    if t in s.threads then s.threads[t] else Idle
  }

  function To(s: State, t: nat, phase: Phase): State {
    s.(threads := s.threads[t := phase])
  }

  function Event(hash: RefHash, room: string, req: Request, ts: nat, depth: nat, prev: seq<EventId>): Pdu {
    match req
    case Message(sender, kind, content, _) => Build(hash, room, sender, kind, None, content, ts, depth, prev)
    case Membership(actor, target, membership) =>
      Build(hash, room, actor, ROOM_MEMBER, Some(target), SingleField("membership", membership), ts, depth, prev)
  }

  /** The transaction check, before the lock: a known transaction answers at once. */
  function Start(s: State, t: nat, req: Request): State {
    if req.Message? && (req.sender, req.txnId) in s.txns then s else To(s, t, Checked(req))
  }

  function Next(hash: RefHash, sig: SigCheck, room: string, s: State, turn: Turn): State {
    var t := turn.thread;
    match PhaseOf(s, t)
    case Idle => Start(s, t, turn.req)
    case Checked(req) => if s.lock == None then To(s, t, Locked(req)).(lock := Some(t)) else s
    case Locked(req) =>
      To(s, t, Linked(req, Event(hash, room, req, turn.ts, NextDepth(s.timeline), TipIds(s.timeline))))
    case Linked(req, p) =>
      if CheckAuth(p, StateEvents(s.state), sig).Ok? then To(s, t, Accepted(req, p)) else To(s, t, Idle).(lock := None)
    case Accepted(req, p) => To(s, t, Stored(req, p)).(timeline := Insert(Earlier, p, s.timeline))
    case Stored(req, p) => To(s, t, Applied(req, p)).(state := AfterEvent(s.state, p))
    case Applied(req, p) =>
      To(s, t, Recorded).(txns := if req.Message? then s.txns[(req.sender, req.txnId) := p.eventId] else s.txns)
    case Recorded => To(s, t, Idle).(lock := None)
  }

  function Run(hash: RefHash, sig: SigCheck, room: string, s: State, schedule: seq<Turn>): State
    decreases |schedule|
  {
    if schedule == [] then s else Run(hash, sig, room, Next(hash, sig, room, s, schedule[0]), schedule[1..])
  }

  // ---------------------------------------------------------------------------
  // The invariant
  // ---------------------------------------------------------------------------

  predicate Critical(phase: Phase) {
    !phase.Idle? && !phase.Checked?
  }

  /** Exactly the thread that holds the lock is between taking and releasing it. */
  ghost predicate Exclusive(s: State) {
    forall t: nat :: Critical(PhaseOf(s, t)) <==> s.lock == Some(t)
  }

  function HolderPhase(s: State): Phase {
    match s.lock
    case Some(t) => PhaseOf(s, t)
    case None => Idle
  }

  /** How the room stands, given how far the lock's holder has got. */
  ghost predicate RoomStands(timeline: seq<Pdu>, state: RoomState, phase: Phase) {
    && Linear(timeline)
    && (match phase
        case Linked(_, p) => p.depth == NextDepth(timeline) && p.prevEvents == TipIds(timeline)
        case Accepted(_, p) => p.depth == NextDepth(timeline) && p.prevEvents == TipIds(timeline)
        case Stored(_, p) => timeline != [] && timeline[|timeline| - 1] == p
        case _ => true)
    && state == StateAfter(if phase.Stored? && timeline != [] then timeline[..|timeline| - 1] else timeline)
  }

  /** Everything after the room's creation passed the rules against the state before it. */
  ghost predicate Admitted(sig: SigCheck, timeline: seq<Pdu>, created: nat) {
    forall i | created <= i < |timeline| :: CheckAuth(timeline[i], StateEvents(StateAfter(timeline[..i])), sig).Ok?
  }

  ghost predicate Passed(sig: SigCheck, timeline: seq<Pdu>, phase: Phase) {
    phase.Accepted? ==> CheckAuth(phase.event, StateEvents(StateAfter(timeline)), sig).Ok?
  }

  ghost predicate Inv(sig: SigCheck, s: State, first: seq<Pdu>) {
    && Exclusive(s)
    && RoomStands(s.timeline, s.state, HolderPhase(s))
    && first <= s.timeline
    && Admitted(sig, s.timeline, |first|)
    && Passed(sig, s.timeline, HolderPhase(s))
  }

  lemma AdmittedGrows(sig: SigCheck, timeline: seq<Pdu>, created: nat, p: Pdu)
    requires Admitted(sig, timeline, created) && CheckAuth(p, StateEvents(StateAfter(timeline)), sig).Ok?
    ensures Admitted(sig, timeline + [p], created)
  {
    hide CheckAuth, StateEvents, StateAfter;
    var longer := timeline + [p];
    forall i | created <= i < |longer| ensures CheckAuth(longer[i], StateEvents(StateAfter(longer[..i])), sig).Ok? {
      if i < |timeline| {
        assert longer[..i] == timeline[..i];
      } else {
        assert longer[..i] == timeline;
      }
    }
  }

  lemma StateGrows(timeline: seq<Pdu>, p: Pdu)
    ensures StateAfter(timeline + [p]) == AfterEvent(StateAfter(timeline), p)
  {
    assert (timeline + [p])[..|timeline|] == timeline;
  }

  /** A thread outside the lock changes nothing of the room. */
  lemma OutsideTurn(hash: RefHash, sig: SigCheck, room: string, s: State, turn: Turn, first: seq<Pdu>)
    requires Inv(sig, s, first) && !Critical(PhaseOf(s, turn.thread))
    ensures Inv(sig, Next(hash, sig, room, s, turn), first)
  {
    hide RoomStands, Admitted, CheckAuth;
    var s' := Next(hash, sig, room, s, turn);
    assert forall t: nat | t != turn.thread :: PhaseOf(s', t) == PhaseOf(s, t);
    if PhaseOf(s, turn.thread).Checked? && s.lock == None {
      Relock(s.timeline, s.state, PhaseOf(s', turn.thread));
    }
  }

  lemma Relock(timeline: seq<Pdu>, state: RoomState, phase: Phase)
    requires RoomStands(timeline, state, Idle) && (phase.Locked? || phase.Idle? || phase.Recorded?)
    ensures RoomStands(timeline, state, phase)
  {
    hide Linear, StateAfter;
  }

  /** Only the thread's own phase changes, and the lock is freed exactly when it goes idle. */
  ghost predicate HoldsOn(s: State, s': State, t: nat) {
    && s'.threads == s.threads[t := PhaseOf(s', t)]
    && s'.lock == (if PhaseOf(s', t).Idle? then None else s.lock)
    && !PhaseOf(s', t).Checked?
  }

  lemma ReaderHoldsOn(hash: RefHash, sig: SigCheck, room: string, s: State, turn: Turn)
    requires var phase := PhaseOf(s, turn.thread); phase.Locked? || phase.Linked?
    ensures HoldsOn(s, Next(hash, sig, room, s, turn), turn.thread)
  {
    hide CheckAuth, StateEvents, Event, NextDepth, TipIds;
  }

  lemma WriterHoldsOn(hash: RefHash, sig: SigCheck, room: string, s: State, turn: Turn)
    requires var phase := PhaseOf(s, turn.thread); phase.Accepted? || phase.Stored?
    ensures HoldsOn(s, Next(hash, sig, room, s, turn), turn.thread)
  {
    hide Insert, AfterEvent;
  }

  lemma FinisherHoldsOn(hash: RefHash, sig: SigCheck, room: string, s: State, turn: Turn)
    requires var phase := PhaseOf(s, turn.thread); phase.Applied? || phase.Recorded?
    ensures HoldsOn(s, Next(hash, sig, room, s, turn), turn.thread)
  {
  }

  /** The holder keeps the lock until it goes idle, and nobody else gets it. */
  lemma HolderStaysAlone(hash: RefHash, sig: SigCheck, room: string, s: State, turn: Turn)
    requires Exclusive(s) && Critical(PhaseOf(s, turn.thread))
    ensures Exclusive(Next(hash, sig, room, s, turn))
    ensures var s' := Next(hash, sig, room, s, turn);
      HolderPhase(s) == PhaseOf(s, turn.thread) && HolderPhase(s') == PhaseOf(s', turn.thread)
  {
    hide Next;
    var phase := PhaseOf(s, turn.thread);
    if phase.Locked? || phase.Linked? {
      ReaderHoldsOn(hash, sig, room, s, turn);
    } else if phase.Accepted? || phase.Stored? {
      WriterHoldsOn(hash, sig, room, s, turn);
    } else {
      FinisherHoldsOn(hash, sig, room, s, turn);
    }
    assert s.lock == Some(turn.thread);
  }

  /** What the holder's step does to the room. */
  ghost predicate RoomInv(sig: SigCheck, s: State, first: seq<Pdu>, phase: Phase) {
    && RoomStands(s.timeline, s.state, phase)
    && first <= s.timeline
    && Admitted(sig, s.timeline, |first|)
    && Passed(sig, s.timeline, phase)
  }

  lemma WriteTurn(hash: RefHash, sig: SigCheck, room: string, s: State, turn: Turn, first: seq<Pdu>)
    requires var phase := PhaseOf(s, turn.thread); (phase.Accepted? || phase.Stored?) && RoomInv(sig, s, first, phase)
    ensures var s' := Next(hash, sig, room, s, turn); RoomInv(sig, s', first, PhaseOf(s', turn.thread))
  {
    hide Linear, StateAfter, StateEvents, CheckAuth, Insert, Admitted, AfterEvent, NextDepth, TipIds, Event;
    match PhaseOf(s, turn.thread)
    case Accepted(req, p) =>
      LinearGrows(s.timeline, p);
      AdmittedGrows(sig, s.timeline, |first|, p);
      assert (s.timeline + [p])[..|s.timeline|] == s.timeline;
    case Stored(req, p) =>
      assert s.timeline == s.timeline[..|s.timeline| - 1] + [p];
      StateGrows(s.timeline[..|s.timeline| - 1], p);
  }

  lemma ReadTurn(hash: RefHash, sig: SigCheck, room: string, s: State, turn: Turn, first: seq<Pdu>)
    requires var phase := PhaseOf(s, turn.thread);
      Critical(phase) && !phase.Accepted? && !phase.Stored? && RoomInv(sig, s, first, phase)
    ensures var s' := Next(hash, sig, room, s, turn); RoomInv(sig, s', first, PhaseOf(s', turn.thread))
  {
    hide Linear, StateAfter, StateEvents, CheckAuth, Insert, Admitted, AfterEvent, NextDepth, TipIds, Event;
    if PhaseOf(s, turn.thread).Locked? {
      EventLinks(hash, room, PhaseOf(s, turn.thread).req, turn.ts, NextDepth(s.timeline), TipIds(s.timeline));
    }
  }

  lemma HolderTurn(hash: RefHash, sig: SigCheck, room: string, s: State, turn: Turn, first: seq<Pdu>)
    requires Inv(sig, s, first) && Critical(PhaseOf(s, turn.thread))
    ensures Inv(sig, Next(hash, sig, room, s, turn), first)
  {
    hide Next, Critical, Exclusive, RoomStands, Admitted, Passed, HolderPhase, PhaseOf;
    HolderStaysAlone(hash, sig, room, s, turn);
    var phase := PhaseOf(s, turn.thread);
    if phase.Accepted? || phase.Stored? {
      WriteTurn(hash, sig, room, s, turn, first);
    } else {
      ReadTurn(hash, sig, room, s, turn, first);
    }
  }

  lemma EventLinks(hash: RefHash, room: string, req: Request, ts: nat, depth: nat, prev: seq<EventId>)
    ensures var p := Event(hash, room, req, ts, depth, prev); p.depth == depth && p.prevEvents == prev
  {
  }

  lemma {:induction false} RunKeepsInv(hash: RefHash, sig: SigCheck, room: string, s: State, schedule: seq<Turn>, first: seq<Pdu>)
    requires Inv(sig, s, first)
    ensures Inv(sig, Run(hash, sig, room, s, schedule), first)
    decreases |schedule|
  {
    hide Inv, Next, Critical;
    if schedule != [] {
      if Critical(PhaseOf(s, schedule[0].thread)) {
        HolderTurn(hash, sig, room, s, schedule[0], first);
      } else {
        OutsideTurn(hash, sig, room, s, schedule[0], first);
      }
      RunKeepsInv(hash, sig, room, Next(hash, sig, room, s, schedule[0]), schedule[1..], first);
    }
  }

  function Opened(first: seq<Pdu>): State {
    State(None, map[], first, StateAfter(first), map[])
  }

  /**
   In every interleaving of writers on a created room the timeline stays linear, extends the room's
   creation, and holds only events the rules allowed; whenever the lock is free the state is that
   of the timeline.
   */
  lemma EveryInterleavingIsLinear(hash: RefHash, sig: SigCheck, room: string, first: seq<Pdu>, schedule: seq<Turn>)
    requires Linear(first)
    ensures var s := Run(hash, sig, room, Opened(first), schedule);
      && Linear(s.timeline) && first <= s.timeline
      && Admitted(sig, s.timeline, |first|)
      && (s.lock == None ==> s.state == StateAfter(s.timeline))
  {
    hide Run, Linear, StateAfter, Admitted;
    OpenedStands(sig, first);
    RunKeepsInv(hash, sig, room, Opened(first), schedule, first);
  }

  lemma OpenedStands(sig: SigCheck, first: seq<Pdu>)
    requires Linear(first)
    ensures Inv(sig, Opened(first), first)
  {
    hide Linear, StateAfter, CheckAuth, StateEvents;
  }

  /** So the invite-chain law holds of every such room whose creation the rules allow. */
  lemma EveryInterleavingIsAuthorized(hash: RefHash, sig: SigCheck, room: string, first: seq<Pdu>, schedule: seq<Turn>)
    requires Linear(first) && Authorized(first, sig)
    ensures Authorized(Run(hash, sig, room, Opened(first), schedule).timeline, sig)
  {
    hide Run, Linear, StateAfter, CheckAuthIn, StateEvents, ViewOf;
    EveryInterleavingIsLinear(hash, sig, room, first, schedule);
    var timeline := Run(hash, sig, room, Opened(first), schedule).timeline;
    forall i | 0 <= i < |timeline| ensures CheckAuthIn(timeline[i], ViewAt(timeline[..i]), sig).Ok? {
      if i < |first| {
        assert timeline[i] == first[i] && timeline[..i] == first[..i];
      } else {
        assert CheckAuth(timeline[i], StateEvents(StateAfter(timeline[..i])), sig).Ok?;
      }
    }
  }

  // ---------------------------------------------------------------------------
  // The columns under the run
  // ---------------------------------------------------------------------------

  lemma LinearAscends(timeline: seq<Pdu>)
    requires Linear(timeline)
    ensures IsAscending(Earlier, timeline)
  {
  }

  /**
   When a writer reads, the columns left by any history whose events of this room are the timeline
   give it that timeline and that state.
   */
  lemma ReadsAreOfColumns(sig: SigCheck, s: State, first: seq<Pdu>, h: seq<Pdu>, room: string)
    requires Inv(sig, s, first) && !HolderPhase(s).Stored?
    requires Sound(h) && Clean(room) && RoomEvents(h, room) == s.timeline
    ensures Timeline(After(h), room) == s.timeline
    ensures CurrentStatePdus(After(h), room) == StateEvents(s.state)
  {
    hide Earlier, After, Timeline, CurrentStatePdus, StateEvents, StateAfter, Admitted, Passed, Exclusive, Linear;
    LinearAscends(s.timeline);
    RoomEventsAre(h, room);
    TimelineIsUnique(h, room, s.timeline);
    CurrentStatePdusAre(h, room);
  }

  /** An event as the writers build it: of this room, of a separator-free type, its id the hash of the rest. */
  predicate MintedBy(hash: RefHash, room: string, p: Pdu) {
    p.roomId == room && Clean(p.kind) && p.eventId == hash(p.(eventId := PLACEHOLDER))
  }

  predicate CleanRequest(req: Request) {
    req.Message? ==> Clean(req.kind)
  }

  predicate PhaseMinted(hash: RefHash, room: string, phase: Phase) {
    && (phase.Checked? || phase.Locked? ==> CleanRequest(phase.req))
    && (phase.Linked? || phase.Accepted? ==> MintedBy(hash, room, phase.event))
  }

  /** Every event written or about to be written is so built. */
  ghost predicate AllMinted(hash: RefHash, room: string, s: State) {
    && (forall p | p in s.timeline :: MintedBy(hash, room, p))
    && (forall t | t in s.threads :: PhaseMinted(hash, room, s.threads[t]))
  }

  lemma {:induction false} InsertMembers(p: Pdu, timeline: seq<Pdu>)
    ensures forall q :: q in Insert(Earlier, p, timeline) <==> q == p || q in timeline
  {
    hide Earlier;
    if timeline != [] {
      InsertMembers(p, timeline[1..]);
      assert forall q :: q in timeline <==> q == timeline[0] || q in timeline[1..];
    }
  }

  lemma {:induction false} InsertLength(p: Pdu, timeline: seq<Pdu>)
    ensures |Insert(Earlier, p, timeline)| == |timeline| + 1
  {
    hide Earlier;
    if timeline != [] {
      InsertLength(p, timeline[1..]);
    }
  }

  lemma BuiltIsMinted(hash: RefHash, room: string, req: Request, ts: nat, depth: nat, prev: seq<EventId>)
    requires CleanRequest(req)
    ensures MintedBy(hash, room, Event(hash, room, req, ts, depth, prev))
  {
    assert SEP !in ROOM_MEMBER;
  }

  lemma TurnStaysMinted(hash: RefHash, sig: SigCheck, room: string, s: State, turn: Turn)
    requires AllMinted(hash, room, s) && CleanRequest(turn.req)
    ensures AllMinted(hash, room, Next(hash, sig, room, s, turn))
    ensures |Next(hash, sig, room, s, turn).timeline| <= |s.timeline| + 1
  {
    hide CheckAuth, StateEvents, Insert, AfterEvent, NextDepth, TipIds, Event, MintedBy;
    var phase := PhaseOf(s, turn.thread);
    if phase.Locked? {
      assert PhaseMinted(hash, room, phase);
      BuiltIsMinted(hash, room, phase.req, turn.ts, NextDepth(s.timeline), TipIds(s.timeline));
    } else if phase.Accepted? {
      InsertMembers(phase.event, s.timeline);
      InsertLength(phase.event, s.timeline);
    }
  }

  lemma {:induction false} RunStaysMinted(hash: RefHash, sig: SigCheck, room: string, s: State, schedule: seq<Turn>)
    requires AllMinted(hash, room, s) && forall turn | turn in schedule :: CleanRequest(turn.req)
    ensures AllMinted(hash, room, Run(hash, sig, room, s, schedule))
    ensures |Run(hash, sig, room, s, schedule).timeline| <= |s.timeline| + |schedule|
    decreases |schedule|
  {
    hide AllMinted, Next, CleanRequest;
    if schedule != [] {
      TurnStaysMinted(hash, sig, room, s, schedule[0]);
      RunStaysMinted(hash, sig, room, Next(hash, sig, room, s, schedule[0]), schedule[1..]);
    }
  }

  lemma {:induction false} OwnEventsOnly(h: seq<Pdu>, room: string)
    requires forall p | p in h :: p.roomId == room
    ensures RoomEvents(h, room) == h
  {
    if h != [] {
      OwnEventsOnly(h[..|h| - 1], room);
    }
  }

  /** The hash gives valid, separator-free ids, and different ones to different events. */
  ghost predicate GoodHash(hash: RefHash) {
    && (forall p: Pdu :: EventIdOk(hash(p)) && Clean(hash(p)))
    && (forall p: Pdu, q: Pdu :: hash(p) == hash(q) ==> p == q)
  }

  lemma MintedIdsDecide(hash: RefHash, room: string, p: Pdu, q: Pdu)
    requires GoodHash(hash) && MintedBy(hash, room, p) && MintedBy(hash, room, q) && p.eventId == q.eventId
    ensures p == q
  {
    assert p.(eventId := PLACEHOLDER) == q.(eventId := PLACEHOLDER);
  }

  /** A linear timeline of events so built is a history the columns can hold. */
  lemma MintedIsSound(hash: RefHash, room: string, timeline: seq<Pdu>)
    requires GoodHash(hash) && RoomIdOk(room) && Clean(room)
    requires Linear(timeline) && |timeline| + 1 < U64_LIMIT && forall p | p in timeline :: MintedBy(hash, room, p)
    ensures Sound(timeline)
  {
    hide RoomIdOk;
    forall p | p in timeline ensures Named(p) {
      assert MintedBy(hash, room, p);
      var i :| 0 <= i < |timeline| && timeline[i] == p;
    }
    forall p, q | p in timeline && q in timeline && p.eventId == q.eventId ensures p == q {
      MintedIdsDecide(hash, room, p, q);
    }
  }

  /**
   In every interleaving of well-formed requests, whenever the lock is free, the columns written so
   far hold the run's timeline in key order and its state in slot order.
   */
  lemma EveryInterleavingIsStored(hash: RefHash, sig: SigCheck, room: string, first: seq<Pdu>, schedule: seq<Turn>)
    requires GoodHash(hash) && RoomIdOk(room) && Clean(room)
    requires Linear(first) && forall p | p in first :: MintedBy(hash, room, p)
    requires forall turn | turn in schedule :: CleanRequest(turn.req)
    requires |first| + |schedule| + 1 < U64_LIMIT
    ensures var s := Run(hash, sig, room, Opened(first), schedule);
      && Sound(s.timeline)
      && (s.lock == None ==>
            Timeline(After(s.timeline), room) == s.timeline && CurrentStatePdus(After(s.timeline), room) == StateEvents(s.state))
  {
    hide Run, Linear, Sound, Timeline, CurrentStatePdus, StateEvents, After, StateAfter, Inv, RoomEvents, RoomIdOk,
         GoodHash, CleanRequest, Clean;
    var s := Run(hash, sig, room, Opened(first), schedule);
    OpenedStands(sig, first);
    RunKeepsInv(hash, sig, room, Opened(first), schedule, first);
    RunStaysMinted(hash, sig, room, Opened(first), schedule);
    EveryInterleavingIsLinear(hash, sig, room, first, schedule);
    MintedIsSound(hash, room, s.timeline);
    OwnEventsOnly(s.timeline, room);
    if s.lock == None {
      ReadsAreOfColumns(sig, s, first, s.timeline, room);
    }
  }
}
