/**
 What the writers of a room were asked to do and what they did: every event after the creation carries the
 request of some turn, and a membership change that completes is in force.
 */
module RoomRequests {
  import opened Auth
  import opened Contents
  import C = CreatedRoom
  import opened Events
  import opened InviteChain
  import opened Json
  import opened JsonRoundTrip
  import opened Orders
  import RoomStore
  import opened RoomTransactions
  import opened RoomWriters

  // ---------------------------------------------------------------------------
  // Every event was asked for
  // ---------------------------------------------------------------------------

  /** In some turn of the schedule the thread was asked that. */
  predicate Asked(turns: seq<Turn>, t: nat, req: Request) {
    exists k | 0 <= k < |turns| :: turns[k].thread == t && turns[k].req == req
  }

  /** The event carries a request that the thread was asked, at a time the clock showed the thread. */
  ghost predicate MadeBy(turns: seq<Turn>, room: string, t: nat, req: Request, p: Pdu) {
    && Asked(turns, t, req) && Carries(req, p) && p.roomId == room
    && exists k | 0 <= k < |turns| :: turns[k].thread == t && turns[k].ts == p.originServerTs
  }

  ghost predicate PhaseAsked(turns: seq<Turn>, room: string, t: nat, phase: Phase) {
    && (Serving(phase).Some? ==> Asked(turns, t, Serving(phase).value))
    && (phase.Linked? || phase.Accepted? ==> MadeBy(turns, room, t, phase.req, phase.event))
  }

  ghost predicate WasAsked(turns: seq<Turn>, room: string, p: Pdu) {
    exists t, req :: MadeBy(turns, room, t, req, p)
  }

  ghost predicate AllAsked(turns: seq<Turn>, room: string, s: State, first: seq<Pdu>) {
    && (forall t: nat :: PhaseAsked(turns, room, t, PhaseOf(s, t)))
    && (forall p | p in s.timeline :: p in first || WasAsked(turns, room, p))
  }

  lemma OwnPhaseAsked(hash: RefHash, sig: SigCheck, room: string, s: State, turn: Turn, turns: seq<Turn>)
    requires PhaseAsked(turns, room, turn.thread, PhaseOf(s, turn.thread)) && turn in turns
    ensures PhaseAsked(turns, room, turn.thread, PhaseOf(Next(hash, sig, room, s, turn), turn.thread))
  {
    hide CheckAuth, StateEvents, Insert, AfterEvent, NextDepth, TipIds, Event, Carries;
    var k :| 0 <= k < |turns| && turns[k] == turn;
    var phase := PhaseOf(s, turn.thread);
    if phase.Locked? {
      EventCarries(hash, room, phase.req, turn.ts, NextDepth(s.timeline), TipIds(s.timeline));
    }
  }

  lemma TurnIsAsked(hash: RefHash, sig: SigCheck, room: string, s: State, turn: Turn, turns: seq<Turn>, first: seq<Pdu>)
    requires AllAsked(turns, room, s, first) && turn in turns
    ensures AllAsked(turns, room, Next(hash, sig, room, s, turn), first)
  {
    hide Next, MadeBy, Insert;
    var s', phase := Next(hash, sig, room, s, turn), PhaseOf(s, turn.thread);
    assert PhaseAsked(turns, room, turn.thread, phase);
    OwnPhaseAsked(hash, sig, room, s, turn, turns);
    forall t: nat ensures PhaseAsked(turns, room, t, PhaseOf(s', t)) {
      OtherPhases(hash, sig, room, s, turn, t);
    }
    TurnWrites(hash, sig, room, s, turn);
    if phase.Accepted? {
      InsertMembers(phase.event, s.timeline);
      assert WasAsked(turns, room, phase.event);
    }
  }

  lemma {:induction false} RunIsAsked(
    hash: RefHash, sig: SigCheck, room: string, s: State, schedule: seq<Turn>, turns: seq<Turn>, first: seq<Pdu>)
    requires AllAsked(turns, room, s, first) && forall turn | turn in schedule :: turn in turns
    ensures AllAsked(turns, room, Run(hash, sig, room, s, schedule), first)
    decreases |schedule|
  {
    hide Next, AllAsked;
    if schedule != [] {
      TurnIsAsked(hash, sig, room, s, schedule[0], turns, first);
      RunIsAsked(hash, sig, room, Next(hash, sig, room, s, schedule[0]), schedule[1..], turns, first);
    }
  }

  /** In every interleaving, what follows the creation is what the threads were asked to write, nothing else. */
  lemma EveryEventWasAsked(hash: RefHash, sig: SigCheck, room: string, first: seq<Pdu>, schedule: seq<Turn>, p: Pdu)
    requires p in Run(hash, sig, room, Opened(first), schedule).timeline && p !in first
    ensures exists t, req :: MadeBy(schedule, room, t, req, p)
  {
    hide Run, MadeBy;
    RunIsAsked(hash, sig, room, Opened(first), schedule, schedule, first);
  }

  // ---------------------------------------------------------------------------
  // A completed change is in force
  // ---------------------------------------------------------------------------

  /** A thread whose event is stored and applied, but not yet recorded, wrote the last event of the room. */
  ghost predicate LastIsApplied(s: State) {
    forall t: nat | PhaseOf(s, t).Applied? :: s.timeline != [] && s.timeline[|s.timeline| - 1] == PhaseOf(s, t).event
  }

  lemma TurnKeepsLast(hash: RefHash, sig: SigCheck, room: string, s: State, turn: Turn, first: seq<Pdu>)
    requires Inv(sig, s, first) && LastIsApplied(s)
    ensures LastIsApplied(Next(hash, sig, room, s, turn))
  {
    hide Next, Insert, Linear, StateAfter, Admitted, CheckAuth, StateEvents;
    var s', u := Next(hash, sig, room, s, turn), turn.thread;
    TurnWrites(hash, sig, room, s, turn);
    forall t: nat | PhaseOf(s', t).Applied?
      ensures s'.timeline != [] && s'.timeline[|s'.timeline| - 1] == PhaseOf(s', t).event
    {
      OtherPhases(hash, sig, room, s, turn, t);
      if t == u {
        ComesToApplied(hash, sig, room, s, turn);
        HolderIs(s, u);
      } else {
        assert Critical(PhaseOf(s, t)) && s.lock == Some(t);
        assert Critical(PhaseOf(s, u)) <==> s.lock == Some(u);
      }
    }
  }

  lemma HolderIs(s: State, t: nat)
    requires Exclusive(s) && Critical(PhaseOf(s, t))
    ensures HolderPhase(s) == PhaseOf(s, t)
  {
  }

  lemma ComesToApplied(hash: RefHash, sig: SigCheck, room: string, s: State, turn: Turn)
    ensures var phase, phase' := PhaseOf(s, turn.thread), PhaseOf(Next(hash, sig, room, s, turn), turn.thread);
      phase'.Applied? ==> phase.Stored? && phase.event == phase'.event
  {
    hide CheckAuth, StateEvents, Insert, AfterEvent, Event, NextDepth, TipIds;
  }

  lemma {:induction false} RunKeepsLast(hash: RefHash, sig: SigCheck, room: string, s: State, schedule: seq<Turn>, first: seq<Pdu>)
    requires Inv(sig, s, first) && LastIsApplied(s)
    ensures LastIsApplied(Run(hash, sig, room, s, schedule))
    decreases |schedule|
  {
    hide Next, Inv, LastIsApplied;
    if schedule != [] {
      var one := [schedule[0]];
      TurnKeepsLast(hash, sig, room, s, schedule[0], first);
      RunKeepsInv(hash, sig, room, s, one, first);
      assert one[1..] == [] && Run(hash, sig, room, s, one) == Run(hash, sig, room, Next(hash, sig, room, s, schedule[0]), []);
      RunKeepsLast(hash, sig, room, Next(hash, sig, room, s, schedule[0]), schedule[1..], first);
    }
  }

  /**
   When a membership change has been written the room's state has the target in the membership asked for,
   by an event of the actor.
   */
  lemma CompletedChangeIsInForce(hash: RefHash, sig: SigCheck, room: string, first: seq<Pdu>, schedule: seq<Turn>, t: nat)
    requires Linear(first)
    ensures var s := Run(hash, sig, room, Opened(first), schedule);
      match PhaseOf(s, t)
      case Applied(Membership(actor, target, membership), p) =>
        var slot := Slot("m.room.member", target);
        slot in StateAfter(s.timeline) && var e := StateAfter(s.timeline)[slot];
          e.sender == actor && Says(e, "membership", Str(membership))
      case _ => true
  {
    hide Run, Inv, Backed, LastIsApplied, Linear, StateAfter, Says;
    var s := Run(hash, sig, room, Opened(first), schedule);
    OpenedStands(sig, first);
    RunKeepsLast(hash, sig, room, Opened(first), schedule, first) by {
      NobodyApplied(first);
    }
    RunStaysBacked(hash, sig, room, Opened(first), schedule) by {
      NothingRecorded(first);
    }
    if PhaseOf(s, t).Applied? && PhaseOf(s, t).req.Membership? {
      AppliedIs(s, t);
      var n := |s.timeline| - 1;
      StateGrows(s.timeline[..n], s.timeline[n]);
      assert s.timeline == s.timeline[..n] + [s.timeline[n]];
    }
  }

  lemma NobodyApplied(first: seq<Pdu>)
    ensures LastIsApplied(Opened(first))
  {
  }

  lemma NothingRecorded(first: seq<Pdu>)
    ensures Backed(Opened(first))
  {
  }

  lemma AppliedIs(s: State, t: nat)
    requires LastIsApplied(s) && Backed(s) && PhaseOf(s, t).Applied?
    ensures s.timeline != [] && s.timeline[|s.timeline| - 1] == PhaseOf(s, t).event
    ensures Carries(PhaseOf(s, t).req, PhaseOf(s, t).event)
  {
    assert PhaseIsBacked(s.timeline, PhaseOf(s, t));
  }

  // ---------------------------------------------------------------------------
  // A change by itself
  // ---------------------------------------------------------------------------

  lemma ChangeIsTried(hash: RefHash, sig: SigCheck, room: string, s: State, turn: Turn, n: nat)
    requires s.lock == None && PhaseOf(s, turn.thread).Idle? && turn.req.Membership?
    ensures Run(hash, sig, room, s, Repeat(turn, n + 3))
      == Run(hash, sig, room, To(s, turn.thread, Linked(turn.req, Built(hash, room, s, turn.req, turn.ts))).(lock := Some(turn.thread)), Repeat(turn, n))
  {
    hide CheckAuth, StateEvents, Insert, AfterEvent, Event, NextDepth, TipIds, Run, Repeat;
    var t, p := turn.thread, Built(hash, room, s, turn.req, turn.ts);
    var s1 := To(s, t, Checked(turn.req));
    var s2 := To(s1, t, Locked(turn.req)).(lock := Some(t));
    var s3 := To(s2, t, Linked(turn.req, p));
    RunRepeat(hash, sig, room, s, turn, n + 3);
    RunRepeat(hash, sig, room, s1, turn, n + 2);
    RunRepeat(hash, sig, room, s2, turn, n + 1);
    assert s3.threads == s.threads[t := Linked(turn.req, p)];
  }

  lemma ChangeIsWritten(hash: RefHash, sig: SigCheck, room: string, s: State, turn: Turn, p: Pdu)
    requires turn.req.Membership? && PhaseOf(s, turn.thread) == Accepted(turn.req, p)
    ensures Run(hash, sig, room, s, Repeat(turn, 4))
      == s.(threads := s.threads[turn.thread := Idle], lock := None,
            timeline := Insert(RoomStore.Earlier, p, s.timeline), state := AfterEvent(s.state, p))
  {
    hide CheckAuth, StateEvents, Insert, Event, NextDepth, TipIds, Run, Repeat, AfterEvent;
    var t := turn.thread;
    var s1 := To(s, t, Stored(turn.req, p)).(timeline := Insert(RoomStore.Earlier, p, s.timeline));
    var s2 := To(s1, t, Applied(turn.req, p)).(state := AfterEvent(s.state, p));
    var s3 := To(s2, t, Recorded);
    var s4 := To(s3, t, Idle).(lock := None);
    RunRepeat(hash, sig, room, s, turn, 4);
    RunRepeat(hash, sig, room, s1, turn, 3);
    RunRepeat(hash, sig, room, s2, turn, 2);
    RunRepeat(hash, sig, room, s3, turn, 1);
    RunRepeat(hash, sig, room, s4, turn, 0);
    assert s4.threads == s.threads[t := Idle];
  }

  /**
   A membership change left to itself: if the rules allow it, exactly one event is added, which carries it,
   and the state has it in the target's slot; otherwise the room stays as it was. Either way it returns.
   */
  lemma ChangeByItself(hash: RefHash, sig: SigCheck, room: string, s: State, turn: Turn, q: Pdu)
    requires s.lock == None && PhaseOf(s, turn.thread).Idle? && turn.req.Membership? && Linear(s.timeline)
    requires Carries(turn.req, q) && q.contentJson == SingleField("membership", turn.req.membership)
    ensures CheckAuth(q, StateEvents(s.state), sig).Ok? ==>
      var end := Run(hash, sig, room, s, Repeat(turn, 8));
      && |end.timeline| == |s.timeline| + 1 && s.timeline <= end.timeline && Linear(end.timeline)
      && PhaseOf(end, turn.thread).Idle? && end.lock == None && end.txns == s.txns
      && (var p := end.timeline[|s.timeline|];
          Carries(turn.req, p) && p.roomId == room && end.state == s.state[Slot("m.room.member", turn.req.target) := p])
    ensures !CheckAuth(q, StateEvents(s.state), sig).Ok? ==>
      Run(hash, sig, room, s, Repeat(turn, 4)) == s.(threads := s.threads[turn.thread := Idle])
  {
    hide CheckAuth, StateEvents, Insert, NextDepth, TipIds, Run, Repeat, Linear, SingleField, Says;
    var t, p := turn.thread, Built(hash, room, s, turn.req, turn.ts);
    EventCarries(hash, room, turn.req, turn.ts, NextDepth(s.timeline), TipIds(s.timeline));
    SameVerdict(p, q, StateEvents(s.state), sig);
    var s1 := To(s, t, Linked(turn.req, p)).(lock := Some(t));
    if CheckAuth(q, StateEvents(s.state), sig).Ok? {
      ChangeIsTried(hash, sig, room, s, turn, 5);
      var s2 := To(s1, t, Accepted(turn.req, p));
      RunRepeat(hash, sig, room, s1, turn, 5);
      ChangeIsWritten(hash, sig, room, s2, turn, p);
      LinearGrows(s.timeline, p);
    } else {
      ChangeIsTried(hash, sig, room, s, turn, 1);
      var s2 := To(s1, t, Idle).(lock := None);
      RunRepeat(hash, sig, room, s1, turn, 1);
      RunRepeat(hash, sig, room, s2, turn, 0);
      assert s2.threads == s.threads[t := Idle];
    }
  }

  /**
   A send left to itself: under a recorded key it does nothing; otherwise, if the rules allow it, exactly one
   event is added, which carries it and whose id is recorded under the key, and if not nothing is.
   */
  lemma SendByItself(hash: RefHash, sig: SigCheck, room: string, s: State, turn: Turn, q: Pdu)
    requires s.lock == None && PhaseOf(s, turn.thread).Idle? && turn.req.Message? && Linear(s.timeline)
    requires Carries(turn.req, q)
    ensures (turn.req.sender, turn.req.txnId) in s.txns ==> Next(hash, sig, room, s, turn) == s
    ensures (turn.req.sender, turn.req.txnId) !in s.txns && CheckAuth(q, StateEvents(s.state), sig).Ok? ==>
      var end := Run(hash, sig, room, s, Repeat(turn, 8));
      && |end.timeline| == |s.timeline| + 1 && s.timeline <= end.timeline && Linear(end.timeline)
      && PhaseOf(end, turn.thread).Idle? && end.lock == None && end.state == s.state
      && (var p := end.timeline[|s.timeline|];
          Carries(turn.req, p) && p.roomId == room && end.txns == s.txns[(turn.req.sender, turn.req.txnId) := p.eventId])
    ensures (turn.req.sender, turn.req.txnId) !in s.txns && !CheckAuth(q, StateEvents(s.state), sig).Ok? ==>
      Run(hash, sig, room, s, Repeat(turn, 4)) == s.(threads := s.threads[turn.thread := Idle])
  {
    hide CheckAuth, StateEvents, Insert, AfterEvent, NextDepth, TipIds, Run, Repeat, Linear, Event;
    var t, p := turn.thread, Built(hash, room, s, turn.req, turn.ts);
    EventCarries(hash, room, turn.req, turn.ts, NextDepth(s.timeline), TipIds(s.timeline));
    EventLinks(hash, room, turn.req, turn.ts, NextDepth(s.timeline), TipIds(s.timeline));
    SameVerdict(p, q, StateEvents(s.state), sig);
    if (turn.req.sender, turn.req.txnId) !in s.txns {
      var s1 := To(s, t, Checked(turn.req));
      if CheckAuth(q, StateEvents(s.state), sig).Ok? {
        RunRepeat(hash, sig, room, s, turn, 8);
        WholeSend(hash, sig, room, s1, turn);
        LinearGrows(s.timeline, p);
      } else {
        var s2 := To(s1, t, Locked(turn.req)).(lock := Some(t));
        var s3 := To(s2, t, Linked(turn.req, p));
        var s4 := To(s3, t, Idle).(lock := None);
        RunRepeat(hash, sig, room, s, turn, 4);
        RunRepeat(hash, sig, room, s1, turn, 3);
        RunRepeat(hash, sig, room, s2, turn, 2);
        RunRepeat(hash, sig, room, s3, turn, 1);
        RunRepeat(hash, sig, room, s4, turn, 0);
        assert s4.threads == s.threads[t := Idle];
      }
    }
  }

  // ---------------------------------------------------------------------------
  // What creating a room asks for
  // ---------------------------------------------------------------------------

  /** A state event of the creator with just these members in its content. */
  ghost predicate Opens(p: Pdu, room: string, creator: string, kind: string, stateKey: string, members: seq<Member>) {
    && p.roomId == room && p.sender == creator && p.kind == kind && p.stateKey == Some(stateKey)
    && Parse(p.contentJson) == Ok(Object(members))
  }

  lemma LabelOpens(p: Pdu, room: string, creator: string, kind: string, field: string, value: string, ts: nat)
    requires IsInitial(p, room, creator, NewState(kind, "", SingleField(field, value), ts))
    ensures Opens(p, room, creator, kind, "", [Member(field, Str(value))])
  {
    hide Print, Parse;
    OneMember(field, Str(value));
    ParsePrint(Object([Member(field, Str(value))]));
  }

  /**
   A created room opens with its create event, its creator's join and power levels that give the creator
   100 and everyone else 0; then its name and its topic, each exactly if given; and with nothing else.
   */
  lemma RoomOpens(hash: RefHash, room: string, creator: string, labels: C.Labels, clock: C.Clock)
    ensures var first := C.Opening(hash, room, creator, labels, clock);
      var topic := if labels.name.Some? then 4 else 3;
      && |first| == topic + (if labels.topic.Some? then 1 else 0)
      && Opens(first[0], room, creator, "m.room.create", "", [Member("creator", Str(creator)), Member("room_version", Str("12"))])
      && Opens(first[1], room, creator, "m.room.member", creator, [Member("membership", Str("join"))])
      && Opens(first[2], room, creator, "m.room.power_levels", "",
           [Member("users", Object([Member(creator, Number(100))])), Member("users_default", Number(0))])
      && (labels.name.Some? ==> Opens(first[3], room, creator, "m.room.name", "", [Member("name", Str(labels.name.value))]))
      && (labels.topic.Some? ==>
            Opens(first[topic], room, creator, "m.room.topic", "", [Member("topic", Str(labels.topic.value))]))
  {
    hide Print, Parse, Created, Linear, SingleField;
    var initial := C.InitialState(creator, labels, clock);
    var first := C.Opening(hash, room, creator, labels, clock);
    CreatedIs(hash, room, creator, initial);
    C.OpeningEvents(hash, room, creator, labels, clock);
    C.ContentsReadBack(creator);
    if labels.name.Some? {
      assert initial[3] == NewState("m.room.name", "", SingleField("name", labels.name.value), clock(3));
      LabelOpens(first[3], room, creator, "m.room.name", "name", labels.name.value, clock(3));
    }
    if labels.topic.Some? {
      var k := if labels.name.Some? then 4 else 3;
      assert initial[k] == NewState("m.room.topic", "", SingleField("topic", labels.topic.value), clock(k));
      LabelOpens(first[k], room, creator, "m.room.topic", "topic", labels.topic.value, clock(k));
    }
  }
}
