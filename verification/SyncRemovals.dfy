/**
 What sync says of the rooms a user is no longer in: it tells of every removal since the last answer and
 of nothing else, and a client that forgets what it is told it left keeps no such room.
 */
module SyncRemovals {
  import opened Audit
  import opened Columns
  import opened Contents
  import opened Events
  import opened InviteChain
  import J = Json
  import opened Orders
  import opened RoomStore
  import opened Sync
  import opened Text

  /** The event says that the user left or was banned. */
  ghost predicate TakesOut(e: Pdu, user: string) {
    && e.kind == ROOM_MEMBER && e.stateKey == Some(user)
    && (Says(e, "membership", J.Str("leave")) || Says(e, "membership", J.Str("ban")))
  }

  /** The server's state of the room has the user as gone. */
  ghost predicate IsOut(h: seq<Pdu>, room: string, user: string) {
    var slot := Slot(ROOM_MEMBER, user);
    slot in ServerState(h, room) && TakesOut(ServerState(h, room)[slot], user)
  }

  /** The history holds an event of the room that takes the user out of it. */
  ghost predicate TakenOut(events: seq<Pdu>, room: string, user: string) {
    exists e | e in events :: e.roomId == room && TakesOut(e, user)
  }

  lemma LeftInDeltaIs(events: seq<Pdu>, room: string, user: string)
    ensures LeftInDelta(RoomEvents(events, room), user) <==> TakenOut(events, room, user)
  {
    hide RoomEvents, Says;
    RoomEventsAre(events, room);
    forall e ensures TakesOut(e, user) <==> IsMemberEvent(e, user, "leave") || IsMemberEvent(e, user, "ban") {
      MembershipIs(e);
    }
  }

  lemma MemberIsNotOut(h: seq<Pdu>, room: string, user: string)
    ensures !(Member(h, room, user) && IsOut(h, room, user))
  {
    hide ServerState, Says;
    var slot := Slot(ROOM_MEMBER, user);
    if slot in ServerState(h, room) {
      MembershipIs(ServerState(h, room)[slot]);
    }
  }

  /**
   An incremental answer lists a room as left exactly when its user is not joined to it and an event since
   took them out; and it then carries all that happened in the room since.
   */
  lemma LeftRoomsAre(h: seq<Pdu>, pos: nat, user: string, room: string)
    requires Sound(h) && pos <= |h| && Clean(room)
    ensures var view := Incremental(After(h), user, h[pos..]);
      && (room in view.left <==> !Member(h, room, user) && TakenOut(h[pos..], room, user))
      && (room in view.left ==> view.left[room] == RoomEvents(h[pos..], room))
  {
    hide Sound, After, Incremental, Member, RoomEvents, LeftInDelta, JoinedInDelta, TakesOut, ServerState;
    AnsweredRoom(h, pos, user, room);
    LeftInDeltaIs(h[pos..], room, user);
    RoomEventsAre(h[pos..], room);
  }

  /** The member event of a user who was not out before and is out now came in between. */
  lemma RemovalIsRecent(h: seq<Pdu>, pos: nat, user: string, room: string)
    requires pos <= |h| && IsOut(h, room, user) && !IsOut(h[..pos], room, user)
    ensures TakenOut(h[pos..], room, user)
  {
    hide TakesOut, ServerState, Overlay, RoomEvents;
    var slot := Slot(ROOM_MEMBER, user);
    assert h == h[..pos] + h[pos..];
    StateSince(h[..pos], h[pos..], room);
    OverlaySlot(ServerState(h[..pos], room), RoomEvents(h[pos..], room), slot);
    RoomEventsAre(h[pos..], room);
  }

  /** Whoever was joined at the last answer and has left or been banned since is told so. */
  lemma RemovedIsTold(h: seq<Pdu>, pos: nat, user: string, room: string)
    requires Sound(h) && pos <= |h| && Clean(room) && Member(h[..pos], room, user) && IsOut(h, room, user)
    ensures var view := Incremental(After(h), user, h[pos..]);
      room in view.left && room !in view.joined && view.left[room] == RoomEvents(h[pos..], room)
  {
    hide Sound, After, Incremental, Member, RoomEvents, IsOut, TakenOut, JoinedInDelta, LeftInDelta;
    MemberIsNotOut(h[..pos], room, user);
    MemberIsNotOut(h, room, user);
    RemovalIsRecent(h, pos, user, room);
    LeftRoomsAre(h, pos, user, room);
    AnsweredRoom(h, pos, user, room);
  }

  // ---------------------------------------------------------------------------
  // The first answer
  // ---------------------------------------------------------------------------

  /** An initial answer lists exactly the rooms its user is joined to, each whole. */
  lemma WholeRoomsAre(h: seq<Pdu>, user: string, room: string)
    requires Sound(h) && Clean(room)
    ensures var view := Initial(After(h), user);
      && (room in view.joined <==> Member(h, room, user)) && view.left == map[]
      && (room in view.joined ==>
            && view.joined[room].state == StateEvents(ServerState(h, room))
            && IsAscending(Earlier, view.joined[room].timeline)
            && forall p :: p in view.joined[room].timeline <==> p in h && p.roomId == room)
  {
    hide Sound, Member, IsJoined, StateEvents, ServerState, After, CurrentStatePdus, Timeline, AllRooms, Earlier;
    AllRoomsAre(h);
    IsJoinedIs(h, room, user);
    CurrentStatePdusAre(h, room);
    MemberRoomExists(h, room, user);
    TimelineIs(h, room);
  }

  // ---------------------------------------------------------------------------
  // A client that forgets
  // ---------------------------------------------------------------------------

  /** The client holds no room that the first `h` have its user gone from. */
  ghost predicate HoldsNoneLeft(client: Client, h: seq<Pdu>, user: string) {
    forall room | room in client.held :: Clean(room) && !IsOut(h, room, user)
  }

  lemma ListedAreClean(h: seq<Pdu>, pos: nat, user: string, room: string)
    requires Sound(h) && pos <= |h|
    ensures room in Incremental(After(h), user, h[pos..]).joined ==> Clean(room)
    ensures room in Initial(After(h), user).joined ==> Clean(room)
  {
    hide IsJoined, Sync.Entry, After, CurrentStatePdus, Timeline, AllRooms, RoomEvents;
    AllRoomsAre(h);
    if room in RoomsIn(h[pos..]) {
      var p :| p in h[pos..] && p.roomId == room;
      assert p in h && Named(p);
    }
  }

  lemma HeldAfter(client: Client, view: View, room: string)
    requires client.forgets
    ensures room in Applied(client, view).held <==> room in view.joined || (room in client.held && room !in view.left)
  {
    hide Overlay;
  }

  lemma ShortEnough(h: seq<Pdu>)
    requires Sound(h)
    ensures |h| < U64_LIMIT
  {
  }

  lemma SyncForgets(client: Client, h: seq<Pdu>, user: string, pos: nat)
    requires Sound(h) && Following(client, h, user, pos) && client.forgets && HoldsNoneLeft(client, h[..pos], user)
    ensures HoldsNoneLeft(Applied(client, Answer(After(h), user, client.since)), h, user)
  {
    hide Sound, After, Incremental, Initial, Applied, Member, IsOut, TakenOut, RoomEvents, UpToDate;
    var view := Answer(After(h), user, client.since);
    forall room | room in Applied(client, view).held ensures Clean(room) && !IsOut(h, room, user) {
      HeldAfter(client, view, room);
      ListedAreClean(h, pos, user, room);
      if client.since == None && client.held == map[] {
        WholeRoomsAre(h, user, room);
        MemberIsNotOut(h, room, user);
      } else {
        ShortEnough(h);
        TokenOf(client, h, user, pos);
        TokenReadsBack(pos);
        EventsSinceIs(h, pos);
        AnsweredMember(h, pos, user, room);
        MemberIsNotOut(h, room, user);
        if room !in view.joined && IsOut(h, room, user) {
          RemovalIsRecent(h, pos, user, room);
          LeftRoomsAre(h, pos, user, room);
        }
      }
    }
  }

  lemma AnsweredMember(h: seq<Pdu>, pos: nat, user: string, room: string)
    requires Sound(h) && pos <= |h| && Clean(room)
    ensures room in Incremental(After(h), user, h[pos..]).joined ==> Member(h, room, user)
  {
    hide Sound, After, Incremental, Member, RoomEvents, JoinedInDelta, LeftInDelta;
    AnsweredRoom(h, pos, user, room);
  }

  lemma {:induction false} RunForgets(w: World, user: string, actions: seq<Action>, pos: nat) returns (pos': nat)
    requires Sound(w.history + Sent(actions)) && Following(w.client, w.history, user, pos)
    requires w.client.forgets && HoldsNoneLeft(w.client, w.history[..pos], user)
    ensures var w' := Run(w, user, actions);
      && w'.history == w.history + Sent(actions) && Following(w'.client, w'.history, user, pos')
      && w'.client.forgets && HoldsNoneLeft(w'.client, w'.history[..pos'], user)
    decreases |actions|
  {
    hide Sound, UpToDate, Applied, Answer, After, HoldsNoneLeft;
    if actions == [] {
      assert w.history + [] == w.history;
      pos' := pos;
    } else {
      var w1 := Next(w, user, actions[0]);
      var rest := actions[1..];
      if actions[0].DoSync? {
        assert [] + Sent(rest) == Sent(rest);
        assert (w.history + Sent(rest))[..|w.history|] == w.history;
        SoundPrefix(w.history + Sent(rest), |w.history|);
        SyncCatchesUp(w.client, w.history, user, pos);
        SyncForgets(w.client, w.history, user, pos);
        assert w.history[..|w.history|] == w.history;
        StillForgets(w.client, Answer(After(w.history), user, w.client.since));
        pos' := RunForgets(w1, user, rest, |w.history|);
      } else {
        var p := actions[0].event;
        assert w.history + ([p] + Sent(rest)) == (w.history + [p]) + Sent(rest);
        assert (w.history + [p])[..pos] == w.history[..pos];
        pos' := RunForgets(w1, user, rest, pos);
      }
    }
  }

  lemma StillForgets(client: Client, view: View)
    ensures Applied(client, view).forgets == client.forgets
  {
    hide Overlay;
  }

  /**
   In every run of appends and syncs, after a sync a client that forgets what it is told it left holds no
   room whose state has its user as gone.
   */
  lemma RemovedRoomsAreForgotten(user: string, actions: seq<Action>, room: string)
    requires Sound(Sent(actions))
    ensures var w := Next(Run(World([], Client(None, map[], true)), user, actions), user, DoSync);
      w.history == Sent(actions) && (IsOut(w.history, room, user) ==> room !in w.client.held)
  {
    hide Sound, Applied, Answer, After, Run, IsOut;
    var start := World([], Client(None, map[], true));
    assert [] + Sent(actions) == Sent(actions);
    var pos := RunForgets(start, user, actions, 0);
    var w := Run(start, user, actions);
    SyncForgets(w.client, w.history, user, pos);
  }
}
